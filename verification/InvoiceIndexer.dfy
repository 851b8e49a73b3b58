/**
 The invoice event indexer: one poll fetches a page of contract events, stores
 and applies each of them, and saves a cursor.

 Everything a poll does to the outside world is an `Effect`, and the effects of
 one poll form a plan. A process that dies between two writes leaves a prefix of
 its plan behind, so a statement about every prefix of every plan covers a crash
 at every point. `Indexer` at the end of the file is the same poll as a class
 that really does one write after another. What holds in every run is proved in
 `InvoiceStatuses`, `InvoiceCoverage` and `InvoiceOrder`.
 */
module InvoiceIndexer {
  import opened Common

  datatype EventKind = InvoiceCreated | InvoicePaid | InvoiceExpired | InvoiceCancelled | EscrowReleased | Untracked

  datatype Status = Pending | Paid | Expired | Cancelled | RefundRequested | Released

  datatype Event = Event(id: string, kind: EventKind, invoice: string, ledger: nat)

  /**
   A paging token. `after` is the number of contract events the node considers
   delivered when it is given this token; `toid` is the number its text starts
   with, if it starts with one.
   */
  datatype Token = Token(after: nat, toid: Option<nat>)

  datatype Cursor = Cursor(token: Option<Token>, lastLedger: nat)

  datatype Gap = Gap(first: int, last: int)

  datatype StoredEvent = StoredEvent(event: Event, applied: bool)

  /** The database, with the histories of marked events and of hook calls. */
  datatype Disk = Disk(
    events: map<string, StoredEvent>,
    invoices: map<string, Status>,
    cursor: Option<Cursor>,
    gaps: set<Gap>,
    marked: seq<Event>,
    hooked: seq<Event>)

  datatype Effect =
    | StoreEvent(event: Event)
    | UpdateInvoice(event: Event)
    | MarkApplied(event: Event)
    | RunHook(event: Event)
    | RecordGap(gap: Gap)
    | SaveCursor(cursor: Cursor)

  /** `lastToken` is the paging token of the last event, which a node may leave out. */
  datatype Page = Page(events: seq<Event>, lastToken: Option<Token>, cursor: Option<Token>, latest: nat)

  /**
   What the node answers to one poll: nothing usable, a page, or a retention
   error. After a retention error the indexer learns the oldest ledger (from the
   error or from the health endpoint) or fails, and then fetches again.
   */
  datatype Answer =
    | Failed
    | Served(page: Page)
    | Retention(oldest: Option<nat>, retry: Option<Page>)

  /** One poll: the start ledger used without a cursor, the answer, and the writes that get through. */
  datatype Poll = Poll(initialLedger: nat, answer: Answer, survived: nat)

  datatype ResumePoint = AtToken(token: Token) | AtLedger(ledger: nat)

  // ----- what the code does ------------------------------------------------

  function StatusByEvent(kind: EventKind): Option<Status> {
    match kind
    case InvoicePaid => Some(Paid)
    case InvoiceExpired => Some(Expired)
    case InvoiceCancelled => Some(Cancelled)
    case EscrowReleased => Some(Released)
    case _ => None
  }

  function LedgerFromPagingToken(token: Token): Option<nat> {
    match token.toid
    case Some(n) => Some(n / 0x1_0000_0000)
    case None => None
  }

  /** updateOne without upsert: an unknown invoice is left alone. */
  function SetStatus(invoices: map<string, Status>, e: Event): map<string, Status> {
    match StatusByEvent(e.kind)
    case Some(status) => if e.invoice in invoices then invoices[e.invoice := status] else invoices
    case None => invoices
  }

  function Perform(d: Disk, w: Effect): Disk {
    match w
    case StoreEvent(e) =>
      if e.id in d.events then d else d.(events := d.events[e.id := StoredEvent(e, false)])
    case UpdateInvoice(e) => d.(invoices := SetStatus(d.invoices, e))
    case MarkApplied(e) =>
      if e.id in d.events
      then d.(events := d.events[e.id := d.events[e.id].(applied := true)], marked := d.marked + [e])
      else d
    case RunHook(e) => d.(hooked := d.hooked + [e])
    case RecordGap(g) => d.(gaps := d.gaps + {g})
    case SaveCursor(c) => d.(cursor := Some(c))
  }

  function PerformAll(d: Disk, ws: seq<Effect>): Disk
    decreases |ws|
  {
    if ws == [] then d else PerformAll(Perform(d, ws[0]), ws[1..])
  }

  predicate Applied(d: Disk, e: Event) {
    e.id in d.events && d.events[e.id].applied
  }

  function RecordPlan(d: Disk, e: Event): seq<Effect> {
    if Applied(d, e) then [StoreEvent(e)]
    else if StatusByEvent(e.kind).Some? then [StoreEvent(e), UpdateInvoice(e), MarkApplied(e), RunHook(e)]
    else [StoreEvent(e), MarkApplied(e), RunHook(e)]
  }

  function BatchPlan(d: Disk, es: seq<Event>): seq<Effect>
    decreases |es|
  {
    if es == [] then []
    else if es[0].kind.Untracked? then BatchPlan(d, es[1..])
    else
      var plan := RecordPlan(d, es[0]);
      plan + BatchPlan(PerformAll(d, plan), es[1..])
  }

  function NextCursor(lastLedger: nat, page: Page): Cursor {
    if page.events != []
    then Cursor(page.lastToken, page.events[|page.events| - 1].ledger)
    else Cursor(page.cursor, Max(lastLedger, page.latest))
  }

  function PagePlan(d: Disk, lastLedger: nat, page: Page): seq<Effect> {
    BatchPlan(d, page.events) + [SaveCursor(NextCursor(lastLedger, page))]
  }

  function LastLedger(cursor: Option<Cursor>): nat {
    if cursor.Some? then cursor.value.lastLedger else 0
  }

  /** A saved cursor the next poll really resumes from. */
  predicate Resumable(cursor: Option<Cursor>) {
    cursor.Some? && (cursor.value.token.Some? || cursor.value.lastLedger > 0)
  }

  function ResumeFrom(cursor: Option<Cursor>, initialLedger: nat): ResumePoint {
    if cursor.Some? && cursor.value.token.Some? then AtToken(cursor.value.token.value)
    else if LastLedger(cursor) > 0 then AtLedger(LastLedger(cursor))
    else AtLedger(initialLedger)
  }

  function GapStart(point: ResumePoint, lastLedger: nat): nat {
    match point
    case AtLedger(n) => n
    case AtToken(t) => LedgerFromPagingToken(t).GetOr(lastLedger)
  }

  function SkipPlan(point: ResumePoint, lastLedger: nat, oldest: nat): seq<Effect> {
    [RecordGap(Gap(GapStart(point, lastLedger), oldest - 1)), SaveCursor(Cursor(None, oldest))]
  }

  function PollPlan(d: Disk, initialLedger: nat, answer: Answer): seq<Effect> {
    match answer
    case Failed => []
    case Served(page) => PagePlan(d, LastLedger(d.cursor), page)
    case Retention(None, _) => []
    case Retention(Some(oldest), retry) =>
      var skip := SkipPlan(ResumeFrom(d.cursor, initialLedger), LastLedger(d.cursor), oldest);
      match retry
      case None => skip
      case Some(page) => skip + PagePlan(PerformAll(d, skip), oldest, page)
  }

  function AfterPoll(d: Disk, poll: Poll): Disk {
    PerformAll(d, Prefix(PollPlan(d, poll.initialLedger, poll.answer), poll.survived))
  }

  function AfterRun(d: Disk, polls: seq<Poll>): Disk
    decreases |polls|
  {
    if polls == [] then d else AfterRun(AfterPoll(d, polls[0]), polls[1..])
  }

  // ----- plans -------------------------------------------------------------

  lemma {:induction false} PerformConcat(d: Disk, a: seq<Effect>, b: seq<Effect>)
    ensures PerformAll(d, a + b) == PerformAll(PerformAll(d, a), b)
    decreases |a|
  {
    if a == [] {
      assert a + b == b;
    } else {
      assert (a + b)[1..] == a[1..] + b;
      PerformConcat(Perform(d, a[0]), a[1..], b);
    }
  }

  /** Running a cut plan a + b: either a is cut, or a completes and b is cut. */
  lemma PerformCut(d: Disk, a: seq<Effect>, b: seq<Effect>, n: nat)
    ensures n <= |a| ==> PerformAll(d, Prefix(a + b, n)) == PerformAll(d, Prefix(a, n))
    ensures n >= |a| ==>
      PerformAll(d, Prefix(a + b, n)) == PerformAll(PerformAll(d, a), Prefix(b, n - |a|))
  {
    PrefixConcat(a, b, n);
    if n >= |a| {
      PerformConcat(d, a, Prefix(b, n - |a|));
    }
  }

  /** The disk after a prefix of the writes for one event, spelled out. */
  lemma RecordCut(d: Disk, e: Event, n: nat)
    ensures var d' := PerformAll(d, Prefix(RecordPlan(d, e), n));
      if Applied(d, e) || n == 0 then d' == d
      else
        var s := Perform(d, StoreEvent(e));
        var u := Perform(s, UpdateInvoice(e));
        var w := if StatusByEvent(e.kind).Some? then 1 else 0;
        d' == (if n <= w then s
               else if n == 1 + w then u
               else if n == 2 + w then Perform(u, MarkApplied(e))
               else Perform(Perform(u, MarkApplied(e)), RunHook(e)))
  {
    var p := RecordPlan(d, e);
    if n == 0 {
      assert Prefix(p, n) == [];
    } else if n == 1 {
      assert Prefix(p, n) == [p[0]];
    } else if n == 2 && |p| > 1 {
      assert Prefix(p, n) == [p[0], p[1]];
    } else if n == 3 && |p| > 2 {
      assert Prefix(p, n) == [p[0], p[1], p[2]];
    } else {
      assert Prefix(p, n) == p;
    }
    UnfoldPerform(d, Prefix(p, n));
  }

  lemma UnfoldPerform(d: Disk, ws: seq<Effect>)
    ensures |ws| == 1 ==> PerformAll(d, ws) == Perform(d, ws[0])
    ensures |ws| == 2 ==> PerformAll(d, ws) == Perform(Perform(d, ws[0]), ws[1])
    ensures |ws| == 3 ==> PerformAll(d, ws) == Perform(Perform(Perform(d, ws[0]), ws[1]), ws[2])
    ensures |ws| == 4 ==> PerformAll(d, ws) == Perform(Perform(Perform(Perform(d, ws[0]), ws[1]), ws[2]), ws[3])
  {
    if |ws| > 0 {
      var d1 := Perform(d, ws[0]);
      var t := ws[1..];
      if |t| > 0 {
        assert t[0] == ws[1];
        var d2 := Perform(d1, t[0]);
        var u := t[1..];
        assert PerformAll(d1, t) == PerformAll(d2, u);
        if |u| > 0 {
          assert u[0] == ws[2];
          var v := u[1..];
          assert PerformAll(d2, u) == PerformAll(Perform(d2, u[0]), v);
          if |v| > 0 {
            assert v[0] == ws[3];
          }
        }
      }
    }
  }

  /** A batch that starts with a tracked event is cut in that event's writes or after them. */
  lemma BatchCut(d: Disk, es: seq<Event>, n: nat)
    requires es != [] && !es[0].kind.Untracked?
    ensures var plan := RecordPlan(d, es[0]);
      var d' := PerformAll(d, plan);
      var rest := BatchPlan(d', es[1..]);
      && BatchPlan(d, es) == plan + rest
      && Prefix(plan, |plan|) == plan
      && PerformAll(d, Prefix(BatchPlan(d, es), n)) ==
           (if n < |plan| then PerformAll(d, Prefix(plan, n)) else PerformAll(d', Prefix(rest, n - |plan|)))
  {
    var plan := RecordPlan(d, es[0]);
    PerformCut(d, plan, BatchPlan(PerformAll(d, plan), es[1..]), n);
  }

  /** The plan of a page is cut in its batch, or it completes with the cursor. */
  lemma PageCut(d: Disk, last: nat, page: Page, n: nat)
    ensures var batch := BatchPlan(d, page.events);
      && Prefix(batch, |batch|) == batch
      && |PagePlan(d, last, page)| == |batch| + 1
      && PerformAll(d, Prefix(PagePlan(d, last, page), n)) ==
           if n <= |batch| then PerformAll(d, Prefix(batch, n))
           else Perform(PerformAll(d, batch), SaveCursor(NextCursor(last, page)))
  {
    var batch := BatchPlan(d, page.events);
    var save := [SaveCursor(NextCursor(last, page))];
    PerformCut(d, batch, save, n);
    if n > |batch| {
      assert Prefix(save, n - |batch|) == save;
      UnfoldPerform(PerformAll(d, batch), save);
    }
  }

  /** The disk after a prefix of a skip. */
  lemma SkipCut(d: Disk, point: ResumePoint, last: nat, oldest: nat, n: nat)
    ensures var d' := PerformAll(d, Prefix(SkipPlan(point, last, oldest), n));
      d' == d.(gaps := if n == 0 then d.gaps else d.gaps + {Gap(GapStart(point, last), oldest - 1)},
               cursor := if n <= 1 then d.cursor else Some(Cursor(None, oldest)))
  {
    UnfoldPerform(d, Prefix(SkipPlan(point, last, oldest), n));
  }

  /** A poll answered by a retention error is cut in the skip or in the page fetched after it. */
  lemma RetentionCut(d: Disk, initialLedger: nat, oldest: nat, retry: Option<Page>, n: nat)
    ensures
      var skip := SkipPlan(ResumeFrom(d.cursor, initialLedger), LastLedger(d.cursor), oldest);
      var after := AfterPoll(d, Poll(initialLedger, Retention(Some(oldest), retry), n));
      && (n < |skip| || retry.None? ==> after == PerformAll(d, Prefix(skip, n)))
      && (n >= |skip| ==> Prefix(skip, n) == skip)
      && (n >= |skip| && retry.Some? ==>
            var passed := PerformAll(d, skip);
            after == PerformAll(passed, Prefix(PagePlan(passed, oldest, retry.value), n - |skip|)))
  {
    var skip := SkipPlan(ResumeFrom(d.cursor, initialLedger), LastLedger(d.cursor), oldest);
    if retry.Some? {
      PerformCut(d, skip, PagePlan(PerformAll(d, skip), oldest, retry.value), n);
    }
  }

  function NewDisk(invoices: map<string, Status>): Disk {
    Disk(map[], invoices, None, {}, [], [])
  }

  // ----- the same poll, writing step by step -------------------------------

  datatype Outcome = NewlyApplied | AlreadyApplied | Crashed

  /**
   The indexer against its database. `survives` is the number of writes and hook
   calls the process still gets through before it dies.
   */
  class Indexer {
    var events: map<string, StoredEvent>
    var invoices: map<string, Status>
    var cursor: Option<Cursor>
    var gaps: set<Gap>
    var hooked: seq<Event>
    ghost var marked: seq<Event>
    var survives: nat

    ghost function Snapshot(): Disk
      reads this
    {
      Disk(events, invoices, cursor, gaps, marked, hooked)
    }

    constructor (initial: map<string, Status>, survives: nat)
      ensures Snapshot() == NewDisk(initial) && this.survives == survives
    {
      events, invoices, cursor, gaps, hooked, marked := map[], initial, None, {}, [], [];
      this.survives := survives;
    }

    /** findOneAndUpdate with $setOnInsert: gives back the document as it was before. */
    method Upsert(e: Event) returns (before: Option<StoredEvent>)
      modifies this`events
      ensures Snapshot() == Perform(old(Snapshot()), StoreEvent(e))
      ensures before.Some? && before.value.applied <==> Applied(old(Snapshot()), e)
    {
      before := if e.id in events then Some(events[e.id]) else None;
      if before.None? {
        events := events[e.id := StoredEvent(e, false)];
      }
    }

    method UpdateStatus(e: Event, status: Status)
      requires StatusByEvent(e.kind) == Some(status)
      modifies this`invoices
      ensures Snapshot() == Perform(old(Snapshot()), UpdateInvoice(e))
    {
      if e.invoice in invoices {
        invoices := invoices[e.invoice := status];
      }
    }

    method Mark(e: Event)
      requires e.id in events
      modifies this`events, this`marked
      ensures Snapshot() == Perform(old(Snapshot()), MarkApplied(e)) && marked == old(marked) + [e]
    {
      events := events[e.id := events[e.id].(applied := true)];
      marked := marked + [e];
    }

    method RecordTransition(e: Event) returns (outcome: Outcome)
      modifies this
      ensures var plan := RecordPlan(old(Snapshot()), e);
        && Snapshot() == PerformAll(old(Snapshot()), Prefix(plan, old(survives)))
        && (outcome.Crashed? <==> old(survives) < |plan|)
        && (!outcome.Crashed? ==> survives == old(survives) - |plan|)
      ensures outcome.NewlyApplied? ==> marked == old(marked) + [e] && hooked == old(hooked) + [e]
      ensures outcome.AlreadyApplied? ==> Snapshot() == old(Snapshot())
    {
      RecordCut(Snapshot(), e, survives);
      if survives == 0 { return Crashed; }
      survives := survives - 1;
      var before := Upsert(e);
      if before.Some? && before.value.applied { return AlreadyApplied; }

      var status := StatusByEvent(e.kind);
      if status.Some? {
        if survives == 0 { return Crashed; }
        survives := survives - 1;
        UpdateStatus(e, status.value);
      }

      if survives == 0 { return Crashed; }
      survives := survives - 1;
      Mark(e);

      if survives == 0 { return Crashed; }
      survives := survives - 1;
      hooked := hooked + [e];
      return NewlyApplied;
    }

    method HandleEvents(es: seq<Event>) returns (applied: Option<nat>)
      modifies this
      ensures var plan := BatchPlan(old(Snapshot()), es);
        && Snapshot() == PerformAll(old(Snapshot()), Prefix(plan, old(survives)))
        && (applied.None? <==> old(survives) < |plan|)
        && (applied.Some? ==> survives == old(survives) - |plan| && applied.value == |marked| - |old(marked)|)
    {
      var count := 0;
      ghost var d0, n0 := Snapshot(), survives;
      for i := 0 to |es|
        invariant |BatchPlan(d0, es)| - n0 == |BatchPlan(Snapshot(), es[i..])| - survives
        invariant PerformAll(d0, Prefix(BatchPlan(d0, es), n0)) ==
                  PerformAll(Snapshot(), Prefix(BatchPlan(Snapshot(), es[i..]), survives))
        invariant count == |marked| - |d0.marked|
      {
        assert es[i..][1..] == es[i + 1..];
        if !es[i].kind.Untracked? {
          BatchCut(Snapshot(), es[i..], survives);
          ghost var plan := RecordPlan(Snapshot(), es[i]);
          assert survives >= |plan| ==> Prefix(plan, survives) == plan;
          var outcome := RecordTransition(es[i]);
          if outcome.Crashed? { return None; }
          if outcome.NewlyApplied? { count := count + 1; }
        }
      }
      assert es[|es|..] == [];
      return Some(count);
    }

    /** Records the missing ledgers, and only then moves the cursor past them. */
    method SkipAhead(fromLedger: nat, oldest: nat, ghost point: ResumePoint, ghost last: nat) returns (alive: bool)
      requires fromLedger == GapStart(point, last)
      modifies this
      ensures var plan := SkipPlan(point, last, oldest);
        && Snapshot() == PerformAll(old(Snapshot()), Prefix(plan, old(survives)))
        && alive == (old(survives) >= |plan|)
        && (alive ==> survives == old(survives) - |plan|)
      ensures marked == old(marked)
    {
      SkipCut(Snapshot(), point, last, oldest, survives);
      if survives == 0 { return false; }
      survives := survives - 1;
      gaps := gaps + {Gap(fromLedger, oldest - 1)};
      if survives == 0 { return false; }
      survives := survives - 1;
      cursor := Some(Cursor(None, oldest));
      return true;
    }

    /** Handles every event of the page, and only then moves the cursor. */
    method FinishPage(lastLedger: nat, page: Page) returns (applied: Option<nat>)
      modifies this
      ensures Snapshot() ==
        PerformAll(old(Snapshot()), Prefix(PagePlan(old(Snapshot()), lastLedger, page), old(survives)))
      ensures applied.Some? ==> applied.value == |marked| - |old(marked)|
    {
      PageCut(Snapshot(), lastLedger, page, survives);
      applied := HandleEvents(page.events);
      if applied.None? { return None; }

      var nextToken, nextLedger := page.cursor, Max(lastLedger, page.latest);
      if |page.events| > 0 {
        nextToken := page.lastToken;
        nextLedger := page.events[|page.events| - 1].ledger;
      }
      if survives == 0 { return None; }
      survives := survives - 1;
      cursor := Some(Cursor(nextToken, nextLedger));
    }

    /**
     One poll. `initialLedger` is the configured start ledger or the latest ledger,
     and `answer` what the node replies. The result is the number of newly applied
     events, or None when the poll throws or the process dies.
     */
    method PollOnce(initialLedger: nat, answer: Answer) returns (applied: Option<nat>)
      modifies this
      ensures Snapshot() == AfterPoll(old(Snapshot()), Poll(initialLedger, answer, old(survives)))
      ensures applied.Some? ==> applied.value == |marked| - |old(marked)|
    {
      var pagingToken, startLedger, lastLedger := None, None, 0;
      if cursor.Some? {
        lastLedger := cursor.value.lastLedger;
        pagingToken := cursor.value.token;
        if pagingToken.None? && lastLedger > 0 {
          startLedger := Some(lastLedger);
        }
      }
      if pagingToken.None? && startLedger.None? {
        startLedger := Some(initialLedger);
      }

      var page: Page;
      match answer {
        case Failed => return None;
        case Served(served) => page := served;
        case Retention(oldest, retry) =>
          if oldest.None? { return None; }
          var fromLedger := if startLedger.Some? then startLedger.value
                            else LedgerFromPagingToken(pagingToken.value).GetOr(lastLedger);
          ghost var point := ResumeFrom(cursor, initialLedger);
          RetentionCut(Snapshot(), initialLedger, oldest.value, retry, survives);
          var alive := SkipAhead(fromLedger, oldest.value, point, lastLedger);
          lastLedger := oldest.value;
          if !alive || retry.None? { return None; }
          page := retry.value;
      }

      applied := FinishPage(lastLedger, page);
    }
  }
}
