/**
 Invoice statuses and hooks in every run of the invoice indexer, and which hooks
 never run.
 */
module InvoiceStatuses {
  import opened Common
  import opened InvoiceIndexer

  ghost predicate UniqueIds(chain: seq<Event>) {
    forall i, j :: 0 <= i < j < |chain| ==> chain[i].id != chain[j].id
  }

  function FoldStatus(initial: map<string, Status>, es: seq<Event>): map<string, Status>
    decreases |es|
  {
    if es == [] then initial
    else SetStatus(FoldStatus(initial, es[..|es| - 1]), es[|es| - 1])
  }

  /** Stored, but the process died before it was marked applied. */
  predicate Held(d: Disk, e: Event) {
    e.id in d.events && !d.events[e.id].applied
  }

  /** The elements of ws that are in ms. */
  function Among(ws: seq<Event>, ms: seq<Event>): seq<Event>
    decreases |ws|
  {
    if ws == [] then []
    else Among(ws[..|ws| - 1], ms) + if ws[|ws| - 1] in ms then [ws[|ws| - 1]] else []
  }

  /**
   The marked events in the order of their marks, with held events, each once, put in
   between: the events that wrote a status, in the order of their last writes.
   */
  ghost predicate WrittenBy(d: Disk, ws: seq<Event>) {
    && NoDuplicates(ws) && Among(ws, d.marked) == d.marked
    && forall e :: e in ws && e !in d.marked ==> Held(d, e) && d.events[e.id].event == e
  }

  ghost predicate StoreConsistent(d: Disk, chain: seq<Event>) {
    && (forall id :: id in d.events ==>
          d.events[id].event.id == id && d.events[id].event in chain && !d.events[id].event.kind.Untracked?)
    && (forall e :: e in d.marked ==> e in chain)
    && (forall e :: e in chain ==> (e in d.marked <==> Applied(d, e)))
    && NoDuplicates(d.marked)
    && NoDuplicates(d.hooked)
    && (forall e :: e in d.hooked ==> e in d.marked)
  }

  ghost predicate FoldOf(d: Disk, initial: map<string, Status>, ws: seq<Event>) {
    WrittenBy(d, ws) && d.invoices == FoldStatus(initial, ws)
  }

  /** The statuses are what the marked events, and some held ones between them, make of the initial ones. */
  ghost predicate StatusConsistent(d: Disk, initial: map<string, Status>) {
    exists ws :: FoldOf(d, initial, ws)
  }

  ghost predicate Consistent(d: Disk, chain: seq<Event>, initial: map<string, Status>) {
    StoreConsistent(d, chain) && StatusConsistent(d, initial)
  }

  ghost predicate PageFrom(chain: seq<Event>, page: Page) {
    forall e :: e in page.events ==> e in chain
  }

  ghost predicate AnswerFrom(chain: seq<Event>, answer: Answer) {
    match answer
    case Failed => true
    case Served(page) => PageFrom(chain, page)
    case Retention(oldest, retry) => oldest.Some? && retry.Some? ==> PageFrom(chain, retry.value)
  }

  lemma FoldSnoc(initial: map<string, Status>, es: seq<Event>, e: Event)
    ensures FoldStatus(initial, es + [e]) == SetStatus(FoldStatus(initial, es), e)
  {
    assert (es + [e])[..|es|] == es;
  }

  function Drop(ws: seq<Event>, e: Event): seq<Event>
    decreases |ws|
  {
    if ws == [] then []
    else Drop(ws[..|ws| - 1], e) + if ws[|ws| - 1] == e then [] else [ws[|ws| - 1]]
  }

  lemma {:induction false} DropHas(ws: seq<Event>, e: Event)
    ensures forall x :: x in Drop(ws, e) <==> x in ws && x != e
    ensures NoDuplicates(ws) ==> NoDuplicates(Drop(ws, e))
    decreases |ws|
  {
    if ws != [] {
      var init, last := ws[..|ws| - 1], ws[|ws| - 1];
      DropHas(init, e);
      assert ws == init + [last];
      assert NoDuplicates(ws) ==> last !in init && NoDuplicates(init);
    }
  }

  lemma {:induction false} AmongDrop(ws: seq<Event>, ms: seq<Event>, e: Event)
    requires e !in ms
    ensures Among(Drop(ws, e), ms) == Among(ws, ms)
    decreases |ws|
  {
    if ws != [] {
      var kept := Drop(ws[..|ws| - 1], e);
      AmongDrop(ws[..|ws| - 1], ms, e);
      AmongSnoc(kept, ws[|ws| - 1], ms);
      assert kept + [] == kept;
    }
  }

  lemma AmongSnoc(ws: seq<Event>, e: Event, ms: seq<Event>)
    ensures Among(ws + [e], ms) == Among(ws, ms) + if e in ms then [e] else []
  {
    assert (ws + [e])[..|ws|] == ws;
  }

  lemma {:induction false} AmongMore(ws: seq<Event>, ms: seq<Event>, e: Event)
    requires e !in ws
    ensures Among(ws, ms + [e]) == Among(ws, ms)
    decreases |ws|
  {
    if ws != [] {
      assert ws[|ws| - 1] in ws;
      AmongMore(ws[..|ws| - 1], ms, e);
    }
  }

  /** Two tables of statuses that differ at one invoice at most. */
  ghost predicate SameBut(a: map<string, Status>, b: map<string, Status>, invoice: string) {
    a.Keys == b.Keys && forall i :: i in a && i != invoice ==> a[i] == b[i]
  }

  lemma SetBoth(a: map<string, Status>, b: map<string, Status>, invoice: string, e: Event)
    requires SameBut(a, b, invoice)
    ensures SameBut(SetStatus(a, e), SetStatus(b, e), invoice)
    ensures e.invoice == invoice ==> SameBut(a, SetStatus(b, e), invoice)
    ensures e.invoice == invoice && StatusByEvent(e.kind).Some? ==> SetStatus(a, e) == SetStatus(b, e)
  {
  }

  lemma SetTwice(a: map<string, Status>, e: Event)
    ensures SetStatus(SetStatus(a, e), e) == SetStatus(a, e)
  {
  }

  lemma {:induction false} FoldDrop(initial: map<string, Status>, ws: seq<Event>, e: Event)
    ensures SameBut(FoldStatus(initial, Drop(ws, e)), FoldStatus(initial, ws), e.invoice)
    decreases |ws|
  {
    if ws != [] {
      var init, last := ws[..|ws| - 1], ws[|ws| - 1];
      FoldDrop(initial, init, e);
      SetBoth(FoldStatus(initial, Drop(init, e)), FoldStatus(initial, init), e.invoice, last);
      FoldSnoc(initial, Drop(init, e), last);
      assert Drop(init, e) + [] == Drop(init, e);
    }
  }

  lemma {:induction false} FoldDropSilent(initial: map<string, Status>, ws: seq<Event>, e: Event)
    requires StatusByEvent(e.kind).None?
    ensures FoldStatus(initial, Drop(ws, e)) == FoldStatus(initial, ws)
    decreases |ws|
  {
    if ws != [] {
      var init, last := ws[..|ws| - 1], ws[|ws| - 1];
      FoldDropSilent(initial, init, e);
      FoldSnoc(initial, Drop(init, e), last);
      assert Drop(init, e) + [] == Drop(init, e);
    }
  }

  /** A write of e is the last one of its invoice, and does away with an earlier write of e. */
  lemma Rewrite(initial: map<string, Status>, ws: seq<Event>, e: Event)
    ensures FoldStatus(initial, Drop(ws, e) + [e]) == SetStatus(FoldStatus(initial, ws), e)
  {
    FoldSnoc(initial, Drop(ws, e), e);
    if StatusByEvent(e.kind).None? {
      FoldDropSilent(initial, ws, e);
    } else {
      FoldDrop(initial, ws, e);
      SetBoth(FoldStatus(initial, Drop(ws, e)), FoldStatus(initial, ws), e.invoice, e);
    }
  }

  lemma EmptyConsistent(chain: seq<Event>, initial: map<string, Status>)
    ensures Consistent(NewDisk(initial), chain, initial)
  {
    assert FoldOf(NewDisk(initial), initial, []);
  }

  lemma StoreKeeps(d: Disk, e: Event, chain: seq<Event>, initial: map<string, Status>)
    requires UniqueIds(chain) && e in chain && !e.kind.Untracked? && Consistent(d, chain, initial) && !Applied(d, e)
    ensures Consistent(Perform(d, StoreEvent(e)), chain, initial)
  {
    var ws :| FoldOf(d, initial, ws);
    assert FoldOf(Perform(d, StoreEvent(e)), initial, ws);
  }

  /** What every write for a held event does to the list of writes. */
  lemma MoveKeeps(ws: seq<Event>, ms: seq<Event>, e: Event)
    requires e !in ms && NoDuplicates(ws) && Among(ws, ms) == ms
    ensures NoDuplicates(Drop(ws, e) + [e])
    ensures Among(Drop(ws, e) + [e], ms) == ms
    ensures Among(Drop(ws, e) + [e], ms + [e]) == ms + [e]
  {
    DropHas(ws, e);
    AmongDrop(ws, ms, e);
    AmongSnoc(Drop(ws, e), e, ms);
    AmongMore(Drop(ws, e), ms, e);
    AmongSnoc(Drop(ws, e), e, ms + [e]);
    assert ms + [] == ms;
  }

  lemma UpdateKeepsStatus(d: Disk, e: Event, initial: map<string, Status>)
    requires StatusConsistent(d, initial) && Held(d, e) && d.events[e.id].event == e && e !in d.marked
    ensures StatusConsistent(Perform(d, UpdateInvoice(e)), initial)
  {
    var ws :| FoldOf(d, initial, ws);
    DropHas(ws, e);
    MoveKeeps(ws, d.marked, e);
    Rewrite(initial, ws, e);
    assert FoldOf(Perform(d, UpdateInvoice(e)), initial, Drop(ws, e) + [e]);
  }

  lemma UpdateKeeps(d: Disk, e: Event, chain: seq<Event>, initial: map<string, Status>)
    requires Consistent(d, chain, initial) && UniqueIds(chain) && e in chain && Held(d, e)
    ensures Consistent(Perform(d, UpdateInvoice(e)), chain, initial)
  {
    HeldIsItself(d, e, chain);
    UpdateKeepsStatus(d, e, initial);
  }

  lemma HeldIsItself(d: Disk, e: Event, chain: seq<Event>)
    requires StoreConsistent(d, chain) && UniqueIds(chain) && e in chain && Held(d, e)
    ensures d.events[e.id].event == e && e !in d.marked
  {
    assert d.events[e.id].event in chain;
  }

  lemma MarkKeepsStore(d: Disk, e: Event, chain: seq<Event>)
    requires UniqueIds(chain) && e in chain && Held(d, e) && StoreConsistent(d, chain)
    ensures StoreConsistent(Perform(d, MarkApplied(e)), chain)
    ensures e !in d.hooked
  {
    var m := Perform(d, MarkApplied(e));
    forall x | x in chain
      ensures x in m.marked <==> Applied(m, x)
    {
      assert x.id == e.id ==> x == e;
      assert x in m.marked <==> x in d.marked || x == e;
    }
  }

  lemma MarkKeepsStatus(d: Disk, e: Event, initial: map<string, Status>)
    requires StatusConsistent(d, initial) && Held(d, e) && d.events[e.id].event == e && e !in d.marked
    requires SetStatus(d.invoices, e) == d.invoices
    ensures StatusConsistent(Perform(d, MarkApplied(e)), initial)
  {
    var m := Perform(d, MarkApplied(e));
    var ws :| FoldOf(d, initial, ws);
    DropHas(ws, e);
    MoveKeeps(ws, d.marked, e);
    Rewrite(initial, ws, e);
    forall x | x in Drop(ws, e) + [e] && x !in m.marked
      ensures Held(m, x) && m.events[x.id].event == x
    {
      assert Held(d, x) && d.events[x.id].event == x;
    }
    assert FoldOf(m, initial, Drop(ws, e) + [e]);
  }

  lemma MarkKeeps(d: Disk, e: Event, chain: seq<Event>, initial: map<string, Status>)
    requires UniqueIds(chain) && e in chain && Held(d, e) && Consistent(d, chain, initial)
    requires SetStatus(d.invoices, e) == d.invoices
    ensures Consistent(Perform(d, MarkApplied(e)), chain, initial)
    ensures e !in d.hooked
  {
    HeldIsItself(d, e, chain);
    MarkKeepsStore(d, e, chain);
    MarkKeepsStatus(d, e, initial);
  }

  lemma HookKeeps(d: Disk, e: Event, chain: seq<Event>, initial: map<string, Status>)
    requires Consistent(d, chain, initial) && e in d.marked && e !in d.hooked
    ensures Consistent(Perform(d, RunHook(e)), chain, initial)
  {
    var ws :| FoldOf(d, initial, ws);
    assert FoldOf(Perform(d, RunHook(e)), initial, ws);
  }

  /** All four writes for one event, one after another. */
  lemma WritesKeep(d: Disk, e: Event, chain: seq<Event>, initial: map<string, Status>)
    requires UniqueIds(chain) && e in chain && !e.kind.Untracked? && Consistent(d, chain, initial) && !Applied(d, e)
    ensures var s := Perform(d, StoreEvent(e));
      var u := Perform(s, UpdateInvoice(e));
      var m := Perform(u, MarkApplied(e));
      && Consistent(s, chain, initial) && Consistent(u, chain, initial)
      && Consistent(m, chain, initial) && Consistent(Perform(m, RunHook(e)), chain, initial)
  {
    StoreKeeps(d, e, chain, initial);
    var s := Perform(d, StoreEvent(e));
    UpdateKeeps(s, e, chain, initial);
    var u := Perform(s, UpdateInvoice(e));
    SetTwice(s.invoices, e);
    MarkKeeps(u, e, chain, initial);
    HookKeeps(Perform(u, MarkApplied(e)), e, chain, initial);
  }

  /** However many of the writes for one event get through, the disk stays consistent. */
  lemma RecordKeeps(d: Disk, e: Event, n: nat, chain: seq<Event>, initial: map<string, Status>)
    requires UniqueIds(chain) && e in chain && !e.kind.Untracked? && Consistent(d, chain, initial)
    ensures Consistent(PerformAll(d, Prefix(RecordPlan(d, e), n)), chain, initial)
  {
    RecordCut(d, e, n);
    if !Applied(d, e) && n > 0 {
      WritesKeep(d, e, chain, initial);
    }
  }

  lemma {:induction false} BatchKeeps(d: Disk, es: seq<Event>, n: nat, chain: seq<Event>, initial: map<string, Status>)
    requires UniqueIds(chain) && (forall e :: e in es ==> e in chain) && Consistent(d, chain, initial)
    ensures Consistent(PerformAll(d, Prefix(BatchPlan(d, es), n)), chain, initial)
    decreases |es|
  {
    if es == [] {
    } else if es[0].kind.Untracked? {
      BatchKeeps(d, es[1..], n, chain, initial);
    } else {
      var plan := RecordPlan(d, es[0]);
      var d' := PerformAll(d, plan);
      BatchCut(d, es, n);
      RecordKeeps(d, es[0], n, chain, initial);
      if n >= |plan| {
        assert Prefix(plan, n) == plan;
        BatchKeeps(d', es[1..], n - |plan|, chain, initial);
      }
    }
  }

  lemma PageKeeps(d: Disk, last: nat, page: Page, n: nat, chain: seq<Event>, initial: map<string, Status>)
    requires UniqueIds(chain) && PageFrom(chain, page) && Consistent(d, chain, initial)
    ensures Consistent(PerformAll(d, Prefix(PagePlan(d, last, page), n)), chain, initial)
  {
    var batch := BatchPlan(d, page.events);
    PageCut(d, last, page, n);
    BatchKeeps(d, page.events, n, chain, initial);
    BatchKeeps(d, page.events, |batch|, chain, initial);
    var b := PerformAll(d, batch);
    CursorKeeps(b, [SaveCursor(NextCursor(last, page))], chain, initial);
    UnfoldPerform(b, [SaveCursor(NextCursor(last, page))]);
  }

  /** Gap and cursor writes touch neither events nor invoices. */
  lemma {:induction false} CursorKeeps(d: Disk, ws: seq<Effect>, chain: seq<Event>, initial: map<string, Status>)
    requires Consistent(d, chain, initial) && (forall w :: w in ws ==> w.RecordGap? || w.SaveCursor?)
    ensures Consistent(PerformAll(d, ws), chain, initial)
    decreases |ws|
  {
    if ws != [] {
      assert ws[0] in ws;
      var d' := Perform(d, ws[0]);
      var written :| FoldOf(d, initial, written);
      assert FoldOf(d', initial, written);
      assert StoreConsistent(d', chain);
      CursorKeeps(d', ws[1..], chain, initial);
    }
  }

  lemma RetryKeeps(d: Disk, skip: seq<Effect>, oldest: nat, page: Page, n: nat, chain: seq<Event>,
                   initial: map<string, Status>)
    requires UniqueIds(chain) && PageFrom(chain, page) && Consistent(d, chain, initial)
    requires forall w :: w in skip ==> w.RecordGap? || w.SaveCursor?
    ensures Consistent(PerformAll(d, Prefix(skip + PagePlan(PerformAll(d, skip), oldest, page), n)), chain, initial)
  {
    var passed := PerformAll(d, skip);
    PerformCut(d, skip, PagePlan(passed, oldest, page), n);
    if n < |skip| {
      CursorKeeps(d, Prefix(skip, n), chain, initial);
    } else {
      CursorKeeps(d, skip, chain, initial);
      PageKeeps(passed, oldest, page, n - |skip|, chain, initial);
    }
  }

  lemma PollKeeps(d: Disk, poll: Poll, chain: seq<Event>, initial: map<string, Status>)
    requires UniqueIds(chain) && AnswerFrom(chain, poll.answer) && Consistent(d, chain, initial)
    ensures Consistent(AfterPoll(d, poll), chain, initial)
  {
    match poll.answer
    case Failed =>
    case Served(page) => PageKeeps(d, LastLedger(d.cursor), page, poll.survived, chain, initial);
    case Retention(None, _) =>
    case Retention(Some(oldest), retry) =>
      var skip := SkipPlan(ResumeFrom(d.cursor, poll.initialLedger), LastLedger(d.cursor), oldest);
      CursorKeeps(d, Prefix(skip, poll.survived), chain, initial);
      if retry.Some? {
        RetryKeeps(d, skip, oldest, retry.value, poll.survived, chain, initial);
      }
  }

  /**
   In every run, with the process dying at any write of any poll: a hook has run
   at most once per event and only for applied events, and the statuses are the
   fold, over the initial ones, of the applied events in the order of their marks
   with events in between that are stored but not marked yet.
   */
  lemma {:induction false} RunKeeps(d: Disk, polls: seq<Poll>, chain: seq<Event>, initial: map<string, Status>)
    requires UniqueIds(chain) && Consistent(d, chain, initial)
    requires forall p :: p in polls ==> AnswerFrom(chain, p.answer)
    ensures Consistent(AfterRun(d, polls), chain, initial)
    decreases |polls|
  {
    if polls != [] {
      PollKeeps(d, polls[0], chain, initial);
      RunKeeps(AfterPoll(d, polls[0]), polls[1..], chain, initial);
    }
  }

  // ----- what the statuses are ---------------------------------------------

  /** The last of the events about an invoice that is not its creation. */
  function LastAbout(ws: seq<Event>, invoice: string): Option<Event>
    decreases |ws|
  {
    if ws == [] then None
    else
      var e := ws[|ws| - 1];
      if e.invoice == invoice && !e.kind.InvoiceCreated? && !e.kind.Untracked? then Some(e)
      else LastAbout(ws[..|ws| - 1], invoice)
  }

  /** An invoice has the status the event speaks of, and without one the status it had before. */
  predicate Shows(status: Status, before: Status, last: Option<Event>) {
    match last
    case None => status == before
    case Some(e) =>
      && (status == Paid <==> e.kind.InvoicePaid?)
      && (status == Expired <==> e.kind.InvoiceExpired?)
      && (status == Cancelled <==> e.kind.InvoiceCancelled?)
      && (status == Released <==> e.kind.EscrowReleased?)
  }

  lemma {:induction false} FoldShows(initial: map<string, Status>, ws: seq<Event>)
    ensures FoldStatus(initial, ws).Keys == initial.Keys
    ensures forall i :: i in initial ==> Shows(FoldStatus(initial, ws)[i], initial[i], LastAbout(ws, i))
    decreases |ws|
  {
    if ws != [] {
      FoldShows(initial, ws[..|ws| - 1]);
    }
  }

  /** Every invoice shows the last event that wrote to it, of those in ws. */
  ghost predicate AllShow(d: Disk, initial: map<string, Status>, ws: seq<Event>) {
    d.invoices.Keys == initial.Keys &&
    forall i :: i in initial ==> Shows(d.invoices[i], initial[i], LastAbout(ws, i))
  }

  ghost predicate ShowsWriters(d: Disk, initial: map<string, Status>) {
    exists ws :: WrittenBy(d, ws) && AllShow(d, initial, ws)
  }

  ghost predicate NoneHeld(d: Disk) {
    forall id :: id in d.events ==> d.events[id].applied
  }

  lemma {:induction false} AllAmong(ws: seq<Event>, ms: seq<Event>)
    requires forall e :: e in ws ==> e in ms
    ensures Among(ws, ms) == ws
    decreases |ws|
  {
    if ws != [] {
      var init, last := ws[..|ws| - 1], ws[|ws| - 1];
      assert last in ws && forall e :: e in init ==> e in ws;
      AllAmong(init, ms);
      assert ws == init + [last];
    }
  }

  lemma ConsistentShows(d: Disk, chain: seq<Event>, initial: map<string, Status>)
    requires Consistent(d, chain, initial)
    ensures ShowsWriters(d, initial)
    ensures NoneHeld(d) ==> AllShow(d, initial, d.marked)
  {
    var ws :| FoldOf(d, initial, ws);
    FoldShows(initial, ws);
    assert WrittenBy(d, ws) && AllShow(d, initial, ws);
    if NoneHeld(d) {
      AllAmong(ws, d.marked);
    }
  }

  /**
   After every run from an empty event store, however it was cut: an invoice is Paid, Expired,
   Cancelled or Released exactly if the last event that wrote to it says so, and otherwise as
   it was. The writers are the marked events in the order of their marks, with stored but
   unmarked ones between them, and the marked ones alone if no other is stored.
   */
  lemma RunStatuses(polls: seq<Poll>, chain: seq<Event>, initial: map<string, Status>)
    requires UniqueIds(chain) && forall p :: p in polls ==> AnswerFrom(chain, p.answer)
    ensures var d := AfterRun(NewDisk(initial), polls);
      && ShowsWriters(d, initial)
      && (NoneHeld(d) ==> AllShow(d, initial, d.marked))
  {
    EmptyConsistent(chain, initial);
    RunKeeps(NewDisk(initial), polls, chain, initial);
    ConsistentShows(AfterRun(NewDisk(initial), polls), chain, initial);
  }

  // ----- which hooks never run ---------------------------------------------

  lemma RecordMarks(d: Disk, e: Event, n: nat)
    ensures var plan := RecordPlan(d, e);
      var d' := PerformAll(d, Prefix(plan, n));
      && |d'.marked| - |d'.hooked| ==
           |d.marked| - |d.hooked| + (if n < |plan| && plan[n].RunHook? then 1 else 0)
      && (forall x :: x in d'.hooked ==> x in d.hooked || !Applied(d, x))
      && (forall x :: Applied(d, x) ==> Applied(d', x))
      && d'.cursor == d.cursor && d'.gaps == d.gaps
      && (n >= |plan| ==> Applied(d', e))
  {
    RecordCut(d, e, n);
  }

  /**
   What a cut batch does to marks and hooks: one hook goes missing exactly when
   the process dies between a mark and its hook, nothing applied before is hooked
   again, and the cursor and the gaps stay as they were.
   */
  lemma {:induction false} BatchMarks(d: Disk, es: seq<Event>, n: nat)
    ensures var plan := BatchPlan(d, es);
      var d' := PerformAll(d, Prefix(plan, n));
      && |d'.marked| - |d'.hooked| ==
           |d.marked| - |d.hooked| + (if n < |plan| && plan[n].RunHook? then 1 else 0)
      && (forall x :: x in d'.hooked ==> x in d.hooked || !Applied(d, x))
      && (forall x :: Applied(d, x) ==> Applied(d', x))
      && d'.cursor == d.cursor && d'.gaps == d.gaps
    decreases |es|
  {
    if es == [] {
    } else if es[0].kind.Untracked? {
      BatchMarks(d, es[1..], n);
    } else {
      var plan := RecordPlan(d, es[0]);
      var d' := PerformAll(d, plan);
      BatchCut(d, es, n);
      RecordMarks(d, es[0], n);
      if n >= |plan| {
        assert Prefix(plan, n) == plan;
        BatchMarks(d', es[1..], n - |plan|);
      }
    }
  }

  lemma PageMarks(d: Disk, last: nat, page: Page, n: nat)
    ensures var plan := PagePlan(d, last, page);
      var d' := PerformAll(d, Prefix(plan, n));
      && |d'.marked| - |d'.hooked| ==
           |d.marked| - |d.hooked| + (if n < |plan| && plan[n].RunHook? then 1 else 0)
      && (forall x :: x in d'.hooked ==> x in d.hooked || !Applied(d, x))
      && (forall x :: Applied(d, x) ==> Applied(d', x))
      && d'.gaps == d.gaps
      && d'.cursor == if n >= |plan| then Some(NextCursor(last, page)) else d.cursor
  {
    PageCut(d, last, page, n);
    BatchMarks(d, page.events, n);
    BatchMarks(d, page.events, |BatchPlan(d, page.events)|);
  }

  /** Number of applied events whose hook has not run. */
  function Unhooked(d: Disk): int {
    |d.marked| - |d.hooked|
  }

  /** A poll loses a hook exactly when the process dies right after the mark, with the hook next. */
  lemma PollLosesHook(d: Disk, poll: Poll)
    ensures var plan := PollPlan(d, poll.initialLedger, poll.answer);
      Unhooked(AfterPoll(d, poll)) ==
        Unhooked(d) + (if poll.survived < |plan| && plan[poll.survived].RunHook? then 1 else 0)
    ensures forall x :: x in AfterPoll(d, poll).hooked ==> x in d.hooked || !Applied(d, x)
    ensures forall x :: Applied(d, x) ==> Applied(AfterPoll(d, poll), x)
  {
    match poll.answer
    case Failed =>
    case Served(page) => PageMarks(d, LastLedger(d.cursor), page, poll.survived);
    case Retention(None, _) =>
    case Retention(Some(oldest), retry) =>
      var point := ResumeFrom(d.cursor, poll.initialLedger);
      var skip := SkipPlan(point, LastLedger(d.cursor), oldest);
      SkipCut(d, point, LastLedger(d.cursor), oldest, poll.survived);
      if retry.Some? {
        var d' := PerformAll(d, skip);
        SkipCut(d, point, LastLedger(d.cursor), oldest, |skip|);
        assert Prefix(skip, |skip|) == skip;
        PerformCut(d, skip, PagePlan(d', oldest, retry.value), poll.survived);
        if poll.survived >= |skip| {
          assert Prefix(skip, poll.survived) == skip;
          PageMarks(d', oldest, retry.value, poll.survived - |skip|);
        }
      }
  }

  /** A hook skipped by a crash after the mark is skipped for ever: no later run fires it. */
  lemma {:induction false} SkippedHookNeverRuns(d: Disk, polls: seq<Poll>, e: Event)
    requires Applied(d, e) && e !in d.hooked
    ensures e !in AfterRun(d, polls).hooked
    decreases |polls|
  {
    if polls != [] {
      PollLosesHook(d, polls[0]);
      SkippedHookNeverRuns(AfterPoll(d, polls[0]), polls[1..], e);
    }
  }

  /**
   The third write of a poll is the mark: a process that dies after it leaves an applied event
   whose hook never runs, although the code's comment promises that a replay fires it.
   */
  lemma MarkedWithoutHook(invoices: map<string, Status>, e: Event, polls: seq<Poll>)
    requires StatusByEvent(e.kind).Some?
    ensures
      var poll := Poll(e.ledger, Served(Page([e], None, None, e.ledger)), 3);
      var d := AfterPoll(NewDisk(invoices), poll);
      Applied(d, e) && e !in AfterRun(d, polls).hooked
  {
    var page := Page([e], None, None, e.ledger);
    var d := AfterPoll(NewDisk(invoices), Poll(e.ledger, Served(page), 3));
    PageCut(NewDisk(invoices), 0, page, 3);
    BatchCut(NewDisk(invoices), [e], 3);
    RecordCut(NewDisk(invoices), e, 3);
    SkippedHookNeverRuns(d, polls, e);
  }
}
