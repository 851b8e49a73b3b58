/**
 No event is silently lost by the invoice indexer: before the resume point, every
 tracked event is applied or lies in a recorded gap.
 */
module InvoiceCoverage {
  import opened Common
  import opened InvoiceIndexer
  import opened InvoiceStatuses

  /** The contract's events in the order of the ledger; ledgers are numbered from 1. */
  ghost predicate InLedgerOrder(chain: seq<Event>) {
    && (forall i :: 0 <= i < |chain| ==> chain[i].ledger > 0)
    && (forall i, j :: 0 <= i < j < |chain| ==> chain[i].ledger <= chain[j].ledger)
  }

  /** Number of events before ledger n, looking at the first m events. */
  function CountBefore(chain: seq<Event>, n: nat, m: nat): (k: nat)
    requires m <= |chain|
    ensures k <= m
    ensures forall i :: k <= i < m ==> chain[i].ledger >= n
    ensures k > 0 ==> chain[k - 1].ledger < n
  {
    if m == 0 || chain[m - 1].ledger < n then m else CountBefore(chain, n, m - 1)
  }

  /** Number of events before ledger n. */
  function FirstAt(chain: seq<Event>, n: nat): (k: nat)
    ensures k <= |chain|
    ensures forall i :: k <= i < |chain| ==> chain[i].ledger >= n
    ensures k > 0 ==> chain[k - 1].ledger < n
  {
    CountBefore(chain, n, |chain|)
  }

  function StartIndex(chain: seq<Event>, point: ResumePoint): nat {
    match point
    case AtToken(t) => t.after
    case AtLedger(n) => FirstAt(chain, n)
  }

  /** A node that resumes at `point` leaves out no event at or after the ledger a gap would start at. */
  ghost predicate Covers(chain: seq<Event>, point: ResumePoint, last: nat) {
    && StartIndex(chain, point) <= |chain|
    && forall k :: StartIndex(chain, point) <= k < |chain| ==> chain[k].ledger >= GapStart(point, last)
  }

  /**
   A page served from position s: the next events in order, at most 100. Tokens
   are honest about what they cover. An empty page was scanned up to its cursor,
   or up to the latest ledger when it has none, and the latest ledger of the node
   does not fall back behind the last one saved.
   */
  ghost predicate PageAt(chain: seq<Event>, s: nat, last: nat, page: Page) {
    && s + |page.events| <= |chain|
    && page.events == chain[s..s + |page.events|]
    && |page.events| <= EVENT_LIMIT
    && page.latest > 0
    && page.latest >= last
    && var next := NextCursor(last, page);
      match next.token
      case Some(t) => t.after == s + |page.events| && Covers(chain, AtToken(t), next.lastLedger)
      case None => page.events == [] ==> forall k :: s <= k < |chain| ==> chain[k].ledger >= page.latest
  }

  const EVENT_LIMIT := 100

  ghost predicate AnswerAt(chain: seq<Event>, d: Disk, poll: Poll) {
    var start := StartIndex(chain, ResumeFrom(d.cursor, poll.initialLedger));
    match poll.answer
    case Failed => true
    case Served(page) => PageAt(chain, start, LastLedger(d.cursor), page)
    case Retention(oldest, retry) =>
      && (oldest.Some? ==> oldest.value > 0)
      && (oldest.Some? && retry.Some? ==> PageAt(chain, FirstAt(chain, oldest.value), oldest.value, retry.value))
  }

  ghost predicate HonestRun(chain: seq<Event>, d: Disk, polls: seq<Poll>)
    decreases |polls|
  {
    polls == [] || (AnswerAt(chain, d, polls[0]) && HonestRun(chain, AfterPoll(d, polls[0]), polls[1..]))
  }

  ghost predicate InGap(d: Disk, ledger: nat) {
    exists g :: g in d.gaps && g.first <= ledger <= g.last
  }

  /** Every tracked event from `origin` up to the resume point is applied or lies in a recorded gap. */
  ghost predicate NothingLost(d: Disk, chain: seq<Event>, origin: nat) {
    Resumable(d.cursor) ==>
      && Covers(chain, ResumeFrom(d.cursor, 0), LastLedger(d.cursor))
      && forall k :: origin <= k < |chain| && k < StartIndex(chain, ResumeFrom(d.cursor, 0)) ==>
           chain[k].kind.Untracked? || Applied(d, chain[k]) || InGap(d, chain[k].ledger)
  }

  /** Where responsibility starts: the start of the poll that saves the first cursor. */
  function OriginAfter(chain: seq<Event>, d: Disk, origin: nat, poll: Poll): nat {
    if Resumable(d.cursor) then origin else FirstAt(chain, poll.initialLedger)
  }

  function OriginAfterRun(chain: seq<Event>, d: Disk, origin: nat, polls: seq<Poll>): nat
    decreases |polls|
  {
    if polls == [] then origin
    else OriginAfterRun(chain, AfterPoll(d, polls[0]), OriginAfter(chain, d, origin, polls[0]), polls[1..])
  }

  lemma {:induction false} BatchApplies(d: Disk, es: seq<Event>)
    ensures forall e :: e in es && !e.kind.Untracked? ==> Applied(PerformAll(d, BatchPlan(d, es)), e)
    decreases |es|
  {
    if es == [] {
    } else if es[0].kind.Untracked? {
      BatchApplies(d, es[1..]);
    } else {
      var plan := RecordPlan(d, es[0]);
      var after := PerformAll(d, plan);
      var rest := BatchPlan(after, es[1..]);
      PerformConcat(d, plan, rest);
      RecordMarks(d, es[0], |plan|);
      assert Prefix(plan, |plan|) == plan;
      BatchApplies(after, es[1..]);
      BatchMarks(after, es[1..], |rest|);
      assert Prefix(rest, |rest|) == rest;
    }
  }

  lemma FirstAtBound(chain: seq<Event>, n: nat, k: nat)
    requires InLedgerOrder(chain) && k <= |chain| && (k < |chain| ==> chain[k].ledger >= n)
    ensures FirstAt(chain, n) <= k
  {
  }

  /** The next poll resumes at the end of the page or falls back to the start of a ledger. */
  lemma NextStartsInPage(chain: seq<Event>, s: nat, last: nat, page: Page)
    requires InLedgerOrder(chain) && PageAt(chain, s, last, page)
    ensures var next := Some(NextCursor(last, page));
      var q := s + |page.events|;
      var r := StartIndex(chain, ResumeFrom(next, 0));
      && Resumable(next)
      && Covers(chain, ResumeFrom(next, 0), LastLedger(next))
      && r <= q
      && (page.events != [] ==> LastLedger(next) == chain[q - 1].ledger)
      && (page.events == [] ==> LastLedger(next) == page.latest)
      && (r != q ==> r == FirstAt(chain, LastLedger(next)))
  {
    var next := NextCursor(last, page);
    var q := s + |page.events|;
    if page.events != [] {
      assert chain[q - 1] == page.events[|page.events| - 1];
      FirstAtBound(chain, next.lastLedger, q - 1);
    } else if next.token.None? {
      FirstAtBound(chain, next.lastLedger, s);
    }
  }

  /** A cut page either leaves the cursor alone or has applied all its events. */
  lemma PageLosesNothing(d: Disk, s: nat, last: nat, page: Page, n: nat, chain: seq<Event>, origin: nat)
    requires InLedgerOrder(chain) && PageAt(chain, s, last, page)
    requires NothingLost(d, chain, origin)
    requires forall k :: origin <= k < |chain| && k < s && !chain[k].kind.Untracked? ==>
      Applied(d, chain[k]) || InGap(d, chain[k].ledger)
    ensures var after := PerformAll(d, Prefix(PagePlan(d, last, page), n));
      NothingLost(after, chain, origin) && (Resumable(d.cursor) ==> Resumable(after.cursor))
  {
    var plan := PagePlan(d, last, page);
    var after := PerformAll(d, Prefix(plan, n));
    PageMarks(d, last, page, n);
    if n >= |plan| {
      PageCut(d, last, page, n);
      BatchApplies(d, page.events);
      var q := s + |page.events|;
      forall k | s <= k < q && !chain[k].kind.Untracked?
        ensures Applied(after, chain[k])
      {
        assert chain[k] == page.events[k - s];
        assert chain[k] in page.events;
      }
      var next := NextCursor(last, page);
      NextStartsInPage(chain, s, last, page);
    }
  }

  /** Recording the gap before moving the cursor keeps every skipped event accounted for. */
  lemma SkipLosesNothing(d: Disk, point: ResumePoint, oldest: nat, n: nat, chain: seq<Event>, origin: nat)
    requires InLedgerOrder(chain) && NothingLost(d, chain, origin) && oldest > 0
    requires Covers(chain, point, LastLedger(d.cursor))
    requires forall k :: origin <= k < |chain| && k < StartIndex(chain, point) && !chain[k].kind.Untracked? ==>
      Applied(d, chain[k]) || InGap(d, chain[k].ledger)
    ensures var after := PerformAll(d, Prefix(SkipPlan(point, LastLedger(d.cursor), oldest), n));
      && NothingLost(after, chain, origin)
      && (Resumable(d.cursor) ==> Resumable(after.cursor))
      && (n >= 2 ==> forall k :: origin <= k < |chain| && k < FirstAt(chain, oldest) && !chain[k].kind.Untracked? ==>
             Applied(after, chain[k]) || InGap(after, chain[k].ledger))
  {
    var last := LastLedger(d.cursor);
    var after := PerformAll(d, Prefix(SkipPlan(point, last, oldest), n));
    SkipCut(d, point, last, oldest, n);
    var g := Gap(GapStart(point, last), oldest - 1);
    forall k | origin <= k < |chain| && !chain[k].kind.Untracked? && (Applied(d, chain[k]) || InGap(d, chain[k].ledger))
      ensures Applied(after, chain[k]) || InGap(after, chain[k].ledger)
    {
      if InGap(d, chain[k].ledger) {
        var h :| h in d.gaps && h.first <= chain[k].ledger <= h.last;
        assert h in after.gaps;
      }
    }
    if n >= 2 {
      assert g in after.gaps;
    }
  }

  /** A skip and a second fetch, cut in the skip or after it. */
  lemma RetryCut(d: Disk, skip: seq<Effect>, after: Disk, oldest: nat, page: Page, n: nat)
    requires after == PerformAll(d, skip)
    ensures n < |skip| ==>
      PerformAll(d, Prefix(skip + PagePlan(after, oldest, page), n)) == PerformAll(d, Prefix(skip, n))
    ensures n >= |skip| ==>
      PerformAll(d, Prefix(skip + PagePlan(after, oldest, page), n)) ==
      PerformAll(after, Prefix(PagePlan(after, oldest, page), n - |skip|))
    ensures PerformAll(d, Prefix(skip, |skip|)) == after
  {
    PerformCut(d, skip, PagePlan(after, oldest, page), n);
    assert Prefix(skip, |skip|) == skip;
  }

  /** A skip followed by a second fetch. */
  lemma RetryLosesNothing(d: Disk, point: ResumePoint, oldest: nat, page: Page, n: nat, chain: seq<Event>, origin: nat)
    requires InLedgerOrder(chain) && NothingLost(d, chain, origin) && oldest > 0
    requires Covers(chain, point, LastLedger(d.cursor)) && PageAt(chain, FirstAt(chain, oldest), oldest, page)
    requires forall k :: origin <= k < |chain| && k < StartIndex(chain, point) && !chain[k].kind.Untracked? ==>
      Applied(d, chain[k]) || InGap(d, chain[k].ledger)
    ensures var skip := SkipPlan(point, LastLedger(d.cursor), oldest);
      var after := PerformAll(d, Prefix(skip + PagePlan(PerformAll(d, skip), oldest, page), n));
      NothingLost(after, chain, origin) && (Resumable(d.cursor) ==> Resumable(after.cursor))
  {
    var skip := SkipPlan(point, LastLedger(d.cursor), oldest);
    RetryCut(d, skip, PerformAll(d, skip), oldest, page, n);
    if n < |skip| {
      SkipLosesNothing(d, point, oldest, n, chain, origin);
    } else {
      ThenLosesNothing(d, point, oldest, page, n - |skip|, chain, origin);
    }
  }

  lemma ThenLosesNothing(d: Disk, point: ResumePoint, oldest: nat, page: Page, n: nat, chain: seq<Event>, origin: nat)
    requires InLedgerOrder(chain) && NothingLost(d, chain, origin) && oldest > 0
    requires Covers(chain, point, LastLedger(d.cursor)) && PageAt(chain, FirstAt(chain, oldest), oldest, page)
    requires forall k :: origin <= k < |chain| && k < StartIndex(chain, point) && !chain[k].kind.Untracked? ==>
      Applied(d, chain[k]) || InGap(d, chain[k].ledger)
    ensures var passed := PerformAll(d, SkipPlan(point, LastLedger(d.cursor), oldest));
      var after := PerformAll(passed, Prefix(PagePlan(passed, oldest, page), n));
      NothingLost(after, chain, origin) && (Resumable(d.cursor) ==> Resumable(after.cursor))
  {
    var skip := SkipPlan(point, LastLedger(d.cursor), oldest);
    assert Prefix(skip, |skip|) == skip;
    SkipLosesNothing(d, point, oldest, |skip|, chain, origin);
    PageLosesNothing(PerformAll(d, skip), FirstAt(chain, oldest), oldest, page, n, chain, origin);
  }

  lemma PollLosesNothing(d: Disk, poll: Poll, chain: seq<Event>, origin: nat)
    requires InLedgerOrder(chain) && AnswerAt(chain, d, poll) && NothingLost(d, chain, origin)
    ensures NothingLost(AfterPoll(d, poll), chain, OriginAfter(chain, d, origin, poll))
    ensures Resumable(d.cursor) ==> Resumable(AfterPoll(d, poll).cursor)
  {
    var point := ResumeFrom(d.cursor, poll.initialLedger);
    var newOrigin := OriginAfter(chain, d, origin, poll);
    assert Covers(chain, point, LastLedger(d.cursor));
    match poll.answer
    case Failed =>
    case Served(page) =>
      PageLosesNothing(d, StartIndex(chain, point), LastLedger(d.cursor), page, poll.survived, chain, newOrigin);
    case Retention(None, _) =>
    case Retention(Some(oldest), None) =>
      SkipLosesNothing(d, point, oldest, poll.survived, chain, newOrigin);
    case Retention(Some(oldest), Some(page)) =>
      RetryLosesNothing(d, point, oldest, page, poll.survived, chain, newOrigin);
  }

  /**
   No event is silently lost, for every honest node and every pattern of crashes,
   missing tokens, rescans, empty pages and retention skips.
   */
  lemma {:induction false} RunLosesNothing(d: Disk, polls: seq<Poll>, chain: seq<Event>, origin: nat)
    requires InLedgerOrder(chain) && HonestRun(chain, d, polls) && NothingLost(d, chain, origin)
    ensures NothingLost(AfterRun(d, polls), chain, OriginAfterRun(chain, d, origin, polls))
    ensures Resumable(d.cursor) ==>
      Resumable(AfterRun(d, polls).cursor) && OriginAfterRun(chain, d, origin, polls) == origin
    decreases |polls|
  {
    if polls != [] {
      PollLosesNothing(d, polls[0], chain, origin);
      RunLosesNothing(AfterPoll(d, polls[0]), polls[1..], chain, OriginAfter(chain, d, origin, polls[0]));
    }
  }

  /** With a configured start ledger, nothing from that ledger on is lost, cursor or no cursor. */
  lemma {:induction false} ConfiguredStartLosesNothing(d: Disk, polls: seq<Poll>, chain: seq<Event>, start: nat)
    requires InLedgerOrder(chain) && HonestRun(chain, d, polls) && NothingLost(d, chain, FirstAt(chain, start))
    requires forall p :: p in polls ==> p.initialLedger == start
    ensures NothingLost(AfterRun(d, polls), chain, FirstAt(chain, start))
    decreases |polls|
  {
    if polls != [] {
      PollLosesNothing(d, polls[0], chain, FirstAt(chain, start));
      assert polls[0] in polls;
      ConfiguredStartLosesNothing(AfterPoll(d, polls[0]), polls[1..], chain, start);
    }
  }

  // ----- what an honest page is --------------------------------------------

  /**
   A token's id has its ledger in the bits above the low 32. It does not go past the ledger of
   an event that the node still has to deliver.
   */
  ghost predicate TokenFits(chain: seq<Event>, t: Token, last: nat) {
    && t.after <= |chain|
    && forall k :: t.after <= k < |chain| ==>
         if t.toid.Some? then t.toid.value < (chain[k].ledger + 1) * 0x1_0000_0000 else chain[k].ledger >= last
  }

  lemma TokenFitsExact(chain: seq<Event>, t: Token, last: nat)
    ensures Covers(chain, AtToken(t), last) <==> TokenFits(chain, t, last)
  {
    forall k | t.after <= k < |chain|
      ensures t.toid.Some? ==>
        (t.toid.value < (chain[k].ledger + 1) * 0x1_0000_0000 <==> t.toid.value / 0x1_0000_0000 <= chain[k].ledger)
    {
    }
  }

  /**
   The next events of the chain, at most a hundred. The token of the last one stands just after
   it; without events the page's own cursor stands where it was, or all that is left is from the
   latest ledger on.
   */
  ghost predicate HonestPage(chain: seq<Event>, s: nat, last: nat, page: Page) {
    var q := s + |page.events|;
    && q <= |chain| && page.events == chain[s..q] && |page.events| <= 100
    && page.latest > 0 && page.latest >= last
    && if page.events != [] then
         page.lastToken.Some? ==>
           page.lastToken.value.after == q && TokenFits(chain, page.lastToken.value, chain[q - 1].ledger)
       else if page.cursor.Some? then
         page.cursor.value.after == s && TokenFits(chain, page.cursor.value, page.latest)
       else forall k :: s <= k < |chain| ==> chain[k].ledger >= page.latest
  }

  /** The assumption about the node, and what the indexer makes of a page, put in those words. */
  lemma HonestPageExact(chain: seq<Event>, s: nat, last: nat, page: Page)
    ensures PageAt(chain, s, last, page) <==> HonestPage(chain, s, last, page)
  {
    if page.events != [] && page.lastToken.Some? && s + |page.events| <= |chain| {
      TokenFitsExact(chain, page.lastToken.value, chain[s + |page.events| - 1].ledger);
    } else if page.events == [] && page.cursor.Some? {
      TokenFitsExact(chain, page.cursor.value, page.latest);
    }
  }

  /** A node whose tokens are the ids of its events, which grow and begin with their ledgers, is such a node. */
  lemma EventIdsFit(chain: seq<Event>, ids: seq<nat>, t: Token, last: nat)
    requires |ids| == |chain| && forall k :: 0 <= k < |ids| ==> ids[k] / 0x1_0000_0000 == chain[k].ledger
    requires forall i, j :: 0 <= i < j < |ids| ==> ids[i] < ids[j]
    requires 0 < t.after <= |chain| && t.toid == Some(ids[t.after - 1])
    ensures TokenFits(chain, t, last)
  {
  }
}
