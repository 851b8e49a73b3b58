/**
 The invoice indexer applies events in ledger order, and at most one event is half
 done.
 */
module InvoiceOrder {
  import opened Common
  import opened InvoiceIndexer
  import opened InvoiceStatuses
  import opened InvoiceCoverage

  /** ms lists some of the events of chain, in the order of chain. */
  ghost predicate Subsequence(ms: seq<Event>, chain: seq<Event>)
    decreases |ms|
  {
    ms == [] || exists k :: 0 <= k < |chain| && chain[k] == ms[|ms| - 1] && Subsequence(ms[..|ms| - 1], chain[..k])
  }

  lemma SubsequenceWiden(ms: seq<Event>, chain: seq<Event>, j: nat, newJ: nat)
    requires j <= newJ <= |chain| && Subsequence(ms, chain[..j])
    ensures Subsequence(ms, chain[..newJ])
  {
    if ms != [] {
      var k :| 0 <= k < |chain[..j]| && chain[..j][k] == ms[|ms| - 1] && Subsequence(ms[..|ms| - 1], chain[..j][..k]);
      assert chain[..newJ][..k] == chain[..j][..k];
      assert chain[..newJ][k] == ms[|ms| - 1];
    }
  }

  lemma SubsequenceExtend(ms: seq<Event>, chain: seq<Event>, j: nat)
    requires j < |chain| && Subsequence(ms, chain[..j])
    ensures Subsequence(ms + [chain[j]], chain[..j + 1])
  {
    var longer := ms + [chain[j]];
    assert longer[..|longer| - 1] == ms;
    assert chain[..j + 1][..j] == chain[..j];
    assert chain[..j + 1][j] == longer[|longer| - 1];
  }

  /** Of the events at or after `limit`, at most one is stored without being applied. */
  ghost predicate OneHeld(d: Disk, chain: seq<Event>, limit: nat) {
    forall k, l :: limit <= k < |chain| && limit <= l < |chain| && Held(d, chain[k]) && Held(d, chain[l]) ==> k == l
  }

  ghost predicate NothingBeyond(d: Disk, chain: seq<Event>, j: nat) {
    && (forall k :: j < k < |chain| ==> chain[k].id !in d.events)
    && (j < |chain| ==> !Applied(d, chain[j]))
  }

  /** `j` is how far processing has come without leaving out an event of ledger `base` or a later one. */
  ghost predicate Frontier(d: Disk, chain: seq<Event>, base: nat, j: nat) {
    && FirstAt(chain, base) <= j <= |chain|
    && (forall k :: FirstAt(chain, base) <= k < j && !chain[k].kind.Untracked? ==> Applied(d, chain[k]))
    && NothingBeyond(d, chain, j)
    && Subsequence(d.marked, chain[..j])
  }

  lemma FrontierOneHeld(d: Disk, chain: seq<Event>, base: nat, j: nat)
    requires StoreConsistent(d, chain) && UniqueIds(chain) && Frontier(d, chain, base, j)
    ensures OneHeld(d, chain, FirstAt(chain, base))
  {
    forall k | FirstAt(chain, base) <= k < |chain| && Held(d, chain[k])
      ensures k == j
    {
      assert d.events[chain[k].id].event == chain[k];
    }
  }

  lemma FirstAtGrows(chain: seq<Event>, a: nat, b: nat)
    requires InLedgerOrder(chain) && a <= b
    ensures FirstAt(chain, a) <= FirstAt(chain, b)
  {
    var k := FirstAt(chain, b);
    if k < |chain| {
      FirstAtBound(chain, a, k);
    }
  }

  /** Skipping ahead: everything from the new base on that lies before j is applied already. */
  lemma FrontierSkip(d: Disk, chain: seq<Event>, base: nat, j: nat, ledger: nat)
    requires InLedgerOrder(chain) && Frontier(d, chain, base, j) && base <= ledger
    ensures Frontier(d, chain, ledger, Max(j, FirstAt(chain, ledger)))
  {
    FirstAtGrows(chain, base, ledger);
    SubsequenceWiden(d.marked, chain, j, Max(j, FirstAt(chain, ledger)));
  }

  /** The writes for the event at the frontier; the frontier moves once the event is marked. */
  lemma RecordFrontier(d: Disk, n: nat, chain: seq<Event>, base: nat, j: nat)
    requires UniqueIds(chain) && Frontier(d, chain, base, j)
    requires j < |chain|
    ensures var after := PerformAll(d, Prefix(RecordPlan(d, chain[j]), n));
      Frontier(after, chain, base, if Applied(after, chain[j]) then j + 1 else j)
  {
    var e := chain[j];
    var after := PerformAll(d, Prefix(RecordPlan(d, e), n));
    RecordCut(d, e, n);
    RecordMarks(d, e, n);
    var newJ := if Applied(after, e) then j + 1 else j;
    assert NothingBeyond(after, chain, newJ) by {
      forall k | j < k < |chain|
        ensures chain[k].id !in after.events
      {
        assert chain[k].id != e.id;
      }
    }
    if Applied(after, e) {
      SubsequenceExtend(d.marked, chain, j);
    }
  }

  ghost predicate SliceAt(chain: seq<Event>, i: nat, es: seq<Event>) {
    && i + |es| <= |chain|
    && forall k :: 0 <= k < |es| ==> es[k] == chain[i + k]
  }

  /** Processing from the frontier on. */
  lemma {:induction false} FreshFrontier(d: Disk, es: seq<Event>, n: nat, chain: seq<Event>, base: nat, j: nat)
    returns (newJ: nat)
    requires UniqueIds(chain) && InLedgerOrder(chain) && Frontier(d, chain, base, j)
    requires SliceAt(chain, j, es)
    ensures var plan := BatchPlan(d, es);
      Frontier(PerformAll(d, Prefix(plan, n)), chain, base, newJ) && newJ >= j && (n >= |plan| ==> newJ >= j + |es|)
    decreases |es|
  {
    if es == [] {
      newJ := j;
    } else if es[0].kind.Untracked? {
      assert es[0] == chain[j];
      UntrackedFrontier(d, chain, base, j);
      newJ := FreshFrontier(d, es[1..], n, chain, base, j + 1);
    } else {
      assert es[0] == chain[j];
      var after, m, whole;
      after, m, newJ, whole := HeadFrontier(d, es, n, chain, base, j);
      if whole {
        newJ := FreshFrontier(after, es[1..], m, chain, base, j + 1);
      }
    }
  }

  /** The first event of a batch: all its writes get through and m are left, or the process dies in them. */
  lemma HeadFrontier(d: Disk, es: seq<Event>, n: nat, chain: seq<Event>, base: nat, j: nat)
    returns (after: Disk, m: nat, newJ: nat, whole: bool)
    requires UniqueIds(chain) && Frontier(d, chain, base, j)
    requires es != [] && j < |chain| && es[0] == chain[j] && !es[0].kind.Untracked?
    ensures PerformAll(d, Prefix(BatchPlan(d, es), n)) ==
            if whole then PerformAll(after, Prefix(BatchPlan(after, es[1..]), m)) else after
    ensures Frontier(after, chain, base, newJ) && newJ >= j && (whole ==> newJ == j + 1)
    ensures n >= |BatchPlan(d, es)| ==> whole && m >= |BatchPlan(after, es[1..])|
  {
    var plan := RecordPlan(d, es[0]);
    after := PerformAll(d, Prefix(plan, n));
    whole := n >= |plan|;
    m := if whole then n - |plan| else 0;
    BatchCut(d, es, n);
    RecordFrontier(d, n, chain, base, j);
    RecordMarks(d, es[0], n);
    newJ := if Applied(after, es[0]) then j + 1 else j;
    assert whole ==> Prefix(plan, n) == plan;
  }

  lemma UntrackedFrontier(d: Disk, chain: seq<Event>, base: nat, j: nat)
    requires Frontier(d, chain, base, j) && j < |chain| && chain[j].kind.Untracked?
    ensures Frontier(d, chain, base, j + 1)
  {
    SubsequenceWiden(d.marked, chain, j, j + 1);
  }

  /** An event applied before costs one write that changes nothing. */
  lemma ReplayedEvent(d: Disk, es: seq<Event>, n: nat)
    requires es != [] && !es[0].kind.Untracked? && Applied(d, es[0])
    ensures |BatchPlan(d, es)| == 1 + |BatchPlan(d, es[1..])|
    ensures PerformAll(d, Prefix(BatchPlan(d, es), n)) ==
            PerformAll(d, Prefix(BatchPlan(d, es[1..]), if n == 0 then 0 else n - 1))
  {
    BatchCut(d, es, n);
    RecordCut(d, es[0], n);
    RecordCut(d, es[0], 1);
  }

  /** A batch served from i: what lies before the frontier is skipped, the rest is processed. */
  lemma {:induction false} BatchFrontier(d: Disk, es: seq<Event>, i: nat, n: nat, chain: seq<Event>, base: nat,
                                         j: nat)
    returns (newJ: nat)
    requires UniqueIds(chain) && InLedgerOrder(chain) && Frontier(d, chain, base, j)
    requires FirstAt(chain, base) <= i <= j && SliceAt(chain, i, es)
    ensures var plan := BatchPlan(d, es);
      Frontier(PerformAll(d, Prefix(plan, n)), chain, base, newJ) && newJ >= j && (n >= |plan| ==> newJ >= i + |es|)
    decreases |es|
  {
    if i == j {
      newJ := FreshFrontier(d, es, n, chain, base, j);
    } else if es == [] {
      newJ := j;
    } else {
      SliceNext(chain, i, es);
      if es[0].kind.Untracked? {
        newJ := BatchFrontier(d, es[1..], i + 1, n, chain, base, j);
      } else {
        BeforeFrontier(d, chain, base, j, i);
        ReplayedEvent(d, es, n);
        newJ := BatchFrontier(d, es[1..], i + 1, if n == 0 then 0 else n - 1, chain, base, j);
      }
    }
  }

  lemma SliceNext(chain: seq<Event>, i: nat, es: seq<Event>)
    requires SliceAt(chain, i, es) && es != []
    ensures i < |chain| && es[0] == chain[i] && SliceAt(chain, i + 1, es[1..])
  {
  }

  lemma BeforeFrontier(d: Disk, chain: seq<Event>, base: nat, j: nat, i: nat)
    requires InLedgerOrder(chain) && Frontier(d, chain, base, j) && FirstAt(chain, base) <= i < j
    requires !chain[i].kind.Untracked?
    ensures Applied(d, chain[i])
  {
  }

  /** The frontier, with the position the next poll resumes from between its base and its end. */
  ghost predicate Ready(d: Disk, chain: seq<Event>, base: nat, j: nat) {
    && Frontier(d, chain, base, j)
    && (Resumable(d.cursor) ==>
          base <= LastLedger(d.cursor) && FirstAt(chain, base) <= StartIndex(chain, ResumeFrom(d.cursor, 0)) <= j)
  }

  /** A saved cursor may fall back to the start of a ledger at or after base. */
  lemma FrontierResume(d: Disk, c: Cursor, chain: seq<Event>, base: nat, j: nat, q: nat)
    requires InLedgerOrder(chain) && Frontier(d, chain, base, j)
    requires FirstAt(chain, base) <= q <= j && base <= c.lastLedger && Resumable(Some(c))
    requires
      var r := StartIndex(chain, ResumeFrom(Some(c), 0));
      r == q || (r <= q && r == FirstAt(chain, c.lastLedger))
    ensures Ready(Perform(d, SaveCursor(c)), chain, base, j)
  {
    FirstAtGrows(chain, base, c.lastLedger);
  }

  lemma SavedFrontier(d: Disk, s: nat, last: nat, page: Page, chain: seq<Event>, base: nat, j: nat)
    requires InLedgerOrder(chain) && PageAt(chain, s, last, page) && s + |page.events| <= j
    requires Frontier(d, chain, base, j) && FirstAt(chain, base) <= s && base <= page.latest
    ensures var after := Perform(d, SaveCursor(NextCursor(last, page)));
      Ready(after, chain, base, j) && Resumable(after.cursor)
  {
    NextStartsInPage(chain, s, last, page);
    FrontierResume(d, NextCursor(last, page), chain, base, j, s + |page.events|);
  }

  lemma PageFrontier(d: Disk, s: nat, last: nat, page: Page, n: nat, chain: seq<Event>, base: nat, j: nat)
    returns (newJ: nat)
    requires UniqueIds(chain) && InLedgerOrder(chain) && PageAt(chain, s, last, page)
    requires Ready(d, chain, base, j) && FirstAt(chain, base) <= s <= j && base <= page.latest
    ensures Ready(PerformAll(d, Prefix(PagePlan(d, last, page), n)), chain, base, newJ)
  {
    var batch := BatchPlan(d, page.events);
    PageCut(d, last, page, n);
    if n <= |batch| {
      newJ := BatchFrontier(d, page.events, s, n, chain, base, j);
      BatchMarks(d, page.events, n);
    } else {
      newJ := BatchFrontier(d, page.events, s, |batch|, chain, base, j);
      SavedFrontier(PerformAll(d, batch), s, last, page, chain, base, newJ);
    }
  }

  /**
   What the order rests on. The first polls, which have no cursor, do not start further
   and further back, nor after the node's latest ledger. A retention error may lead back, as it
   does when a node lags behind the cursor, but not behind `base`, the last ledger that
   processing has jumped to.
   */
  ghost predicate Onward(d: Disk, base: nat, poll: Poll) {
    && (!Resumable(d.cursor) ==> base <= poll.initialLedger)
    && match poll.answer
      case Failed => true
      case Served(page) => !Resumable(d.cursor) ==> poll.initialLedger <= page.latest
      case Retention(oldest, _) => oldest.Some? ==> base <= oldest.value
  }

  /** A saved cursor may be led back; then nothing is jumped over. */
  function JumpBase(chain: seq<Event>, d: Disk, base: nat, oldest: nat): nat {
    if Resumable(d.cursor) && FirstAt(chain, oldest) <= StartIndex(chain, ResumeFrom(d.cursor, 0)) then base
    else oldest
  }

  /** A poll jumps when it starts without a cursor, and when a retention error leads ahead. */
  function BaseAfter(chain: seq<Event>, d: Disk, base: nat, poll: Poll): nat {
    if poll.answer.Retention? && poll.answer.oldest.Some? && poll.survived >= 2 then
      var oldest := poll.answer.oldest.value;
      JumpBase(chain, d, base, oldest)
    else if Resumable(d.cursor) then base
    else poll.initialLedger
  }

  /** Without a cursor a poll starts at a ledger of its own. */
  lemma PollStart(d: Disk, poll: Poll, chain: seq<Event>, base: nat, j: nat) returns (newBase: nat, newJ: nat)
    requires InLedgerOrder(chain) && Onward(d, base, poll) && Ready(d, chain, base, j)
    ensures newBase == if Resumable(d.cursor) then base else poll.initialLedger
    ensures Ready(d, chain, newBase, newJ)
    ensures FirstAt(chain, newBase) <= StartIndex(chain, ResumeFrom(d.cursor, poll.initialLedger)) <= newJ
  {
    newBase, newJ := base, j;
    if !Resumable(d.cursor) {
      newBase := poll.initialLedger;
      newJ := Max(j, FirstAt(chain, newBase));
      FrontierSkip(d, chain, base, j, newBase);
    }
  }

  /** A skip that gets through; leading back it jumps over nothing. */
  lemma SkippedFrontier(d: Disk, point: ResumePoint, oldest: nat, chain: seq<Event>, base: nat, j: nat)
    returns (newJ: nat)
    requires InLedgerOrder(chain) && Ready(d, chain, base, j) && 0 < oldest && base <= oldest
    ensures
      var after := PerformAll(d, SkipPlan(point, LastLedger(d.cursor), oldest));
      && Ready(after, chain, JumpBase(chain, d, base, oldest), newJ)
      && Resumable(after.cursor) && ResumeFrom(after.cursor, 0) == AtLedger(oldest)
  {
    var skip := SkipPlan(point, LastLedger(d.cursor), oldest);
    SkipCut(d, point, LastLedger(d.cursor), oldest, 2);
    assert Prefix(skip, 2) == skip;
    FirstAtGrows(chain, base, oldest);
    newJ := Max(j, FirstAt(chain, oldest));
    FrontierSkip(d, chain, base, j, oldest);
  }

  /** A skip cut before its cursor is saved. */
  lemma CutSkipFrontier(d: Disk, point: ResumePoint, oldest: nat, n: nat, chain: seq<Event>, base: nat, j: nat)
    requires Ready(d, chain, base, j) && n < 2
    ensures Ready(PerformAll(d, Prefix(SkipPlan(point, LastLedger(d.cursor), oldest), n)), chain, base, j)
  {
    SkipCut(d, point, LastLedger(d.cursor), oldest, n);
  }

  /** The page fetched after a skip. */
  lemma SecondPage(d: Disk, oldest: nat, page: Page, n: nat, chain: seq<Event>, base: nat, j: nat)
    returns (newJ: nat)
    requires UniqueIds(chain) && InLedgerOrder(chain) && PageAt(chain, FirstAt(chain, oldest), oldest, page)
    requires Ready(d, chain, base, j) && base <= oldest
    requires Resumable(d.cursor) && ResumeFrom(d.cursor, 0) == AtLedger(oldest)
    ensures Ready(PerformAll(d, Prefix(PagePlan(d, oldest, page), n)), chain, base, newJ)
  {
    newJ := PageFrontier(d, FirstAt(chain, oldest), oldest, page, n, chain, base, j);
  }

  /** A retention error whose skip is cut: the gap may be recorded, and nothing else. */
  lemma CutRetention(d: Disk, poll: Poll, chain: seq<Event>, base: nat, j: nat)
    requires Ready(d, chain, base, j) && poll.answer.Retention? && poll.answer.oldest.Some? && poll.survived < 2
    ensures Ready(AfterPoll(d, poll), chain, base, j)
  {
    var oldest := poll.answer.oldest.value;
    RetentionCut(d, poll.initialLedger, oldest, poll.answer.retry, poll.survived);
    CutSkipFrontier(d, ResumeFrom(d.cursor, poll.initialLedger), oldest, poll.survived, chain, base, j);
  }

  lemma SkipThenPage(
      d: Disk, point: ResumePoint, oldest: nat, page: Page, n: nat, chain: seq<Event>, base: nat, j: nat)
    returns (newJ: nat)
    requires UniqueIds(chain) && InLedgerOrder(chain) && Ready(d, chain, base, j) && 0 < oldest && base <= oldest
    requires PageAt(chain, FirstAt(chain, oldest), oldest, page)
    ensures
      var passed := PerformAll(d, SkipPlan(point, LastLedger(d.cursor), oldest));
      Ready(
        PerformAll(passed, Prefix(PagePlan(passed, oldest, page), n)), chain, JumpBase(chain, d, base, oldest), newJ)
  {
    var passed := PerformAll(d, SkipPlan(point, LastLedger(d.cursor), oldest));
    newJ := SkippedFrontier(d, point, oldest, chain, base, j);
    newJ := SecondPage(passed, oldest, page, n, chain, JumpBase(chain, d, base, oldest), newJ);
  }

  lemma ThroughRetention(d: Disk, poll: Poll, chain: seq<Event>, base: nat, j: nat) returns (newJ: nat)
    requires UniqueIds(chain) && InLedgerOrder(chain) && Ready(d, chain, base, j) && poll.survived >= 2
    requires poll.answer.Retention? && poll.answer.oldest.Some?
    requires 0 < poll.answer.oldest.value && base <= poll.answer.oldest.value
    requires
      var oldest, retry := poll.answer.oldest.value, poll.answer.retry;
      retry.Some? ==> PageAt(chain, FirstAt(chain, oldest), oldest, retry.value)
    ensures Ready(AfterPoll(d, poll), chain, JumpBase(chain, d, base, poll.answer.oldest.value), newJ)
  {
    ThroughCut(d, poll);
    newJ := SkipThenMaybePage(d, ResumeFrom(d.cursor, poll.initialLedger), poll.answer.oldest.value, poll.answer.retry,
                              poll.survived - 2, chain, base, j);
  }

  lemma SkipThenMaybePage(
      d: Disk, point: ResumePoint, oldest: nat, retry: Option<Page>, n: nat, chain: seq<Event>, base: nat, j: nat)
    returns (newJ: nat)
    requires UniqueIds(chain) && InLedgerOrder(chain) && Ready(d, chain, base, j) && 0 < oldest && base <= oldest
    requires retry.Some? ==> PageAt(chain, FirstAt(chain, oldest), oldest, retry.value)
    ensures
      var passed := PerformAll(d, SkipPlan(point, LastLedger(d.cursor), oldest));
      var end := if retry.None? then passed else PerformAll(passed, Prefix(PagePlan(passed, oldest, retry.value), n));
      Ready(end, chain, JumpBase(chain, d, base, oldest), newJ)
  {
    if retry.Some? {
      newJ := SkipThenPage(d, point, oldest, retry.value, n, chain, base, j);
    } else {
      newJ := SkippedFrontier(d, point, oldest, chain, base, j);
    }
  }

  /** What is left when a skip gets through. */
  lemma ThroughCut(d: Disk, poll: Poll)
    requires poll.answer.Retention? && poll.answer.oldest.Some? && poll.survived >= 2
    ensures
      var oldest, retry := poll.answer.oldest.value, poll.answer.retry;
      var passed := PerformAll(d, SkipPlan(ResumeFrom(d.cursor, poll.initialLedger), LastLedger(d.cursor), oldest));
      AfterPoll(d, poll) ==
      if retry.None? then passed
      else PerformAll(passed, Prefix(PagePlan(passed, oldest, retry.value), poll.survived - 2))
  {
    RetentionCut(d, poll.initialLedger, poll.answer.oldest.value, poll.answer.retry, poll.survived);
  }

  lemma PollFrontier(d: Disk, poll: Poll, chain: seq<Event>, base: nat, j: nat) returns (newJ: nat)
    requires UniqueIds(chain) && InLedgerOrder(chain) && AnswerAt(chain, d, poll) && Onward(d, base, poll)
    requires Ready(d, chain, base, j)
    ensures Ready(AfterPoll(d, poll), chain, BaseAfter(chain, d, base, poll), newJ)
  {
    if poll.answer.Retention? && poll.answer.oldest.Some? && poll.survived >= 2 {
      newJ := ThroughRetention(d, poll, chain, base, j);
    } else {
      var newBase;
      newBase, newJ := PollStart(d, poll, chain, base, j);
      if poll.answer.Retention? && poll.answer.oldest.Some? {
        CutRetention(d, poll, chain, newBase, newJ);
      } else if poll.answer.Served? {
        var s := StartIndex(chain, ResumeFrom(d.cursor, poll.initialLedger));
        newJ := PageFrontier(
          d, s, LastLedger(d.cursor), poll.answer.page, poll.survived, chain, newBase, newJ);
      }
    }
  }

  ghost predicate OnwardRun(chain: seq<Event>, d: Disk, base: nat, polls: seq<Poll>)
    decreases |polls|
  {
    polls == [] || (Onward(d, base, polls[0])
                    && OnwardRun(chain, AfterPoll(d, polls[0]), BaseAfter(chain, d, base, polls[0]), polls[1..]))
  }

  function BaseAfterRun(chain: seq<Event>, d: Disk, base: nat, polls: seq<Poll>): nat
    decreases |polls|
  {
    if polls == [] then base
    else BaseAfterRun(chain, AfterPoll(d, polls[0]), BaseAfter(chain, d, base, polls[0]), polls[1..])
  }

  lemma {:induction false} RunReady(
      d: Disk, polls: seq<Poll>, chain: seq<Event>, initial: map<string, Status>, base: nat, j: nat)
    returns (newJ: nat)
    requires UniqueIds(chain) && InLedgerOrder(chain)
    requires HonestRun(chain, d, polls) && OnwardRun(chain, d, base, polls)
    requires Consistent(d, chain, initial) && Ready(d, chain, base, j)
    ensures Consistent(AfterRun(d, polls), chain, initial)
    ensures Ready(AfterRun(d, polls), chain, BaseAfterRun(chain, d, base, polls), newJ)
    decreases |polls|
  {
    newJ := j;
    if polls != [] {
      newJ := PollFrontier(d, polls[0], chain, base, j);
      HonestAnswerFrom(chain, d, polls[0]);
      PollKeeps(d, polls[0], chain, initial);
      newJ := RunReady(AfterPoll(d, polls[0]), polls[1..], chain, initial, BaseAfter(chain, d, base, polls[0]), newJ);
    }
  }

  /** Order, and at most one held event from the last jump on, which the next poll does not start before. */
  lemma RunFrontier(d: Disk, polls: seq<Poll>, chain: seq<Event>, initial: map<string, Status>, base: nat, j: nat)
    requires UniqueIds(chain) && InLedgerOrder(chain)
    requires HonestRun(chain, d, polls) && OnwardRun(chain, d, base, polls)
    requires Consistent(d, chain, initial) && Ready(d, chain, base, j)
    ensures
      var end, limit := AfterRun(d, polls), FirstAt(chain, BaseAfterRun(chain, d, base, polls));
      && Subsequence(end.marked, chain) && OneHeld(end, chain, limit)
      && (Resumable(end.cursor) ==> limit <= StartIndex(chain, ResumeFrom(end.cursor, 0)))
  {
    var newJ := RunReady(d, polls, chain, initial, base, j);
    var end := AfterRun(d, polls);
    FrontierOneHeld(end, chain, BaseAfterRun(chain, d, base, polls), newJ);
    SubsequenceWiden(end.marked, chain, newJ, |chain|);
    assert chain[..|chain|] == chain;
  }

  lemma HonestAnswerFrom(chain: seq<Event>, d: Disk, poll: Poll)
    requires AnswerAt(chain, d, poll)
    ensures AnswerFrom(chain, poll.answer)
  {
    var start := StartIndex(chain, ResumeFrom(d.cursor, poll.initialLedger));
    match poll.answer
    case Failed =>
    case Served(page) => PageAtFrom(chain, start, LastLedger(d.cursor), page);
    case Retention(oldest, retry) =>
      if oldest.Some? && retry.Some? {
        PageAtFrom(chain, FirstAt(chain, oldest.value), oldest.value, retry.value);
      }
  }

  lemma PageAtFrom(chain: seq<Event>, s: nat, last: nat, page: Page)
    requires PageAt(chain, s, last, page)
    ensures PageFrom(chain, page)
  {
  }

  // ----- how many events the statuses are ahead ----------------------------

  /** With at most one other event, a list is at most one longer than its part in ms. */
  lemma {:induction false} OneOther(ws: seq<Event>, ms: seq<Event>)
    requires NoDuplicates(ws)
    requires forall x, y :: x in ws && y in ws && x !in ms && y !in ms ==> x == y
    ensures |ws| <= |Among(ws, ms)| + 1
    ensures (forall x :: x in ws ==> x in ms) ==> |ws| == |Among(ws, ms)|
    decreases |ws|
  {
    if ws != [] {
      var init, last := ws[..|ws| - 1], ws[|ws| - 1];
      assert ws == init + [last] && last in ws;
      OneOther(init, ms);
      assert last !in init;
    }
  }

  /** The statuses are those of the applied events and at most one other. */
  ghost predicate AtMostOneAhead(d: Disk, initial: map<string, Status>) {
    exists ws :: FoldOf(d, initial, ws) && |ws| <= |d.marked| + 1
  }

  ghost predicate HeldFrom(d: Disk, chain: seq<Event>, limit: nat) {
    forall k :: 0 <= k < |chain| && Held(d, chain[k]) ==> limit <= k
  }

  lemma OneHeldOneAhead(d: Disk, chain: seq<Event>, initial: map<string, Status>, limit: nat)
    requires Consistent(d, chain, initial) && OneHeld(d, chain, limit) && HeldFrom(d, chain, limit)
    ensures AtMostOneAhead(d, initial)
  {
    var ws :| FoldOf(d, initial, ws);
    forall x, y | x in ws && y in ws && x !in d.marked && y !in d.marked
      ensures x == y
    {
      assert x in chain && y in chain;
      var k :| 0 <= k < |chain| && chain[k] == x;
      var l :| 0 <= l < |chain| && chain[l] == y;
    }
    OneOther(ws, d.marked);
  }

  /** No event that is stored but not applied lies before the origin or in a recorded gap. */
  ghost predicate NoneHeldBehind(d: Disk, chain: seq<Event>, origin: nat) {
    forall k :: 0 <= k < |chain| && Held(d, chain[k]) ==> k >= origin && !InGap(d, chain[k].ledger)
  }

  lemma HeldAfterResume(d: Disk, chain: seq<Event>, origin: nat)
    requires StoreConsistent(d, chain) && UniqueIds(chain) && NothingLost(d, chain, origin)
    requires NoneHeldBehind(d, chain, origin)
    requires Resumable(d.cursor)
    ensures HeldFrom(d, chain, StartIndex(chain, ResumeFrom(d.cursor, 0)))
  {
    forall k | 0 <= k < |chain| && Held(d, chain[k])
      ensures k >= StartIndex(chain, ResumeFrom(d.cursor, 0))
    {
      HeldTracked(d, chain, k);
    }
  }

  lemma HeldTracked(d: Disk, chain: seq<Event>, k: nat)
    requires StoreConsistent(d, chain) && UniqueIds(chain) && k < |chain| && Held(d, chain[k])
    ensures !chain[k].kind.Untracked?
  {
    assert d.events[chain[k].id].event == chain[k];
  }

  lemma PageKeepsResumable(d: Disk, s: nat, last: nat, page: Page, n: nat, chain: seq<Event>)
    requires InLedgerOrder(chain) && PageAt(chain, s, last, page) && Resumable(d.cursor)
    ensures Resumable(PerformAll(d, Prefix(PagePlan(d, last, page), n)).cursor)
  {
    PageMarks(d, last, page, n);
    NextStartsInPage(chain, s, last, page);
  }

  lemma SkipMakesResumable(d: Disk, point: ResumePoint, last: nat, oldest: nat)
    requires 0 < oldest
    ensures Resumable(PerformAll(d, SkipPlan(point, last, oldest)).cursor)
  {
    var skip := SkipPlan(point, last, oldest);
    assert Prefix(skip, 2) == skip;
    SkipCut(d, point, last, oldest, 2);
  }

  /** Once a skip has gone through, the cursor says where to go on. */
  lemma SkipSavesCursor(d: Disk, poll: Poll, chain: seq<Event>)
    requires InLedgerOrder(chain) && AnswerAt(chain, d, poll)
    requires poll.answer.Retention? && poll.answer.oldest.Some? && poll.survived >= 2
    ensures Resumable(AfterPoll(d, poll).cursor)
  {
    var oldest, retry := poll.answer.oldest.value, poll.answer.retry;
    var skip := SkipPlan(ResumeFrom(d.cursor, poll.initialLedger), LastLedger(d.cursor), oldest);
    RetentionCut(d, poll.initialLedger, oldest, retry, poll.survived);
    SkipMakesResumable(d, ResumeFrom(d.cursor, poll.initialLedger), LastLedger(d.cursor), oldest);
    if retry.Some? {
      PageKeepsResumable(
        PerformAll(d, skip), FirstAt(chain, oldest), oldest, retry.value, poll.survived - 2, chain);
    }
  }

  /** Before the first saved cursor, the last start is where responsibility begins. */
  lemma {:induction false} OriginIsLimit(d: Disk, polls: seq<Poll>, chain: seq<Event>, origin: nat, base: nat)
    requires InLedgerOrder(chain) && HonestRun(chain, d, polls) && NothingLost(d, chain, origin)
    requires !Resumable(d.cursor) ==> origin == FirstAt(chain, base)
    ensures !Resumable(AfterRun(d, polls).cursor) ==>
      OriginAfterRun(chain, d, origin, polls) == FirstAt(chain, BaseAfterRun(chain, d, base, polls))
    decreases |polls|
  {
    if polls != [] {
      PollLosesNothing(d, polls[0], chain, origin);
      if polls[0].answer.Retention? && polls[0].answer.oldest.Some? && polls[0].survived >= 2 {
        SkipSavesCursor(d, polls[0], chain);
      }
      OriginIsLimit(AfterPoll(d, polls[0]), polls[1..], chain, OriginAfter(chain, d, origin, polls[0]),
                    BaseAfter(chain, d, base, polls[0]));
    }
  }

  /**
   From an empty event store, with an honest node and crashes anywhere, as long as the node
   leads no poll behind the last jump: events are applied in ledger order, each hook runs at
   most once, the statuses are the fold of the applied events with held ones between them,
   at most one event from the last jump on is held, and no tracked event between the origin
   and the resume point is lost. If no event is held before the origin or in a recorded gap,
   the fold takes at most one event more than the applied ones.
   */
  lemma FreshRun(invoices: map<string, Status>, polls: seq<Poll>, chain: seq<Event>)
    requires UniqueIds(chain) && InLedgerOrder(chain)
    requires HonestRun(chain, NewDisk(invoices), polls) && OnwardRun(chain, NewDisk(invoices), 0, polls)
    ensures var d := AfterRun(NewDisk(invoices), polls);
      var limit := FirstAt(chain, BaseAfterRun(chain, NewDisk(invoices), 0, polls));
      var origin := OriginAfterRun(chain, NewDisk(invoices), 0, polls);
      && Subsequence(d.marked, chain)
      && NoDuplicates(d.hooked) && (forall e :: e in d.hooked ==> e in d.marked)
      && StatusConsistent(d, invoices)
      && OneHeld(d, chain, limit) && (Resumable(d.cursor) ==> limit <= StartIndex(chain, ResumeFrom(d.cursor, 0)))
      && NothingLost(d, chain, origin)
      && (NoneHeldBehind(d, chain, origin) ==> AtMostOneAhead(d, invoices))
  {
    NewDiskReady(invoices, chain);
    RunOrder(NewDisk(invoices), polls, chain, invoices);
  }

  lemma NewDiskReady(invoices: map<string, Status>, chain: seq<Event>)
    ensures var d := NewDisk(invoices);
      Consistent(d, chain, invoices) && Ready(d, chain, 0, 0) && NothingLost(d, chain, 0)
  {
    EmptyConsistent(chain, invoices);
  }

  lemma RunOrder(start: Disk, polls: seq<Poll>, chain: seq<Event>, invoices: map<string, Status>)
    requires UniqueIds(chain) && InLedgerOrder(chain)
    requires HonestRun(chain, start, polls) && OnwardRun(chain, start, 0, polls)
    requires Consistent(start, chain, invoices) && Ready(start, chain, 0, 0) && NothingLost(start, chain, 0)
    ensures var d := AfterRun(start, polls);
      var limit := FirstAt(chain, BaseAfterRun(chain, start, 0, polls));
      var origin := OriginAfterRun(chain, start, 0, polls);
      && Consistent(d, chain, invoices) && Subsequence(d.marked, chain)
      && OneHeld(d, chain, limit) && (Resumable(d.cursor) ==> limit <= StartIndex(chain, ResumeFrom(d.cursor, 0)))
      && NothingLost(d, chain, origin)
      && (NoneHeldBehind(d, chain, origin) ==> AtMostOneAhead(d, invoices))
  {
    RunFrontier(start, polls, chain, invoices, 0, 0);
    RunLosesNothing(start, polls, chain, 0);
    HonestRunFrom(chain, start, polls);
    RunKeeps(start, polls, chain, invoices);
    OriginIsLimit(start, polls, chain, 0, 0);
    var origin := OriginAfterRun(chain, start, 0, polls);
    if NoneHeldBehind(AfterRun(start, polls), chain, origin) {
      BehindOrAhead(AfterRun(start, polls), chain, invoices, origin,
                    FirstAt(chain, BaseAfterRun(chain, start, 0, polls)));
    }
  }

  lemma BehindOrAhead(d: Disk, chain: seq<Event>, initial: map<string, Status>, origin: nat, limit: nat)
    requires Consistent(d, chain, initial) && UniqueIds(chain) && NothingLost(d, chain, origin)
    requires OneHeld(d, chain, limit) && NoneHeldBehind(d, chain, origin)
    requires if Resumable(d.cursor) then limit <= StartIndex(chain, ResumeFrom(d.cursor, 0)) else limit == origin
    ensures AtMostOneAhead(d, initial)
  {
    if Resumable(d.cursor) {
      HeldAfterResume(d, chain, origin);
    }
    OneHeldOneAhead(d, chain, initial, limit);
  }

  lemma {:induction false} HonestRunFrom(chain: seq<Event>, d: Disk, polls: seq<Poll>)
    requires HonestRun(chain, d, polls)
    ensures forall p :: p in polls ==> AnswerFrom(chain, p.answer)
    decreases |polls|
  {
    if polls != [] {
      HonestAnswerFrom(chain, d, polls[0]);
      HonestRunFrom(chain, AfterPoll(d, polls[0]), polls[1..]);
      assert forall p :: p in polls ==> p == polls[0] || p in polls[1..];
    }
  }

  // ----- a configured start ------------------------------------------------

  ghost predicate StoredFrom(d: Disk, chain: seq<Event>, m: nat) {
    forall k :: 0 <= k < m && k < |chain| ==> chain[k].id !in d.events
  }

  /** A batch stores no event but its own. */
  lemma {:induction false} BatchStores(d: Disk, es: seq<Event>, n: nat, id: string)
    requires id in PerformAll(d, Prefix(BatchPlan(d, es), n)).events
    ensures id in d.events || exists e :: e in es && e.id == id
    decreases |es|
  {
    if es == [] {
    } else if es[0].kind.Untracked? {
      BatchStores(d, es[1..], n, id);
    } else {
      var plan := RecordPlan(d, es[0]);
      BatchCut(d, es, n);
      RecordStores(d, es[0], n);
      RecordStores(d, es[0], |plan|);
      assert es[0] in es;
      if n >= |plan| {
        var after := PerformAll(d, plan);
        assert Prefix(plan, |plan|) == plan;
        BatchStores(after, es[1..], n - |plan|, id);
      }
    }
  }

  lemma RecordStores(d: Disk, e: Event, n: nat)
    ensures forall id :: id in PerformAll(d, Prefix(RecordPlan(d, e), n)).events ==> id in d.events || id == e.id
  {
    RecordCut(d, e, n);
  }

  lemma PageStartsAt(chain: seq<Event>, s: nat, last: nat, page: Page, k: nat)
    requires UniqueIds(chain) && PageAt(chain, s, last, page) && k < s
    ensures forall e :: e in page.events ==> e.id != chain[k].id
  {
    forall e | e in page.events
      ensures e.id != chain[k].id
    {
      var i :| 0 <= i < |page.events| && page.events[i] == e;
      assert e == chain[s + i];
    }
  }

  lemma PageStoresFrom(d: Disk, s: nat, last: nat, page: Page, n: nat, chain: seq<Event>, m: nat)
    requires UniqueIds(chain) && PageAt(chain, s, last, page) && m <= s && StoredFrom(d, chain, m)
    ensures StoredFrom(PerformAll(d, Prefix(PagePlan(d, last, page), n)), chain, m)
  {
    PageCut(d, last, page, n);
    var batch := BatchPlan(d, page.events);
    var kept := if n <= |batch| then n else |batch|;
    forall k | 0 <= k < m && k < |chain|
      ensures chain[k].id !in PerformAll(d, Prefix(batch, kept)).events
    {
      PageStartsAt(chain, s, last, page, k);
      if chain[k].id in PerformAll(d, Prefix(batch, kept)).events {
        BatchStores(d, page.events, kept, chain[k].id);
      }
    }
  }

  lemma GapsStay(d: Disk, poll: Poll)
    ensures d.gaps <= AfterPoll(d, poll).gaps
    ensures poll.answer.Retention? && poll.answer.oldest.Some? && poll.survived > 0 ==> AfterPoll(d, poll).gaps != {}
  {
    match poll.answer
    case Failed =>
    case Served(page) => PageMarks(d, LastLedger(d.cursor), page, poll.survived);
    case Retention(None, _) =>
    case Retention(Some(oldest), retry) =>
      var point := ResumeFrom(d.cursor, poll.initialLedger);
      var gap := Gap(GapStart(point, LastLedger(d.cursor)), oldest - 1);
      RetentionCut(d, poll.initialLedger, oldest, retry, poll.survived);
      SkipCut(d, point, LastLedger(d.cursor), oldest, poll.survived);
      SkipCut(d, point, LastLedger(d.cursor), oldest, 2);
      var skip := SkipPlan(point, LastLedger(d.cursor), oldest);
      assert Prefix(skip, 2) == skip;
      if poll.survived >= 2 && retry.Some? {
        PageMarks(PerformAll(d, skip), oldest, retry.value, poll.survived - 2);
      }
      assert poll.survived > 0 ==> gap in AfterPoll(d, poll).gaps;
  }

  lemma {:induction false} RunGapsStay(d: Disk, polls: seq<Poll>)
    ensures d.gaps <= AfterRun(d, polls).gaps
    decreases |polls|
  {
    if polls != [] {
      GapsStay(d, polls[0]);
      RunGapsStay(AfterPoll(d, polls[0]), polls[1..]);
    }
  }

  /** A poll that records no gap stores only what is served to it. */
  lemma PollStoresFrom(d: Disk, poll: Poll, chain: seq<Event>, m: nat)
    requires UniqueIds(chain) && AnswerAt(chain, d, poll) && StoredFrom(d, chain, m)
    requires m <= StartIndex(chain, ResumeFrom(d.cursor, poll.initialLedger)) && AfterPoll(d, poll).gaps == {}
    ensures StoredFrom(AfterPoll(d, poll), chain, m)
  {
    GapsStay(d, poll);
    if poll.answer.Served? {
      var s := StartIndex(chain, ResumeFrom(d.cursor, poll.initialLedger));
      PageStoresFrom(d, s, LastLedger(d.cursor), poll.answer.page, poll.survived, chain, m);
    } else if poll.answer.Retention? && poll.answer.oldest.Some? {
      RetentionCut(d, poll.initialLedger, poll.answer.oldest.value, poll.answer.retry, poll.survived);
    }
  }

  lemma {:induction false} RunStoresFrom(
      d: Disk, polls: seq<Poll>, chain: seq<Event>, base: nat, j: nat, start: nat)
    requires UniqueIds(chain) && InLedgerOrder(chain) && Ready(d, chain, base, j)
    requires HonestRun(chain, d, polls) && OnwardRun(chain, d, base, polls) && AfterRun(d, polls).gaps == {}
    requires forall p :: p in polls ==> p.initialLedger == start
    requires StoredFrom(d, chain, FirstAt(chain, start)) && (Resumable(d.cursor) ==> base == start)
    ensures StoredFrom(AfterRun(d, polls), chain, FirstAt(chain, start))
    decreases |polls|
  {
    if polls != [] {
      var after := AfterPoll(d, polls[0]);
      assert polls[0] in polls;
      GapsStay(d, polls[0]);
      RunGapsStay(after, polls[1..]);
      var newJ := PollFrontier(d, polls[0], chain, base, j);
      PollStoresFrom(d, polls[0], chain, FirstAt(chain, start));
      RunStoresFrom(after, polls[1..], chain, BaseAfter(chain, d, base, polls[0]), newJ, start);
    }
  }

  /** With a configured start and no gaps, at most one event has written without being applied. */
  lemma ConfiguredRun(invoices: map<string, Status>, polls: seq<Poll>, chain: seq<Event>, start: nat)
    requires UniqueIds(chain) && InLedgerOrder(chain)
    requires HonestRun(chain, NewDisk(invoices), polls) && OnwardRun(chain, NewDisk(invoices), 0, polls)
    requires (forall p :: p in polls ==> p.initialLedger == start) && AfterRun(NewDisk(invoices), polls).gaps == {}
    ensures AtMostOneAhead(AfterRun(NewDisk(invoices), polls), invoices)
  {
    NewDiskReady(invoices, chain);
    ConfiguredFrom(NewDisk(invoices), polls, chain, invoices, start);
  }

  lemma ConfiguredFrom(
      d: Disk, polls: seq<Poll>, chain: seq<Event>, invoices: map<string, Status>, start: nat)
    requires UniqueIds(chain) && InLedgerOrder(chain)
    requires HonestRun(chain, d, polls) && OnwardRun(chain, d, 0, polls)
    requires Consistent(d, chain, invoices) && Ready(d, chain, 0, 0) && NothingLost(d, chain, 0)
    requires !Resumable(d.cursor) && d.events == map[]
    requires (forall p :: p in polls ==> p.initialLedger == start) && AfterRun(d, polls).gaps == {}
    ensures AtMostOneAhead(AfterRun(d, polls), invoices)
  {
    RunOrder(d, polls, chain, invoices);
    if polls != [] {
      ConfiguredOrigin(d, polls, chain, 0, start);
      RunStoresFrom(d, polls, chain, 0, 0, start);
    }
  }

  lemma {:induction false} ConfiguredOrigin(d: Disk, polls: seq<Poll>, chain: seq<Event>, origin: nat, start: nat)
    requires InLedgerOrder(chain) && (Resumable(d.cursor) ==> origin == FirstAt(chain, start))
    requires forall p :: p in polls ==> p.initialLedger == start
    requires polls == [] ==> origin == FirstAt(chain, start)
    ensures OriginAfterRun(chain, d, origin, polls) == FirstAt(chain, start)
    decreases |polls|
  {
    if polls != [] {
      assert polls[0] in polls;
      ConfiguredOrigin(AfterPoll(d, polls[0]), polls[1..], chain, OriginAfter(chain, d, origin, polls[0]), start);
    }
  }

  // ----- a skip over a held event, and a node that leads back --------------

  /** A page of one event, cut after the event was stored and its status written. */
  lemma CutAfterStatus(d: Disk, e: Event, last: nat, latest: nat)
    requires StatusByEvent(e.kind).Some? && e.id !in d.events
    ensures
      PerformAll(d, Prefix(PagePlan(d, last, Page([e], None, None, latest)), 2)) ==
      d.(events := d.events[e.id := StoredEvent(e, false)], invoices := SetStatus(d.invoices, e))
  {
    PageCut(d, last, Page([e], None, None, latest), 2);
    BatchCut(d, [e], 2);
    RecordCut(d, e, 2);
  }

  /** What a skip leaves that gets through. */
  function Passed(d: Disk, first: nat, oldest: nat): Disk {
    d.(gaps := d.gaps + {Gap(first, oldest - 1)}, cursor := Some(Cursor(None, oldest)))
  }

  lemma SkipGetsThrough(d: Disk, initialLedger: nat, first: nat, oldest: nat, page: Page, n: nat)
    requires ResumeFrom(d.cursor, initialLedger) == AtLedger(first) && n >= 2
    ensures
      AfterPoll(d, Poll(initialLedger, Retention(Some(oldest), Some(page)), n)) ==
      PerformAll(Passed(d, first, oldest), Prefix(PagePlan(Passed(d, first, oldest), oldest, page), n - 2))
  {
    var skip := SkipPlan(AtLedger(first), LastLedger(d.cursor), oldest);
    RetentionCut(d, initialLedger, oldest, Some(page), n);
    SkipCut(d, AtLedger(first), LastLedger(d.cursor), oldest, 2);
    assert Prefix(skip, 2) == skip;
    assert PerformAll(d, skip) == Passed(d, first, oldest);
  }

  function SkippedRun(e: Event, f: Event): seq<Poll> {
    [Poll(e.ledger, Served(Page([e], None, None, f.ledger)), 2),
     Poll(e.ledger, Retention(Some(f.ledger), Some(Page([f], None, None, f.ledger))), 4)]
  }

  predicate TwoEvents(e: Event, f: Event) {
    && e.id != f.id && 0 < e.ledger < f.ledger
    && StatusByEvent(e.kind).Some? && StatusByEvent(f.kind).Some?
  }

  lemma TwoEventChain(e: Event, f: Event)
    requires TwoEvents(e, f)
    ensures UniqueIds([e, f]) && InLedgerOrder([e, f])
    ensures FirstAt([e, f], e.ledger) == 0 && FirstAt([e, f], f.ledger) == 1
  {
    var chain := [e, f];
    FirstAtBound(chain, e.ledger, 0);
    FirstAtBound(chain, f.ledger, 1);
    assert chain[0].ledger < f.ledger;
  }

  /** What the first of the two polls leaves. */
  function HeldFirst(invoices: map<string, Status>, e: Event): Disk {
    NewDisk(invoices).(events := map[e.id := StoredEvent(e, false)], invoices := SetStatus(invoices, e))
  }

  /** What the second leaves. */
  function HeldBoth(invoices: map<string, Status>, e: Event, f: Event): Disk {
    HeldFirst(invoices, e).(
      events := map[e.id := StoredEvent(e, false), f.id := StoredEvent(f, false)],
      invoices := SetStatus(SetStatus(invoices, e), f),
      gaps := {Gap(e.ledger, f.ledger - 1)}, cursor := Some(Cursor(None, f.ledger)))
  }

  lemma FirstHeld(invoices: map<string, Status>, e: Event, f: Event)
    requires TwoEvents(e, f)
    ensures AfterPoll(NewDisk(invoices), SkippedRun(e, f)[0]) == HeldFirst(invoices, e)
  {
    CutAfterStatus(NewDisk(invoices), e, 0, f.ledger);
  }

  lemma SecondHeld(invoices: map<string, Status>, e: Event, f: Event)
    requires TwoEvents(e, f)
    ensures AfterPoll(HeldFirst(invoices, e), SkippedRun(e, f)[1]) == HeldBoth(invoices, e, f)
  {
    var d := HeldFirst(invoices, e);
    SkipGetsThrough(d, e.ledger, e.ledger, f.ledger, Page([f], None, None, f.ledger), 4);
    CutAfterStatus(Passed(d, e.ledger, f.ledger), f, f.ledger, f.ledger);
  }

  lemma RunOfTwo(d: Disk, a: Poll, b: Poll)
    ensures AfterRun(d, [a, b]) == AfterPoll(AfterPoll(d, a), b)
  {
    assert [a, b][1..] == [b] && [b][1..] == [];
    assert AfterRun(AfterPoll(d, a), [b]) == AfterRun(AfterPoll(AfterPoll(d, a), b), []);
  }

  /** A run of two polls meets its assumptions if each poll does in its turn. */
  lemma RunOfTwoHonest(chain: seq<Event>, d: Disk, base: nat, a: Poll, b: Poll)
    ensures
      AnswerAt(chain, d, a) && AnswerAt(chain, AfterPoll(d, a), b) ==> HonestRun(chain, d, [a, b])
    ensures
      Onward(d, base, a) && Onward(AfterPoll(d, a), BaseAfter(chain, d, base, a), b) ==>
      OnwardRun(chain, d, base, [a, b])
  {
    assert [a, b][1..] == [b] && [b][1..] == [];
    assert HonestRun(chain, AfterPoll(AfterPoll(d, a), b), []);
    assert OnwardRun(
      chain, AfterPoll(AfterPoll(d, a), b), BaseAfter(chain, AfterPoll(d, a), BaseAfter(chain, d, base, a), b), []);
  }

  lemma OnePageAt(chain: seq<Event>, s: nat, last: nat, latest: nat)
    requires s < |chain| && InLedgerOrder(chain) && 0 < latest && last <= latest
    ensures PageAt(chain, s, last, Page([chain[s]], None, None, latest))
  {
    assert chain[s..s + 1] == [chain[s]];
  }

  lemma FoldShort(invoices: map<string, Status>, ws: seq<Event>)
    ensures ws == [] ==> FoldStatus(invoices, ws) == invoices
    ensures |ws| == 1 ==> FoldStatus(invoices, ws) == SetStatus(invoices, ws[0])
  {
    if |ws| == 1 {
      assert ws[..0] == [];
    }
  }

  lemma TwoChangesTwoWrites(invoices: map<string, Status>, ws: seq<Event>, e: Event, f: Event)
    requires e.invoice in invoices && f.invoice in invoices && e.invoice != f.invoice
    requires StatusByEvent(e.kind).Some? && StatusByEvent(f.kind).Some?
    requires Some(invoices[e.invoice]) != StatusByEvent(e.kind) && Some(invoices[f.invoice]) != StatusByEvent(f.kind)
    requires FoldStatus(invoices, ws) == SetStatus(SetStatus(invoices, e), f)
    ensures |ws| >= 2
  {
    FoldShort(invoices, ws);
    var both := FoldStatus(invoices, ws);
    assert both[e.invoice] != invoices[e.invoice] && both[f.invoice] != invoices[f.invoice];
  }

  /**
   A skip over a held event, and a second event held after it: then two events have written
   without being applied, of which the first lies in the recorded gap.
   */
  lemma SkippedHeldEvent(invoices: map<string, Status>, e: Event, f: Event)
    requires TwoEvents(e, f)
    requires e.invoice in invoices && f.invoice in invoices && e.invoice != f.invoice
    requires Some(invoices[e.invoice]) != StatusByEvent(e.kind) && Some(invoices[f.invoice]) != StatusByEvent(f.kind)
    ensures
      var d, chain := AfterRun(NewDisk(invoices), SkippedRun(e, f)), [e, f];
      && UniqueIds(chain) && InLedgerOrder(chain)
      && HonestRun(chain, NewDisk(invoices), SkippedRun(e, f))
      && OnwardRun(chain, NewDisk(invoices), 0, SkippedRun(e, f))
      && Held(d, e) && InGap(d, e.ledger) && Held(d, f) && !AtMostOneAhead(d, invoices)
  {
    var chain, polls := [e, f], SkippedRun(e, f);
    var d := HeldBoth(invoices, e, f);
    TwoEventChain(e, f);
    FirstHeld(invoices, e, f);
    SecondHeld(invoices, e, f);
    RunOfTwo(NewDisk(invoices), polls[0], polls[1]);
    OnePageAt(chain, 0, 0, f.ledger);
    OnePageAt(chain, 1, f.ledger, f.ledger);
    RunOfTwoHonest(chain, NewDisk(invoices), 0, polls[0], polls[1]);
    assert Gap(e.ledger, f.ledger - 1) in d.gaps;
    forall ws | FoldOf(d, invoices, ws)
      ensures |ws| >= 2
    {
      TwoChangesTwoWrites(invoices, ws, e, f);
    }
  }

  /** A whole page of one event that is new. */
  lemma WholePage(d: Disk, e: Event, last: nat, latest: nat, n: nat)
    requires StatusByEvent(e.kind).Some? && e.id !in d.events && n >= 5
    ensures
      PerformAll(d, Prefix(PagePlan(d, last, Page([e], None, None, latest)), n)) ==
      d.(events := d.events[e.id := StoredEvent(e, true)], invoices := SetStatus(d.invoices, e),
         marked := d.marked + [e], hooked := d.hooked + [e], cursor := Some(Cursor(None, e.ledger)))
  {
    PageCut(d, last, Page([e], None, None, latest), n);
    BatchCut(d, [e], 4);
    RecordCut(d, e, 4);
    assert Prefix(BatchPlan(d, [e]), 4) == BatchPlan(d, [e]);
  }

  function LedBackRun(e: Event, f: Event): seq<Poll> {
    [Poll(f.ledger, Served(Page([f], None, None, f.ledger)), 8),
     Poll(f.ledger, Retention(Some(e.ledger), Some(Page([e], None, None, f.ledger))), 8)]
  }

  function AppliedSecond(invoices: map<string, Status>, f: Event): Disk {
    Disk(map[f.id := StoredEvent(f, true)], SetStatus(invoices, f), Some(Cursor(None, f.ledger)), {}, [f], [f])
  }

  lemma FirstApplied(invoices: map<string, Status>, e: Event, f: Event)
    requires TwoEvents(e, f)
    ensures AfterPoll(NewDisk(invoices), LedBackRun(e, f)[0]) == AppliedSecond(invoices, f)
  {
    WholePage(NewDisk(invoices), f, 0, f.ledger, 8);
  }

  lemma SecondApplied(invoices: map<string, Status>, e: Event, f: Event)
    requires TwoEvents(e, f)
    ensures AfterPoll(AppliedSecond(invoices, f), LedBackRun(e, f)[1]).marked == [f, e]
  {
    var d := AppliedSecond(invoices, f);
    SkipGetsThrough(d, f.ledger, f.ledger, e.ledger, Page([e], None, None, f.ledger), 8);
    WholePage(Passed(d, f.ledger, e.ledger), e, e.ledger, f.ledger, 6);
  }

  lemma NotInOrder(e: Event, f: Event)
    requires e != f
    ensures !Subsequence([f, e], [e, f])
  {
    assert [f, e][..1] == [f];
    assert forall k :: 0 <= k < 2 && [e, f][k] == e ==> [e, f][..k] == [];
  }

  /** A node that lags behind the cursor leads back behind the start, and an earlier event comes after a later one. */
  lemma LedBackBehindStart(invoices: map<string, Status>, e: Event, f: Event)
    requires TwoEvents(e, f)
    ensures
      var d, chain := AfterRun(NewDisk(invoices), LedBackRun(e, f)), [e, f];
      && UniqueIds(chain) && InLedgerOrder(chain) && HonestRun(chain, NewDisk(invoices), LedBackRun(e, f))
      && !OnwardRun(chain, NewDisk(invoices), 0, LedBackRun(e, f))
      && d.marked == [f, e] && !Subsequence(d.marked, chain)
  {
    var chain, polls := [e, f], LedBackRun(e, f);
    TwoEventChain(e, f);
    FirstApplied(invoices, e, f);
    SecondApplied(invoices, e, f);
    RunOfTwo(NewDisk(invoices), polls[0], polls[1]);
    OnePageAt(chain, 1, 0, f.ledger);
    OnePageAt(chain, 0, e.ledger, f.ledger);
    RunOfTwoHonest(chain, NewDisk(invoices), 0, polls[0], polls[1]);
    assert polls[1..] == [polls[1]];
    assert !Onward(AppliedSecond(invoices, f), f.ledger, polls[1]);
    NotInOrder(e, f);
  }
}
