/**
 Runs of the treasury indexer over many batches and crashes: with paging tokens the table is
 what the events before the cursor make of it, and without them events can be passed over.
 */
module TreasuryRuns {
  import opened Common
  import opened TreasuryIndexer

  const EVENT_LIMIT := 100

  /** The contract's events with their ledgers. */
  datatype Entry = Entry(event: Event, ledger: nat)

  type Log = seq<Entry>

  datatype State = State(settlements: Table, cursor: Cursor)

  /** One batch: how much of the log the node has, its latest ledger, and the writes that get through. */
  datatype Batch = Batch(available: nat, latest: nat, survived: nat)

  function FirstAt(log: Log, ledger: nat): (k: nat)
    ensures k <= |log| && (forall i :: 0 <= i < k ==> log[i].ledger < ledger)
    ensures k < |log| ==> log[k].ledger >= ledger
  {
    if log == [] || log[0].ledger >= ledger then 0 else 1 + FirstAt(log[1..], ledger)
  }

  function AfterToken(log: Log, token: string): (k: nat)
    ensures k <= |log| && (forall i :: 0 <= i < k - 1 ==> log[i].event.pagingToken != Some(token))
    ensures k > 0 && k < |log| ==> log[k - 1].event.pagingToken == Some(token)
    ensures k == |log| ==> forall i :: 0 <= i < |log| - 1 ==> log[i].event.pagingToken != Some(token)
  {
    if log == [] then 0
    else if log[0].event.pagingToken == Some(token) then 1
    else 1 + AfterToken(log[1..], token)
  }

  predicate HasToken(c: Cursor) {
    c.pagingToken.Some? && c.pagingToken.value != ""
  }

  /** A cursor that says where to go on; without one the start depends on the latest ledger. */
  predicate Resumable(c: Cursor) {
    HasToken(c) || c.lastLedger > 0
  }

  /** Where the node begins: after the token, or at the ledger. */
  function StartOf(log: Log, c: Cursor): (k: nat)
    ensures k <= |log|
  {
    if HasToken(c) then AfterToken(log, c.pagingToken.value) else FirstAt(log, c.lastLedger)
  }

  function EndOf(log: Log, c: Cursor, b: Batch): nat {
    Min(StartOf(log, c) + EVENT_LIMIT, b.available)
  }

  function Events(log: Log): (es: seq<Event>)
    ensures |es| == |log|
  {
    seq(|log|, i requires 0 <= i < |log| => log[i].event)
  }

  /** The node has everything up to its latest ledger, which does not fall back. */
  predicate Honest(log: Log, c: Cursor, b: Batch) {
    && Resumable(c) && StartOf(log, c) <= b.available <= |log|
    && 0 < b.latest && c.lastLedger <= b.latest
    && forall k :: b.available <= k < |log| ==> log[k].ledger > b.latest
  }

  function PageAt(log: Log, c: Cursor, b: Batch): (page: seq<Event>)
    requires Honest(log, c, b)
    ensures |page| == EndOf(log, c, b) - StartOf(log, c)
    ensures forall i :: 0 <= i < |page| ==> page[i] == log[StartOf(log, c) + i].event
  {
    Events(log[StartOf(log, c)..EndOf(log, c, b)])
  }

  function After(log: Log, s: State, b: Batch): State
    requires Honest(log, s.cursor, b)
  {
    var r := AfterBatch(s.settlements, s.cursor, PageAt(log, s.cursor, b), Some(b.latest), b.survived);
    State(r.0, r.1)
  }

  /** All the writes of the batch get through. */
  predicate Complete(log: Log, s: State, b: Batch)
    requires Honest(log, s.cursor, b)
  {
    b.survived > |Unprocessed(PageAt(log, s.cursor, b), ToSet(s.cursor.processed))|
  }

  predicate HonestRun(log: Log, s: State, seen: nat, bs: seq<Batch>)
    decreases |bs|
  {
    bs == [] ||
    (seen <= bs[0].available && Honest(log, s.cursor, bs[0]) &&
     HonestRun(log, After(log, s, bs[0]), bs[0].available, bs[1..]))
  }

  function AfterRun(log: Log, s: State, seen: nat, bs: seq<Batch>): State
    requires HonestRun(log, s, seen, bs)
    decreases |bs|
  {
    if bs == [] then s else AfterRun(log, After(log, s, bs[0]), bs[0].available, bs[1..])
  }

  predicate InOrder(log: Log) {
    forall i, j :: 0 <= i < j < |log| ==> log[i].ledger <= log[j].ledger
  }

  /** Tokens, where there are any, are not empty and not given twice. */
  predicate GoodTokens(log: Log) {
    && (forall i :: 0 <= i < |log| ==> log[i].event.pagingToken != Some(""))
    && forall i, j :: 0 <= i < j < |log| && log[i].event.pagingToken.Some? ==>
         log[i].event.pagingToken != log[j].event.pagingToken
  }

  // ----- where the next batch begins ---------------------------------------

  lemma TokenFound(log: Log, k: nat)
    requires GoodTokens(log) && k < |log| && log[k].event.pagingToken.Some?
    ensures AfterToken(log, log[k].event.pagingToken.value) == k + 1
  {
  }

  lemma {:induction false} LastTokenIn(es: seq<Event>, token: Option<string>)
    ensures (forall i :: 0 <= i < |es| ==> es[i].pagingToken.None?) ==> LastToken(es, token) == token
    ensures
      (exists i :: 0 <= i < |es| && es[i].pagingToken.Some?) ==>
      exists i :: 0 <= i < |es| && es[i].pagingToken.Some? && LastToken(es, token) == es[i].pagingToken
    ensures es != [] && es[|es| - 1].pagingToken.Some? ==> LastToken(es, token) == es[|es| - 1].pagingToken
    decreases |es|
  {
    if es != [] && es[|es| - 1].pagingToken.None? {
      var init := es[..|es| - 1];
      LastTokenIn(init, token);
      assert forall i :: 0 <= i < |init| ==> init[i] == es[i];
    }
  }

  /** Without a token in the cursor or in the page, the next batch begins at the latest ledger. */
  predicate WithoutToken(c: Cursor, page: seq<Event>) {
    !HasToken(c) && forall i :: 0 <= i < |page| ==> page[i].pagingToken.None?
  }

  /** The cursor that a complete batch saves. */
  predicate SavedAfter(log: Log, c: Cursor, b: Batch, next: Cursor)
    requires Honest(log, c, b)
  {
    next.pagingToken == LastToken(PageAt(log, c, b), c.pagingToken) && next.lastLedger == b.latest
  }

  lemma AfterCursor(log: Log, s: State, b: Batch)
    requires Honest(log, s.cursor, b)
    ensures !Complete(log, s, b) ==> After(log, s, b).cursor == s.cursor
    ensures Complete(log, s, b) ==> SavedAfter(log, s.cursor, b, After(log, s, b).cursor)
  {
  }

  lemma TokenAt(log: Log, c: Cursor, b: Batch, next: Cursor, i: nat)
    requires GoodTokens(log) && Honest(log, c, b) && i < |PageAt(log, c, b)|
    requires PageAt(log, c, b)[i].pagingToken.Some? && next.pagingToken == PageAt(log, c, b)[i].pagingToken
    ensures HasToken(next) && StartOf(log, next) == StartOf(log, c) + i + 1 <= EndOf(log, c, b)
  {
    TokenFound(log, StartOf(log, c) + i);
  }

  lemma TokenInPage(log: Log, c: Cursor, b: Batch, next: Cursor)
    requires GoodTokens(log) && Honest(log, c, b) && SavedAfter(log, c, b, next)
    requires exists i :: 0 <= i < |PageAt(log, c, b)| && PageAt(log, c, b)[i].pagingToken.Some?
    ensures HasToken(next) && StartOf(log, c) < StartOf(log, next) <= EndOf(log, c, b)
  {
    var page := PageAt(log, c, b);
    LastTokenIn(page, c.pagingToken);
    var i :| 0 <= i < |page| && page[i].pagingToken.Some? && next.pagingToken == page[i].pagingToken;
    TokenAt(log, c, b, next, i);
  }

  lemma NoTokenInPage(log: Log, c: Cursor, b: Batch, next: Cursor)
    requires InOrder(log) && Honest(log, c, b) && SavedAfter(log, c, b, next)
    requires forall i :: 0 <= i < |PageAt(log, c, b)| ==> PageAt(log, c, b)[i].pagingToken.None?
    ensures StartOf(log, next) == if HasToken(c) then StartOf(log, c) else FirstAt(log, b.latest)
    ensures StartOf(log, c) <= StartOf(log, next) <= b.available
  {
    LastTokenIn(PageAt(log, c, b), c.pagingToken);
    assert b.available < |log| ==> log[b.available].ledger > b.latest;
    FirstAtGrows(log, c.lastLedger, b.latest);
  }

  lemma FirstAtGrows(log: Log, a: nat, b: nat)
    requires a <= b
    ensures FirstAt(log, a) <= FirstAt(log, b)
  {
  }

  /** The place after a complete batch: in the page or before it, unless there are no tokens. */
  lemma NextStart(log: Log, s: State, b: Batch)
    requires GoodTokens(log) && InOrder(log) && Honest(log, s.cursor, b)
    ensures
      var start, next := StartOf(log, s.cursor), StartOf(log, After(log, s, b).cursor);
      && Resumable(After(log, s, b).cursor) && start <= next <= b.available
      && (!Complete(log, s, b) ==> next == start)
      && (Complete(log, s, b) ==>
            if WithoutToken(s.cursor, PageAt(log, s.cursor, b)) then next == FirstAt(log, b.latest)
            else next <= EndOf(log, s.cursor, b))
  {
    AfterCursor(log, s, b);
    if Complete(log, s, b) {
      StartAfter(log, s.cursor, b, After(log, s, b).cursor);
    }
  }

  lemma StartAfter(log: Log, c: Cursor, b: Batch, next: Cursor)
    requires GoodTokens(log) && InOrder(log) && Honest(log, c, b) && SavedAfter(log, c, b, next)
    ensures Resumable(next) && StartOf(log, c) <= StartOf(log, next) <= b.available
    ensures
      if WithoutToken(c, PageAt(log, c, b)) then StartOf(log, next) == FirstAt(log, b.latest)
      else StartOf(log, next) <= EndOf(log, c, b)
  {
    if i :| 0 <= i < |PageAt(log, c, b)| && PageAt(log, c, b)[i].pagingToken.Some? {
      TokenInPage(log, c, b, next);
    } else {
      NoTokenInPage(log, c, b, next);
    }
  }

  // ----- which events are passed over --------------------------------------

  /** A complete batch of the run had the event in its page. */
  predicate Fetched(log: Log, s: State, seen: nat, bs: seq<Batch>, k: nat)
    requires HonestRun(log, s, seen, bs)
    decreases |bs|
  {
    bs != [] &&
    ((Complete(log, s, bs[0]) && StartOf(log, s.cursor) <= k < EndOf(log, s.cursor, bs[0])) ||
     Fetched(log, After(log, s, bs[0]), bs[0].available, bs[1..], k))
  }

  /** Without tokens, the node had more than a page before the ledger the cursor moves to. */
  predicate Jumps(log: Log, s: State, b: Batch)
    requires Honest(log, s.cursor, b)
  {
    && Complete(log, s, b) && WithoutToken(s.cursor, PageAt(log, s.cursor, b))
    && FirstAt(log, b.latest) > StartOf(log, s.cursor) + EVENT_LIMIT
  }

  predicate NeverJumps(log: Log, s: State, seen: nat, bs: seq<Batch>)
    requires HonestRun(log, s, seen, bs)
    decreases |bs|
  {
    bs == [] ||
    (!Jumps(log, s, bs[0]) && NeverJumps(log, After(log, s, bs[0]), bs[0].available, bs[1..]))
  }

  lemma {:induction false} StartsGrow(log: Log, s: State, seen: nat, bs: seq<Batch>)
    requires GoodTokens(log) && InOrder(log) && HonestRun(log, s, seen, bs)
    ensures StartOf(log, s.cursor) <= StartOf(log, AfterRun(log, s, seen, bs).cursor)
    decreases |bs|
  {
    if bs != [] {
      NextStart(log, s, bs[0]);
      StartsGrow(log, After(log, s, bs[0]), bs[0].available, bs[1..]);
    }
  }

  lemma {:induction false} FetchedFromStart(log: Log, s: State, seen: nat, bs: seq<Batch>, k: nat)
    requires GoodTokens(log) && InOrder(log) && HonestRun(log, s, seen, bs) && Fetched(log, s, seen, bs, k)
    ensures StartOf(log, s.cursor) <= k
    decreases |bs|
  {
    NextStart(log, s, bs[0]);
    if Fetched(log, After(log, s, bs[0]), bs[0].available, bs[1..], k) {
      FetchedFromStart(log, After(log, s, bs[0]), bs[0].available, bs[1..], k);
    }
  }

  lemma {:induction false} AllFetched(log: Log, s: State, seen: nat, bs: seq<Batch>, k: nat)
    requires GoodTokens(log) && InOrder(log) && HonestRun(log, s, seen, bs) && NeverJumps(log, s, seen, bs)
    requires StartOf(log, s.cursor) <= k < StartOf(log, AfterRun(log, s, seen, bs).cursor)
    ensures Fetched(log, s, seen, bs, k)
    decreases |bs|
  {
    if bs != [] {
      var after := After(log, s, bs[0]);
      NextStart(log, s, bs[0]);
      if StartOf(log, after.cursor) <= k {
        AllFetched(log, after, bs[0].available, bs[1..], k);
      }
    }
  }

  /** The first event behind the page of a jump is passed over for ever. */
  lemma {:induction false} PassedOver(log: Log, s: State, seen: nat, bs: seq<Batch>) returns (k: nat)
    requires GoodTokens(log) && InOrder(log) && HonestRun(log, s, seen, bs) && !NeverJumps(log, s, seen, bs)
    ensures EndOf(log, s.cursor, bs[0]) <= k < StartOf(log, AfterRun(log, s, seen, bs).cursor)
    ensures StartOf(log, s.cursor) <= k && !Fetched(log, s, seen, bs, k)
    decreases |bs|
  {
    var b, after := bs[0], After(log, s, bs[0]);
    NextStart(log, s, b);
    if Jumps(log, s, b) {
      k := EndOf(log, s.cursor, b);
      StartsGrow(log, after, b.available, bs[1..]);
      if Fetched(log, after, b.available, bs[1..], k) {
        FetchedFromStart(log, after, b.available, bs[1..], k);
      }
    } else {
      k := PassedOver(log, after, b.available, bs[1..]);
    }
  }

  /**
   Every event from the first start to the last one was in the page of a complete batch exactly
   if no batch without tokens left more than a page before the node's latest ledger.
   */
  lemma NothingPassedOver(log: Log, s: State, seen: nat, bs: seq<Batch>)
    requires GoodTokens(log) && InOrder(log) && HonestRun(log, s, seen, bs)
    ensures
      (forall k :: StartOf(log, s.cursor) <= k < StartOf(log, AfterRun(log, s, seen, bs).cursor) ==>
         Fetched(log, s, seen, bs, k)) <==>
      NeverJumps(log, s, seen, bs)
  {
    if NeverJumps(log, s, seen, bs) {
      forall k | StartOf(log, s.cursor) <= k < StartOf(log, AfterRun(log, s, seen, bs).cursor)
        ensures Fetched(log, s, seen, bs, k)
      {
        AllFetched(log, s, seen, bs, k);
      }
    } else {
      var k := PassedOver(log, s, seen, bs);
    }
  }

  /** One event in each of the ledgers from 1 to n, without tokens. */
  function Tokenless(n: nat): (log: Log)
    ensures |log| == n
    ensures forall i :: 0 <= i < n ==>
      log[i].ledger == i + 1 && log[i].event.pagingToken.None? && log[i].event.change == Change.Executed
  {
    seq(n, i requires 0 <= i < n => Entry(Event(None, "", i, Change.Executed), i + 1))
  }

  /** A cursor saved at the first ledger, and a node with all 102 events. */
  const FIRST_LEDGER := State(map[], Cursor(None, 1, []))

  const WHOLE := Batch(102, 102, 1000)

  lemma {:induction false} UnprocessedNoLonger(es: seq<Event>, processed: set<string>)
    ensures |Unprocessed(es, processed)| <= |es|
    decreases |es|
  {
    if es != [] {
      UnprocessedNoLonger(
        es[1..],
        if es[0].change.Other? || BuildEventId(es[0]) in processed then processed
        else processed + {BuildEventId(es[0])});
    }
  }

  lemma TokenlessFirstAt(n: nat, ledger: nat)
    requires 0 < ledger <= n
    ensures FirstAt(Tokenless(n), ledger) == ledger - 1
  {
    var k := FirstAt(Tokenless(n), ledger);
    assert Tokenless(n)[ledger - 1].ledger == ledger;
  }

  lemma TokenlessGood(n: nat)
    ensures GoodTokens(Tokenless(n)) && InOrder(Tokenless(n))
  {
  }

  lemma WholeHonest()
    ensures Honest(Tokenless(102), FIRST_LEDGER.cursor, WHOLE)
    ensures StartOf(Tokenless(102), FIRST_LEDGER.cursor) == 0
    ensures EndOf(Tokenless(102), FIRST_LEDGER.cursor, WHOLE) == 100
  {
    TokenlessFirstAt(102, 1);
  }

  lemma WholeJumps()
    ensures GoodTokens(Tokenless(102)) && InOrder(Tokenless(102)) && Honest(Tokenless(102), FIRST_LEDGER.cursor, WHOLE)
    ensures Complete(Tokenless(102), FIRST_LEDGER, WHOLE) && Jumps(Tokenless(102), FIRST_LEDGER, WHOLE)
  {
    var log, c := Tokenless(102), FIRST_LEDGER.cursor;
    TokenlessGood(102);
    WholeHonest();
    TokenlessFirstAt(102, 102);
    UnprocessedNoLonger(PageAt(log, c, WHOLE), ToSet(c.processed));
  }

  /**
   Of those 102 events a page holds the first hundred, and the cursor then moves to ledger 102:
   the event of ledger 101 is fetched neither by this batch nor by any later one.
   */
  lemma TokenlessEventPassedOver(bs: seq<Batch>)
    requires HonestRun(Tokenless(102), FIRST_LEDGER, 0, [WHOLE] + bs)
    ensures
      var log := Tokenless(102);
      && log[100].ledger == 101
      && StartOf(log, After(log, FIRST_LEDGER, WHOLE).cursor) == 101
      && !Fetched(log, FIRST_LEDGER, 0, [WHOLE] + bs, 100)
  {
    var log := Tokenless(102);
    var after := After(log, FIRST_LEDGER, WHOLE);
    WholeJumps();
    WholeHonest();
    NextStart(log, FIRST_LEDGER, WHOLE);
    TokenlessFirstAt(102, 102);
    assert ([WHOLE] + bs)[1..] == bs;
    if Fetched(log, after, WHOLE.available, bs, 100) {
      FetchedFromStart(log, after, WHOLE.available, bs, 100);
    }
  }

  /** The batch alone is such a run. */
  lemma WholeIsHonestRun()
    ensures HonestRun(Tokenless(102), FIRST_LEDGER, 0, [WHOLE] + [])
  {
    WholeJumps();
    assert ([WHOLE] + [])[1..] == [];
    assert HonestRun(Tokenless(102), After(Tokenless(102), FIRST_LEDGER, WHOLE), WHOLE.available, []);
  }

  // ----- with tokens -------------------------------------------------------

  predicate AllTokens(log: Log) {
    GoodTokens(log) && forall i :: 0 <= i < |log| ==> log[i].event.pagingToken.Some?
  }

  lemma EndWithTokens(log: Log, c: Cursor, b: Batch, next: Cursor)
    requires AllTokens(log) && InOrder(log) && Honest(log, c, b) && SavedAfter(log, c, b, next)
    ensures StartOf(log, next) == EndOf(log, c, b)
  {
    var page := PageAt(log, c, b);
    if page == [] {
      NoTokenInPage(log, c, b, next);
    } else {
      LastTokenIn(page, c.pagingToken);
      TokenAt(log, c, b, next, |page| - 1);
    }
  }

  /** The events that change a settlement. */
  function Tracked(es: seq<Event>): seq<Event>
    decreases |es|
  {
    if es == [] then [] else (if es[0].change.Other? then [] else [es[0]]) + Tracked(es[1..])
  }

  lemma {:induction false} TrackedConcat(a: seq<Event>, b: seq<Event>)
    ensures Tracked(a + b) == Tracked(a) + Tracked(b)
    decreases |a|
  {
    if a == [] {
      assert a + b == b;
    } else {
      assert (a + b)[0] == a[0] && (a + b)[1..] == a[1..] + b;
      TrackedConcat(a[1..], b);
    }
  }

  lemma {:induction false} TrackedSuffices(t: Table, es: seq<Event>)
    ensures UpsertAll(t, Tracked(es)) == UpsertAll(t, es)
    decreases |es|
  {
    if es != [] {
      var init, last := es[..|es| - 1], es[|es| - 1];
      TrackedSuffices(t, init);
      assert es == init + [last];
      TrackedConcat(init, [last]);
      UpsertConcat(t, Tracked(init), Tracked([last]));
      TrackedOne(last);
      UpsertOne(UpsertAll(t, Tracked(init)), Tracked([last]));
    }
  }

  lemma TrackedOne(e: Event)
    ensures Tracked([e]) == if e.change.Other? then [] else [e]
  {
    assert [e][1..] == [];
  }

  lemma UpsertOne(t: Table, es: seq<Event>)
    requires |es| <= 1
    ensures UpsertAll(t, es) == if es == [] then t else Upsert(t, es[0])
  {
    if es != [] {
      assert es[..0] == [];
    }
  }

  ghost predicate NewIds(es: seq<Event>, processed: set<string>) {
    && (forall i :: 0 <= i < |es| ==> BuildEventId(es[i]) !in processed)
    && forall i, j :: 0 <= i < j < |es| ==> BuildEventId(es[i]) != BuildEventId(es[j])
  }

  lemma {:induction false} NewAreUnprocessed(es: seq<Event>, processed: set<string>)
    requires NewIds(es, processed)
    ensures Unprocessed(es, processed) == Tracked(es)
    decreases |es|
  {
    if es != [] {
      var newer := if es[0].change.Other? then processed else processed + {BuildEventId(es[0])};
      assert NewIds(es[1..], newer) by {
        forall i | 0 <= i < |es[1..]|
          ensures BuildEventId(es[1..][i]) !in newer
        {
          assert es[1..][i] == es[i + 1];
        }
      }
      NewAreUnprocessed(es[1..], newer);
      assert [] + Tracked(es[1..]) == Tracked(es[1..]);
    }
  }

  lemma TokenIsId(e: Event)
    requires e.pagingToken.Some? && e.pagingToken.value != ""
    ensures BuildEventId(e) == e.pagingToken.value
  {
  }

  /** The cursor remembers no event that is still to come. */
  ghost predicate Unseen(log: Log, c: Cursor) {
    forall k :: StartOf(log, c) <= k < |log| ==> BuildEventId(log[k].event) !in ToSet(c.processed)
  }

  lemma PageIsNew(log: Log, c: Cursor, b: Batch)
    requires AllTokens(log) && Honest(log, c, b) && Unseen(log, c)
    ensures Unprocessed(PageAt(log, c, b), ToSet(c.processed)) == Tracked(PageAt(log, c, b))
  {
    var start, page := StartOf(log, c), PageAt(log, c, b);
    forall i | 0 <= i < |page|
      ensures BuildEventId(page[i]) == log[start + i].event.pagingToken.value
    {
      TokenIsId(page[i]);
    }
    NewAreUnprocessed(page, ToSet(c.processed));
  }

  /** What the processed ids of the next cursor can be. */
  lemma PushedIds(processed: seq<string>, pushed: seq<string>, id: string)
    requires id in ToSet(PushIds(processed, pushed))
    ensures id in ToSet(processed) || id in pushed
  {
  }

  lemma {:induction false} TrackedHas(es: seq<Event>, e: Event)
    ensures e in Tracked(es) ==> e in es
    decreases |es|
  {
    if es != [] {
      TrackedHas(es[1..], e);
    }
  }

  lemma StaysUnseen(log: Log, s: State, b: Batch)
    requires AllTokens(log) && InOrder(log) && Honest(log, s.cursor, b) && Unseen(log, s.cursor)
    requires Complete(log, s, b)
    ensures StartOf(log, After(log, s, b).cursor) == EndOf(log, s.cursor, b)
    ensures Unseen(log, After(log, s, b).cursor)
  {
    var page, next := PageAt(log, s.cursor, b), After(log, s, b).cursor;
    AfterCursor(log, s, b);
    EndWithTokens(log, s.cursor, b, next);
    PageIsNew(log, s.cursor, b);
    forall k | EndOf(log, s.cursor, b) <= k < |log|
      ensures BuildEventId(log[k].event) !in ToSet(next.processed)
    {
      NotPushed(log, s.cursor, b, k);
    }
  }

  lemma PageIdFrom(log: Log, c: Cursor, b: Batch, id: string) returns (j: nat)
    requires AllTokens(log) && Honest(log, c, b) && id in Ids(Tracked(PageAt(log, c, b)))
    ensures StartOf(log, c) <= j < EndOf(log, c, b) && log[j].event.pagingToken == Some(id)
  {
    var page := PageAt(log, c, b);
    var i :| 0 <= i < |Tracked(page)| && Ids(Tracked(page))[i] == id;
    TrackedHas(page, Tracked(page)[i]);
    var k :| 0 <= k < |page| && page[k] == Tracked(page)[i];
    TokenIsId(page[k]);
    j := StartOf(log, c) + k;
  }

  lemma NotPushed(log: Log, c: Cursor, b: Batch, k: nat)
    requires AllTokens(log) && Honest(log, c, b) && Unseen(log, c) && EndOf(log, c, b) <= k < |log|
    ensures
      BuildEventId(log[k].event) !in ToSet(PushIds(c.processed, Ids(Tracked(PageAt(log, c, b)))))
  {
    var id, pushed := BuildEventId(log[k].event), Ids(Tracked(PageAt(log, c, b)));
    TokenIsId(log[k].event);
    if id in ToSet(PushIds(c.processed, pushed)) {
      PushedIds(c.processed, pushed, id);
      if id in pushed {
        var j := PageIdFrom(log, c, b, id);
      }
    }
  }

  /**
   From `reach` on, whatever crashes left in the table disappears once the events from `pos`
   are applied again: the result is that of all events from `first`, each applied once.
   */
  ghost predicate Absorbs(t: Table, t0: Table, log: Log, first: nat, pos: nat, reach: nat)
    requires first <= pos <= reach <= |log|
  {
    forall m :: reach <= m <= |log| ==> SameEnd(t, t0, log, first, pos, m)
  }

  ghost predicate SameEnd(t: Table, t0: Table, log: Log, first: nat, pos: nat, m: nat)
    requires first <= pos <= m <= |log|
  {
    UpsertAll(t, Events(log[pos..m])) == UpsertAll(t0, Events(log[first..m]))
  }

  lemma EventsConcat(log: Log, a: nat, b: nat, c: nat)
    requires a <= b <= c <= |log|
    ensures Events(log[a..b]) + Events(log[b..c]) == Events(log[a..c])
  {
  }

  /** A beginning of a page, applied and then applied again with all that follows. */
  lemma CrashAbsorbed(t: Table, log: Log, pos: nat, q: nat, m: nat, n: nat)
    requires pos <= q <= m <= |log|
    ensures
      UpsertAll(UpsertAll(t, Prefix(Tracked(Events(log[pos..q])), n)), Events(log[pos..m])) ==
      UpsertAll(t, Events(log[pos..m]))
  {
    var page, all := Tracked(Events(log[pos..q])), Tracked(Events(log[pos..m]));
    EventsConcat(log, pos, q, m);
    TrackedConcat(Events(log[pos..q]), Events(log[q..m]));
    var crashed := UpsertAll(t, Prefix(page, n));
    TrackedSuffices(crashed, Events(log[pos..m]));
    TrackedSuffices(t, Events(log[pos..m]));
    assert page <= all;
    PrefixAbsorbed(t, Prefix(page, n), all);
  }

  lemma CrashKeeps(t: Table, t0: Table, log: Log, first: nat, pos: nat, reach: nat, q: nat, n: nat)
    requires first <= pos <= reach <= q <= |log| && Absorbs(t, t0, log, first, pos, reach)
    ensures Absorbs(UpsertAll(t, Prefix(Tracked(Events(log[pos..q])), n)), t0, log, first, pos, q)
  {
    var crashed := UpsertAll(t, Prefix(Tracked(Events(log[pos..q])), n));
    forall m | q <= m <= |log|
      ensures SameEnd(crashed, t0, log, first, pos, m)
    {
      assert SameEnd(t, t0, log, first, pos, m);
      CrashAbsorbed(t, log, pos, q, m, n);
    }
  }

  lemma PageKeeps(t: Table, t0: Table, log: Log, first: nat, pos: nat, reach: nat, q: nat)
    requires first <= pos <= reach <= q <= |log| && Absorbs(t, t0, log, first, pos, reach)
    ensures Absorbs(UpsertAll(t, Tracked(Events(log[pos..q]))), t0, log, first, q, q)
  {
    TrackedSuffices(t, Events(log[pos..q]));
    forall m | q <= m <= |log|
      ensures SameEnd(UpsertAll(t, Tracked(Events(log[pos..q]))), t0, log, first, q, m)
    {
      assert SameEnd(t, t0, log, first, pos, m);
      EventsConcat(log, pos, q, m);
      UpsertConcat(t, Events(log[pos..q]), Events(log[q..m]));
    }
  }

  /** Attempts from one place have reached no further than a page of what the node had. */
  ghost predicate Kept(log: Log, s: State, t0: Table, first: nat, reach: nat, seen: nat) {
    && Unseen(log, s.cursor)
    && first <= StartOf(log, s.cursor) <= reach <= |log|
    && reach <= Max(StartOf(log, s.cursor), Min(StartOf(log, s.cursor) + EVENT_LIMIT, seen))
    && Absorbs(s.settlements, t0, log, first, StartOf(log, s.cursor), reach)
  }

  lemma BatchKeeps(log: Log, s: State, b: Batch, t0: Table, first: nat, reach: nat, seen: nat)
    requires AllTokens(log) && InOrder(log) && Honest(log, s.cursor, b) && seen <= b.available
    requires Kept(log, s, t0, first, reach, seen)
    ensures Kept(log, After(log, s, b), t0, first, EndOf(log, s.cursor, b), b.available)
    ensures Complete(log, s, b) ==> StartOf(log, After(log, s, b).cursor) == EndOf(log, s.cursor, b)
  {
    var start, end := StartOf(log, s.cursor), EndOf(log, s.cursor, b);
    PageIsNew(log, s.cursor, b);
    if Complete(log, s, b) {
      StaysUnseen(log, s, b);
      PageKeeps(s.settlements, t0, log, first, start, reach, end);
    } else {
      AfterCursor(log, s, b);
      CrashKeeps(s.settlements, t0, log, first, start, reach, end, b.survived);
    }
  }

  /** The last batch of the run got through. */
  predicate EndsComplete(log: Log, s: State, seen: nat, bs: seq<Batch>)
    requires HonestRun(log, s, seen, bs)
    decreases |bs|
  {
    bs != [] &&
    if |bs| == 1 then Complete(log, s, bs[0])
    else EndsComplete(log, After(log, s, bs[0]), bs[0].available, bs[1..])
  }

  lemma {:induction false} RunKept(
      log: Log, s: State, seen: nat, bs: seq<Batch>, t0: Table, first: nat, reach: nat)
    returns (newReach: nat, newSeen: nat)
    requires AllTokens(log) && InOrder(log) && HonestRun(log, s, seen, bs) && Kept(log, s, t0, first, reach, seen)
    ensures Kept(log, AfterRun(log, s, seen, bs), t0, first, newReach, newSeen)
    ensures bs == [] ==> newReach == reach
    ensures EndsComplete(log, s, seen, bs) ==> newReach == StartOf(log, AfterRun(log, s, seen, bs).cursor)
    decreases |bs|
  {
    if bs == [] {
      newReach, newSeen := reach, seen;
    } else {
      BatchKeeps(log, s, bs[0], t0, first, reach, seen);
      newReach, newSeen :=
        RunKept(log, After(log, s, bs[0]), bs[0].available, bs[1..], t0, first, EndOf(log, s.cursor, bs[0]));
    }
  }

  /**
   If every event has a token, then after any number of batches, crashed ones among them, a
   complete one leaves the table that the events before its cursor make, each applied once.
   */
  lemma TokensExact(log: Log, s: State, seen: nat, bs: seq<Batch>)
    requires AllTokens(log) && InOrder(log) && HonestRun(log, s, seen, bs) && Unseen(log, s.cursor)
    requires EndsComplete(log, s, seen, bs)
    ensures
      var end := AfterRun(log, s, seen, bs);
      && StartOf(log, s.cursor) <= StartOf(log, end.cursor)
      && end.settlements ==
         UpsertAll(s.settlements, Events(log[StartOf(log, s.cursor)..StartOf(log, end.cursor)]))
  {
    var first, end := StartOf(log, s.cursor), AfterRun(log, s, seen, bs);
    var reach, newSeen := RunKept(log, s, seen, bs, s.settlements, first, first);
    assert SameEnd(end.settlements, s.settlements, log, first, reach, reach);
    assert Events(log[reach..reach]) == [];
  }
}
