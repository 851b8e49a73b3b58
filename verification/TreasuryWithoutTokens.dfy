/**
 Runs of the treasury indexer over events without paging tokens, as long as no event is passed
 over: the table is what the fetched events make of it, each fallback id taken once.
 */
module TreasuryWithoutTokens {
  import opened Common
  import opened TreasuryIndexer
  import opened TreasuryRuns

  predicate NoTokens(log: Log) {
    forall k :: 0 <= k < |log| ==> log[k].event.pagingToken.None?
  }

  /** The fallback id begins with the transaction, and a transaction is part of one ledger. */
  ghost predicate IdInOneLedger(log: Log) {
    forall i, j :: 0 <= i < j < |log| && SameId(log[i].event, log[j].event) ==> log[i].ledger == log[j].ledger
  }

  predicate SameId(e: Event, f: Event) {
    !e.change.Other? && !f.change.Other? && BuildEventId(e) == BuildEventId(f)
  }

  /** The events that change a settlement, the first one of each id. */
  function Fresh(es: seq<Event>): seq<Event> {
    Unprocessed(es, {})
  }

  // ----- skipping ----------------------------------------------------------

  lemma {:induction false} UnprocessedConcat(a: seq<Event>, b: seq<Event>, processed: set<string>)
    ensures
      Unprocessed(a + b, processed) ==
      Unprocessed(a, processed) + Unprocessed(b, processed + ToSet(Ids(Unprocessed(a, processed))))
    decreases |a|
  {
    if a == [] {
      assert a + b == b;
      assert processed + ToSet(Ids([])) == processed;
    } else {
      assert (a + b)[0] == a[0] && (a + b)[1..] == a[1..] + b;
      if a[0].change.Other? || BuildEventId(a[0]) in processed {
        UnprocessedConcat(a[1..], b, processed);
      } else {
        var more := processed + {BuildEventId(a[0])};
        var rest := Unprocessed(a[1..], more);
        UnprocessedConcat(a[1..], b, more);
        assert Ids([a[0]] + rest) == [BuildEventId(a[0])] + Ids(rest);
        assert processed + ToSet(Ids([a[0]] + rest)) == more + ToSet(Ids(rest));
      }
    }
  }

  ghost predicate SameFor(es: seq<Event>, p: set<string>, q: set<string>) {
    forall e :: e in es && !e.change.Other? ==> (BuildEventId(e) in p <==> BuildEventId(e) in q)
  }

  lemma {:induction false} UnprocessedSame(es: seq<Event>, p: set<string>, q: set<string>)
    requires SameFor(es, p, q)
    ensures Unprocessed(es, p) == Unprocessed(es, q)
    decreases |es|
  {
    if es != [] {
      var e := es[0];
      assert e in es && forall x :: x in es[1..] ==> x in es;
      if e.change.Other? || BuildEventId(e) in p {
        UnprocessedSame(es[1..], p, q);
      } else {
        UnprocessedSame(es[1..], p + {BuildEventId(e)}, q + {BuildEventId(e)});
      }
    }
  }

  lemma {:induction false} UnprocessedFrom(es: seq<Event>, processed: set<string>)
    ensures forall e :: e in Unprocessed(es, processed) ==> e in es && !e.change.Other?
    decreases |es|
  {
    if es != [] {
      UnprocessedFrom(es[1..], processed);
      UnprocessedFrom(es[1..], processed + {BuildEventId(es[0])});
    }
  }

  /** The ids of the events that change a settlement. */
  ghost predicate HasId(log: Log, a: nat, b: nat, id: string)
    requires a <= b <= |log|
  {
    exists k :: a <= k < b && !log[k].event.change.Other? && BuildEventId(log[k].event) == id
  }

  lemma FreshIds(log: Log, a: nat, b: nat, id: string)
    requires a <= b <= |log|
    ensures id in ToSet(Ids(Fresh(Events(log[a..b])))) <==> HasId(log, a, b, id)
  {
    var es := Events(log[a..b]);
    UnprocessedFrom(es, {});
    UnprocessedCovers(es, {});
    if id in Ids(Fresh(es)) {
      var i :| 0 <= i < |Fresh(es)| && Ids(Fresh(es))[i] == id;
      assert Fresh(es)[i] in es;
      var k :| 0 <= k < |es| && es[k] == Fresh(es)[i];
      assert log[a + k].event == es[k];
    }
    if HasId(log, a, b, id) {
      var k :| a <= k < b && !log[k].event.change.Other? && BuildEventId(log[k].event) == id;
      assert es[k - a] == log[k].event;
      assert log[k].event in es;
    }
  }

  // ----- what the cursor knows ---------------------------------------------

  predicate EndsWith(xs: seq<string>, ys: seq<string>) {
    |ys| <= |xs| && xs[|xs| - |ys|..] == ys
  }

  /**
   The cursor goes on from a ledger's start, up to `done` everything was fetched, and the ids
   of what was fetched from there on are the last ones it remembers.
   */
  ghost predicate Knows(log: Log, c: Cursor, before: set<string>, first: nat, done: nat) {
    && !HasToken(c) && first <= StartOf(log, c) <= done <= |log| && done <= StartOf(log, c) + EVENT_LIMIT
    && EndsWith(c.processed, Ids(Fresh(Events(log[StartOf(log, c)..done]))))
    && forall id :: id in c.processed ==> id in before || HasId(log, first, done, id)
  }

  /** None of the ids remembered at the start comes again. */
  ghost predicate Clear(log: Log, before: set<string>, first: nat) {
    forall k :: first <= k < |log| ==> BuildEventId(log[k].event) !in before
  }

  lemma EndsHas(xs: seq<string>, ys: seq<string>)
    requires EndsWith(xs, ys)
    ensures forall y :: y in ys ==> y in xs
  {
    assert forall i :: 0 <= i < |ys| ==> ys[i] == xs[|xs| - |ys| + i];
  }

  lemma EndsWithMore(xs: seq<string>, ys: seq<string>, zs: seq<string>)
    requires EndsWith(xs, ys)
    ensures EndsWith(xs + zs, ys + zs)
  {
  }

  lemma EndsWithEnd(xs: seq<string>, ys: seq<string>, zs: seq<string>)
    requires EndsWith(xs, ys + zs)
    ensures EndsWith(xs, zs)
  {
    assert xs[|xs| - |zs|..] == xs[|xs| - |ys + zs|..][|ys|..];
  }

  lemma PushEnds(xs: seq<string>, ys: seq<string>, zs: seq<string>)
    requires EndsWith(xs, ys) && |ys + zs| <= MAX_PROCESSED
    ensures EndsWith(PushIds(xs, zs), ys + zs)
  {
    EndsWithMore(xs, ys, zs);
    var all := xs + zs;
    if |all| > MAX_PROCESSED {
      assert all[|all| - MAX_PROCESSED..][MAX_PROCESSED - |ys + zs|..] == all[|all| - |ys + zs|..];
    }
  }

  lemma IdsConcat(a: seq<Event>, b: seq<Event>)
    ensures Ids(a + b) == Ids(a) + Ids(b)
  {
  }

  /** An id remembered by the cursor that comes again was fetched in the same ledger. */
  lemma IdKnown(log: Log, c: Cursor, before: set<string>, first: nat, done: nat, k: nat)
    requires Knows(log, c, before, first, done) && Clear(log, before, first)
    requires InOrder(log) && IdInOneLedger(log)
    requires done <= k < |log| && !log[k].event.change.Other?
    ensures
      var id := BuildEventId(log[k].event);
      && (id in c.processed <==> HasId(log, first, done, id))
      && (id in c.processed <==> HasId(log, StartOf(log, c), done, id))
  {
    var start, id := StartOf(log, c), BuildEventId(log[k].event);
    if i :| first <= i < done && !log[i].event.change.Other? && BuildEventId(log[i].event) == id {
      assert SameId(log[i].event, log[k].event);
      assert log[start].ledger <= log[k].ledger;
    }
    FreshIds(log, start, done, id);
    EndsHas(c.processed, Ids(Fresh(Events(log[start..done]))));
  }

  lemma NewOnly(log: Log, c: Cursor, before: set<string>, first: nat, done: nat, q: nat)
    requires Knows(log, c, before, first, done) && Clear(log, before, first)
    requires InOrder(log) && IdInOneLedger(log)
    requires done <= q <= |log|
    ensures
      var rest, processed := Events(log[done..q]), ToSet(c.processed);
      && SameFor(rest, processed, ToSet(Ids(Fresh(Events(log[first..done])))))
      && SameFor(rest, processed, ToSet(Ids(Fresh(Events(log[StartOf(log, c)..done])))))
  {
    var rest := Events(log[done..q]);
    forall e | e in rest && !e.change.Other?
      ensures BuildEventId(e) in c.processed <==> BuildEventId(e) in ToSet(Ids(Fresh(Events(log[first..done]))))
      ensures
        BuildEventId(e) in c.processed <==> BuildEventId(e) in ToSet(Ids(Fresh(Events(log[StartOf(log, c)..done]))))
    {
      var i :| 0 <= i < |rest| && rest[i] == e;
      assert log[done + i].event == e;
      IdKnown(log, c, before, first, done, done + i);
      FreshIds(log, first, done, BuildEventId(e));
      FreshIds(log, StartOf(log, c), done, BuildEventId(e));
    }
  }

  /** What was fetched up to `done` is skipped, and what comes after it is taken as if nothing had been dropped. */
  lemma PageIsNew(log: Log, c: Cursor, before: set<string>, first: nat, done: nat, q: nat)
    requires Knows(log, c, before, first, done) && Clear(log, before, first)
    requires InOrder(log) && IdInOneLedger(log)
    requires done <= q <= |log|
    ensures
      var unseen := Unprocessed(Events(log[StartOf(log, c)..q]), ToSet(c.processed));
      && Fresh(Events(log[first..q])) == Fresh(Events(log[first..done])) + unseen
      && Fresh(Events(log[StartOf(log, c)..q])) == Fresh(Events(log[StartOf(log, c)..done])) + unseen
  {
    var start, processed := StartOf(log, c), ToSet(c.processed);
    NewOnly(log, c, before, first, done, q);
    FreshConcat(log, first, done, q, processed);
    FreshConcat(log, start, done, q, processed);
    RestOfPage(log, c, before, first, done, q);
  }

  lemma RestOfPage(log: Log, c: Cursor, before: set<string>, first: nat, done: nat, q: nat)
    requires Knows(log, c, before, first, done) && done <= q <= |log|
    ensures
      Unprocessed(Events(log[StartOf(log, c)..q]), ToSet(c.processed)) ==
      Unprocessed(Events(log[done..q]), ToSet(c.processed))
  {
    var start, processed := StartOf(log, c), ToSet(c.processed);
    SkipsFetched(log, c, before, first, done);
    EventsConcat(log, start, done, q);
    UnprocessedConcat(Events(log[start..done]), Events(log[done..q]), processed);
    assert processed + ToSet(Ids([])) == processed;
  }

  lemma FreshConcat(log: Log, a: nat, b: nat, c: nat, processed: set<string>)
    requires a <= b <= c <= |log|
    requires SameFor(Events(log[b..c]), processed, ToSet(Ids(Fresh(Events(log[a..b])))))
    ensures Fresh(Events(log[a..c])) == Fresh(Events(log[a..b])) + Unprocessed(Events(log[b..c]), processed)
  {
    var ids := ToSet(Ids(Fresh(Events(log[a..b]))));
    EventsConcat(log, a, b, c);
    UnprocessedConcat(Events(log[a..b]), Events(log[b..c]), {});
    assert {} + ids == ids;
    UnprocessedSame(Events(log[b..c]), processed, ids);
  }

  lemma SkipsFetched(log: Log, c: Cursor, before: set<string>, first: nat, done: nat)
    requires Knows(log, c, before, first, done)
    ensures Unprocessed(Events(log[StartOf(log, c)..done]), ToSet(c.processed)) == []
  {
    var start, es := StartOf(log, c), Events(log[StartOf(log, c)..done]);
    EndsHas(c.processed, Ids(Fresh(es)));
    forall e | e in es && !e.change.Other?
      ensures BuildEventId(e) in ToSet(c.processed)
    {
      var i :| 0 <= i < |es| && es[i] == e;
      assert log[start + i].event == e;
      FreshIds(log, start, done, BuildEventId(e));
    }
    UnprocessedNothing(es, ToSet(c.processed));
  }

  // ----- one batch ---------------------------------------------------------

  lemma NoIdBefore(log: Log, a: nat, r: nat, i: nat)
    requires IdInOneLedger(log) && a <= r <= i < |log| && !log[i].event.change.Other?
    requires forall k :: 0 <= k < r ==> log[k].ledger < log[i].ledger
    ensures !HasId(log, a, r, BuildEventId(log[i].event))
  {
    assert forall k :: a <= k < r ==> !SameId(log[k].event, log[i].event);
  }

  /** No id of the ledgers before comes again from a ledger's start on. */
  lemma NoIdAgain(log: Log, a: nat, r: nat, q: nat)
    requires IdInOneLedger(log) && a <= r <= q <= |log|
    requires forall k, i :: 0 <= k < r <= i < |log| ==> log[k].ledger < log[i].ledger
    ensures SameFor(Events(log[r..q]), {}, ToSet(Ids(Fresh(Events(log[a..r])))))
  {
    var rest := Events(log[r..q]);
    forall e | e in rest && !e.change.Other?
      ensures BuildEventId(e) !in ToSet(Ids(Fresh(Events(log[a..r]))))
    {
      var i :| 0 <= i < |rest| && rest[i] == e;
      assert log[r + i].event == e;
      FreshIds(log, a, r, BuildEventId(e));
      NoIdBefore(log, a, r, r + i);
    }
  }

  lemma LedgersApart(log: Log, ledger: nat)
    requires InOrder(log)
    ensures
      var r := FirstAt(log, ledger);
      forall k, i :: 0 <= k < r <= i < |log| ==> log[k].ledger < log[i].ledger
  {
  }

  /** The fresh events from a ledger's start on do not depend on those before it. */
  lemma FreshFromLedger(log: Log, a: nat, ledger: nat, q: nat)
    requires IdInOneLedger(log) && a <= FirstAt(log, ledger) <= q <= |log|
    requires InOrder(log)
    ensures
      var r := FirstAt(log, ledger);
      Fresh(Events(log[a..q])) == Fresh(Events(log[a..r])) + Fresh(Events(log[r..q]))
  {
    var r := FirstAt(log, ledger);
    LedgersApart(log, ledger);
    NoIdAgain(log, a, r, q);
    FreshConcat(log, a, r, q, {});
  }

  lemma BatchKnows(log: Log, s: State, b: Batch, before: set<string>, first: nat, done: nat)
    requires NoTokens(log) && InOrder(log) && IdInOneLedger(log) && Clear(log, before, first)
    requires Honest(log, s.cursor, b) && Complete(log, s, b) && !Jumps(log, s, b)
    requires Knows(log, s.cursor, before, first, done) && done <= b.available
    ensures Knows(log, After(log, s, b).cursor, before, first, EndOf(log, s.cursor, b))
  {
    var start, q, next := StartOf(log, s.cursor), EndOf(log, s.cursor, b), After(log, s, b).cursor;
    AfterCursor(log, s, b);
    NoTokenInPage(log, s.cursor, b, next);
    LastTokenIn(PageAt(log, s.cursor, b), s.cursor.pagingToken);
    PageIsNew(log, s.cursor, before, first, done, q);
    EndsKept(log, s, b, before, first, done);
    FreshFromLedger(log, start, b.latest, q);
    IdsConcat(Fresh(Events(log[start..StartOf(log, next)])), Fresh(Events(log[StartOf(log, next)..q])));
    EndsWithEnd(next.processed, Ids(Fresh(Events(log[start..StartOf(log, next)]))),
                Ids(Fresh(Events(log[StartOf(log, next)..q]))));
    forall id | id in next.processed
      ensures id in before || HasId(log, first, q, id)
    {
      KnownFrom(log, s, b, before, first, done, id);
    }
  }

  lemma EndsKept(log: Log, s: State, b: Batch, before: set<string>, first: nat, done: nat)
    requires NoTokens(log) && InOrder(log) && IdInOneLedger(log) && Clear(log, before, first)
    requires Honest(log, s.cursor, b) && Complete(log, s, b)
    requires Knows(log, s.cursor, before, first, done) && done <= b.available
    ensures
      EndsWith(After(log, s, b).cursor.processed,
               Ids(Fresh(Events(log[StartOf(log, s.cursor)..EndOf(log, s.cursor, b)]))))
  {
    var start, q := StartOf(log, s.cursor), EndOf(log, s.cursor, b);
    var unseen := Unprocessed(PageAt(log, s.cursor, b), ToSet(s.cursor.processed));
    PageIsNew(log, s.cursor, before, first, done, q);
    var fetched := Fresh(Events(log[start..done]));
    UnprocessedNoLonger(Events(log[start..q]), {});
    IdsConcat(fetched, unseen);
    if unseen == [] {
      assert fetched + unseen == fetched;
    } else {
      PushEnds(s.cursor.processed, Ids(fetched), Ids(unseen));
    }
  }

  lemma KnownFrom(log: Log, s: State, b: Batch, before: set<string>, first: nat, done: nat, id: string)
    requires NoTokens(log) && Honest(log, s.cursor, b) && Complete(log, s, b)
    requires Knows(log, s.cursor, before, first, done) && done <= b.available
    requires id in After(log, s, b).cursor.processed
    ensures id in before || HasId(log, first, EndOf(log, s.cursor, b), id)
  {
    var page := PageAt(log, s.cursor, b);
    var unseen := Unprocessed(page, ToSet(s.cursor.processed));
    UnprocessedFrom(page, ToSet(s.cursor.processed));
    if id in s.cursor.processed {
      assert id in before || HasId(log, first, done, id);
    } else {
      PushedIds(s.cursor.processed, Ids(unseen), id);
      var i :| 0 <= i < |unseen| && Ids(unseen)[i] == id;
      assert unseen[i] in page;
      var k :| 0 <= k < |page| && page[k] == unseen[i];
      assert log[StartOf(log, s.cursor) + k].event == page[k];
    }
  }

  // ----- runs --------------------------------------------------------------

  /** What crashed attempts left in the table disappears when the events from the start on are applied again. */
  ghost predicate Absorbed(t: Table, exact: Table, log: Log, c: Cursor, reach: nat)
    requires StartOf(log, c) <= reach <= |log|
  {
    forall m :: reach <= m <= |log| ==> SameAfter(t, exact, log, c, m)
  }

  ghost predicate SameAfter(t: Table, exact: Table, log: Log, c: Cursor, m: nat)
    requires StartOf(log, c) <= m <= |log|
  {
    var unseen := Unprocessed(Events(log[StartOf(log, c)..m]), ToSet(c.processed));
    UpsertAll(t, unseen) == UpsertAll(exact, unseen)
  }

  ghost predicate KeptFresh(
      log: Log, s: State, t0: Table, before: set<string>, first: nat, done: nat, reach: nat, seen: nat)
  {
    && Knows(log, s.cursor, before, first, done)
    && done <= reach <= |log|
    && reach <= Max(done, Min(StartOf(log, s.cursor) + EVENT_LIMIT, seen)) && done <= Max(StartOf(log, s.cursor), seen)
    && Absorbed(s.settlements, UpsertAll(t0, Fresh(Events(log[first..done]))), log, s.cursor, reach)
  }

  lemma UnseenGrows(log: Log, c: Cursor, q: nat, m: nat)
    requires StartOf(log, c) <= q <= m <= |log|
    ensures
      Unprocessed(Events(log[StartOf(log, c)..q]), ToSet(c.processed)) <=
      Unprocessed(Events(log[StartOf(log, c)..m]), ToSet(c.processed))
  {
    var start := StartOf(log, c);
    assert Events(log[start..m])[..q - start] == Events(log[start..q]);
    UnprocessedPrefix(Events(log[start..m]), q - start, ToSet(c.processed));
  }

  lemma CrashKeepsFresh(t: Table, exact: Table, log: Log, c: Cursor, reach: nat, q: nat, n: nat)
    requires StartOf(log, c) <= reach <= q <= |log| && Absorbed(t, exact, log, c, reach)
    ensures
      var unseen := Unprocessed(Events(log[StartOf(log, c)..q]), ToSet(c.processed));
      Absorbed(UpsertAll(t, Prefix(unseen, n)), exact, log, c, q)
  {
    var unseen := Unprocessed(Events(log[StartOf(log, c)..q]), ToSet(c.processed));
    forall m | q <= m <= |log|
      ensures SameAfter(UpsertAll(t, Prefix(unseen, n)), exact, log, c, m)
    {
      assert SameAfter(t, exact, log, c, m);
      UnseenGrows(log, c, q, m);
      PrefixAbsorbed(t, Prefix(unseen, n), Unprocessed(Events(log[StartOf(log, c)..m]), ToSet(c.processed)));
    }
  }

  lemma ExactAbsorbed(t: Table, log: Log, c: Cursor, reach: nat)
    requires StartOf(log, c) <= reach <= |log|
    ensures Absorbed(t, t, log, c, reach)
  {
    assert forall m :: reach <= m <= |log| ==> SameAfter(t, t, log, c, m);
  }

  lemma BatchKeepsFresh(
      log: Log, s: State, b: Batch, t0: Table, before: set<string>, first: nat, done: nat, reach: nat, seen: nat)
    requires NoTokens(log) && InOrder(log) && IdInOneLedger(log) && Clear(log, before, first)
    requires Honest(log, s.cursor, b) && !Jumps(log, s, b) && seen <= b.available
    requires KeptFresh(log, s, t0, before, first, done, reach, seen)
    ensures
      var end := EndOf(log, s.cursor, b);
      KeptFresh(log, After(log, s, b), t0, before, first, if Complete(log, s, b) then end else done, end, b.available)
  {
    var end := EndOf(log, s.cursor, b);
    AfterCursor(log, s, b);
    if Complete(log, s, b) {
      CompleteKeepsFresh(log, s, b, t0, before, first, done, reach, seen);
    } else {
      CrashKeepsFresh(s.settlements, UpsertAll(t0, Fresh(Events(log[first..done]))), log, s.cursor, reach, end,
                      b.survived);
    }
  }

  lemma CompleteKeepsFresh(
      log: Log, s: State, b: Batch, t0: Table, before: set<string>, first: nat, done: nat, reach: nat, seen: nat)
    requires NoTokens(log) && InOrder(log) && IdInOneLedger(log) && Clear(log, before, first)
    requires Honest(log, s.cursor, b) && Complete(log, s, b) && !Jumps(log, s, b) && seen <= b.available
    requires KeptFresh(log, s, t0, before, first, done, reach, seen)
    ensures
      KeptFresh(log, After(log, s, b), t0, before, first, EndOf(log, s.cursor, b), EndOf(log, s.cursor, b), b.available)
  {
    var end, unseen := EndOf(log, s.cursor, b), Unprocessed(PageAt(log, s.cursor, b), ToSet(s.cursor.processed));
    var exact := UpsertAll(t0, Fresh(Events(log[first..done])));
    BatchKnows(log, s, b, before, first, done);
    PageIsNew(log, s.cursor, before, first, done, end);
    assert SameAfter(s.settlements, exact, log, s.cursor, end);
    UpsertConcat(t0, Fresh(Events(log[first..done])), unseen);
    assert Prefix(unseen, b.survived) == unseen;
    ExactAbsorbed(After(log, s, b).settlements, log, After(log, s, b).cursor, end);
  }

  /** How far the complete batches of the run have fetched. */
  function FetchedTo(log: Log, s: State, seen: nat, bs: seq<Batch>, done: nat): nat
    requires HonestRun(log, s, seen, bs)
    decreases |bs|
  {
    if bs == [] then done
    else
      FetchedTo(log, After(log, s, bs[0]), bs[0].available, bs[1..],
                if Complete(log, s, bs[0]) then EndOf(log, s.cursor, bs[0]) else done)
  }

  lemma {:induction false} RunKeepsFresh(
      log: Log, s: State, seen: nat, bs: seq<Batch>, t0: Table, before: set<string>, first: nat, done: nat, reach: nat)
    returns (newReach: nat, newSeen: nat)
    requires NoTokens(log) && InOrder(log) && IdInOneLedger(log) && Clear(log, before, first)
    requires HonestRun(log, s, seen, bs) && NeverJumps(log, s, seen, bs)
    requires KeptFresh(log, s, t0, before, first, done, reach, seen)
    ensures
      KeptFresh(
        log, AfterRun(log, s, seen, bs), t0, before, first, FetchedTo(log, s, seen, bs, done), newReach, newSeen)
    ensures bs == [] ==> newReach == reach
    ensures EndsComplete(log, s, seen, bs) ==> newReach == FetchedTo(log, s, seen, bs, done)
    decreases |bs|
  {
    if bs == [] {
      newReach, newSeen := reach, seen;
    } else {
      var b := bs[0];
      BatchKeepsFresh(log, s, b, t0, before, first, done, reach, seen);
      newReach, newSeen := RunKeepsFresh(
        log, After(log, s, b), b.available, bs[1..], t0, before, first,
        if Complete(log, s, b) then EndOf(log, s.cursor, b) else done, EndOf(log, s.cursor, b));
    }
  }

  /**
   Without tokens, over any number of batches, crashed ones among them, of which none jumps: a
   complete one leaves the table that the events fetched so far make, the first one of each id.
   */
  lemma WithoutTokensExact(log: Log, s: State, seen: nat, bs: seq<Batch>)
    requires NoTokens(log) && InOrder(log) && IdInOneLedger(log) && !HasToken(s.cursor)
    requires Clear(log, ToSet(s.cursor.processed), StartOf(log, s.cursor))
    requires HonestRun(log, s, seen, bs) && NeverJumps(log, s, seen, bs) && EndsComplete(log, s, seen, bs)
    ensures
      var first, end := StartOf(log, s.cursor), AfterRun(log, s, seen, bs);
      var to := FetchedTo(log, s, seen, bs, first);
      && first <= StartOf(log, end.cursor) <= to <= |log|
      && end.settlements == UpsertAll(s.settlements, Fresh(Events(log[first..to])))
  {
    var first, end := StartOf(log, s.cursor), AfterRun(log, s, seen, bs);
    var before := ToSet(s.cursor.processed);
    assert Events(log[first..first]) == [];
    ExactAbsorbed(s.settlements, log, s.cursor, first);
    assert KeptFresh(log, s, s.settlements, before, first, first, first, seen);
    var reach, newSeen := RunKeepsFresh(log, s, seen, bs, s.settlements, before, first, first, first);
    var exact := UpsertAll(s.settlements, Fresh(Events(log[first..reach])));
    assert SameAfter(end.settlements, exact, log, end.cursor, reach);
    SkipsFetched(log, end.cursor, before, first, reach);
  }
}
