/**
 The treasury indexer applies a batch of settlement events by upserts and saves
 its cursor only after the whole batch. A crash inside the batch leaves the
 settlements as some prefix of the batch left them, and the batch is replayed.
 */
module TreasuryIndexer {
  import opened Common
  import opened Numerals
  import opened Texts

  datatype Status = Pending | Executed | PartiallyExecuted | OnHold | Cancelled

  datatype Settlement = Settlement(
    merchant: string,
    amount: string,
    token: string,
    approvals: seq<string>,
    approvalWeight: nat,
    status: Status,
    holdReason: Option<string>,
    proposedTx: Option<string>,
    executedTx: Option<string>)

  type Table = map<nat, Settlement>

  datatype Change =
    | Proposed(token: string, amount: string, merchant: string)
    | Approved(signer: string, newWeight: nat)
    | Executed
    | Other

  datatype Event = Event(pagingToken: Option<string>, txHash: string, settlement: nat, change: Change)

  datatype Cursor = Cursor(pagingToken: Option<string>, lastLedger: nat, processed: seq<string>)

  const MAX_PROCESSED := 1000

  // ----- the upserts -------------------------------------------------------

  /** $addToSet. */
  function AddToSet(xs: seq<string>, x: string): seq<string> {
    if x in xs then xs else xs + [x]
  }

  /** What $setOnInsert gives a settlement its first event creates. */
  const INSERTED := Settlement("", "0", "", [], 0, Pending, None, None, None)

  function Update(s: Settlement, e: Event): Settlement {
    match e.change
    case Proposed(token, amount, merchant) =>
      s.(merchant := merchant, amount := amount, token := token, proposedTx := Some(e.txHash))
    case Approved(signer, newWeight) =>
      s.(approvals := AddToSet(s.approvals, signer), approvalWeight := newWeight)
    case Executed => s.(status := Status.Executed, executedTx := Some(e.txHash))
    case Other => s
  }

  function Lookup(t: Table, id: nat): Settlement {
    if id in t then t[id] else INSERTED
  }

  function Upsert(t: Table, e: Event): Table {
    if e.change.Other? then t else t[e.settlement := Update(Lookup(t, e.settlement), e)]
  }

  function UpsertAll(t: Table, es: seq<Event>): Table
    decreases |es|
  {
    if es == [] then t else Upsert(UpsertAll(t, es[..|es| - 1]), es[|es| - 1])
  }

  // ----- skipping processed events -----------------------------------------

  function EventTypeName(c: Change): string {
    match c
    case Proposed(_, _, _) => "settlement_proposed"
    case Approved(_, _) => "settlement_approved"
    case Executed => "settlement_executed"
    case Other => ""
  }

  function BuildEventId(e: Event): string {
    if e.pagingToken.Some? && e.pagingToken.value != "" then e.pagingToken.value
    else e.txHash + ([':'] + (EventTypeName(e.change) + ([':'] + Digits(e.settlement))))
  }

  /** The events of a batch that are neither of another type nor processed before, in order. */
  function Unprocessed(es: seq<Event>, processed: set<string>): seq<Event>
    decreases |es|
  {
    if es == [] then []
    else if es[0].change.Other? || BuildEventId(es[0]) in processed then Unprocessed(es[1..], processed)
    else [es[0]] + Unprocessed(es[1..], processed + {BuildEventId(es[0])})
  }

  function Ids(es: seq<Event>): (ids: seq<string>)
    ensures |ids| == |es|
  {
    seq(|es|, i requires 0 <= i < |es| => BuildEventId(es[i]))
  }

  function ToSet(xs: seq<string>): set<string> {
    set x | x in xs
  }

  /** $push with $slice: -1000. */
  function PushIds(processed: seq<string>, pushed: seq<string>): seq<string> {
    var all := processed + pushed;
    if |all| <= MAX_PROCESSED then all else all[|all| - MAX_PROCESSED..]
  }

  // ----- replay ------------------------------------------------------------

  function TakeSigners(xs: seq<string>, es: seq<Event>, id: nat): seq<string>
    decreases |es|
  {
    if es == [] then xs
    else
      var ys := TakeSigners(xs, es[..|es| - 1], id);
      var e := es[|es| - 1];
      if e.change.Approved? && e.settlement == id then AddToSet(ys, e.change.signer) else ys
  }

  /** The last event of one kind for one settlement. */
  function Last(es: seq<Event>, id: nat, kind: Change -> bool): Option<Event>
    decreases |es|
  {
    if es == [] then None
    else if es[|es| - 1].settlement == id && kind(es[|es| - 1].change) then Some(es[|es| - 1])
    else Last(es[..|es| - 1], id, kind)
  }

  function Touches(es: seq<Event>, id: nat): bool
    decreases |es|
  {
    es != [] && ((es[|es| - 1].settlement == id && !es[|es| - 1].change.Other?) || Touches(es[..|es| - 1], id))
  }

  /** A batch in closed form: every field is decided by the last event that sets it. */
  function Merge(s: Settlement, es: seq<Event>, id: nat): Settlement {
    var p := Last(es, id, (c: Change) => c.Proposed?);
    var a := Last(es, id, (c: Change) => c.Approved?);
    var x := Last(es, id, (c: Change) => c.Executed?);
    Settlement(
      if p.Some? && p.value.change.Proposed? then p.value.change.merchant else s.merchant,
      if p.Some? && p.value.change.Proposed? then p.value.change.amount else s.amount,
      if p.Some? && p.value.change.Proposed? then p.value.change.token else s.token,
      TakeSigners(s.approvals, es, id),
      if a.Some? && a.value.change.Approved? then a.value.change.newWeight else s.approvalWeight,
      if x.Some? then Status.Executed else s.status,
      s.holdReason,
      if p.Some? then Some(p.value.txHash) else s.proposedTx,
      if x.Some? then Some(x.value.txHash) else s.executedTx)
  }

  /** Each field of each settlement after a batch is what the last event setting it says. */
  lemma {:induction false} BatchClosedForm(t: Table, es: seq<Event>, id: nat)
    ensures id in UpsertAll(t, es) <==> id in t || Touches(es, id)
    ensures id in UpsertAll(t, es) ==> UpsertAll(t, es)[id] == Merge(Lookup(t, id), es, id)
    ensures id !in UpsertAll(t, es) ==> Merge(Lookup(t, id), es, id) == INSERTED
    decreases |es|
  {
    if es != [] {
      var init, e := es[..|es| - 1], es[|es| - 1];
      BatchClosedForm(t, init, id);
      if e.settlement == id {
        MergeNext(Lookup(t, id), es, id);
      }
    }
  }

  lemma MergeNext(s: Settlement, es: seq<Event>, id: nat)
    requires es != [] && es[|es| - 1].settlement == id
    ensures Merge(s, es, id) == Update(Merge(s, es[..|es| - 1], id), es[|es| - 1])
  {
  }

  lemma {:induction false} SignersKept(xs: seq<string>, es: seq<Event>, id: nat)
    ensures xs <= TakeSigners(xs, es, id)
    ensures forall e :: e in es && e.change.Approved? && e.settlement == id ==>
      e.change.signer in TakeSigners(xs, es, id)
    decreases |es|
  {
    if es != [] {
      SignersKept(xs, es[..|es| - 1], id);
      assert forall e :: e in es ==> e in es[..|es| - 1] || e == es[|es| - 1];
    }
  }

  lemma {:induction false} SignersAbsorbed(xs: seq<string>, es: seq<Event>, id: nat)
    requires forall e :: e in es && e.change.Approved? && e.settlement == id ==> e.change.signer in xs
    ensures TakeSigners(xs, es, id) == xs
    decreases |es|
  {
    if es != [] {
      SignersAbsorbed(xs, es[..|es| - 1], id);
      assert es[|es| - 1] in es;
    }
  }

  /** Replaying a batch that went through completely changes nothing. */
  lemma BatchIdempotent(t: Table, es: seq<Event>)
    ensures UpsertAll(UpsertAll(t, es), es) == UpsertAll(t, es)
  {
    var once := UpsertAll(t, es);
    var twice := UpsertAll(once, es);
    forall id: nat
      ensures id in twice <==> id in once
      ensures id in once ==> twice[id] == once[id]
    {
      BatchClosedForm(t, es, id);
      BatchClosedForm(once, es, id);
      SignersKept(Lookup(t, id).approvals, es, id);
      SignersAbsorbed(TakeSigners(Lookup(t, id).approvals, es, id), es, id);
    }
  }

  lemma {:induction false} UpsertConcat(t: Table, a: seq<Event>, b: seq<Event>)
    ensures UpsertAll(t, a + b) == UpsertAll(UpsertAll(t, a), b)
    decreases |b|
  {
    if b == [] {
      assert a + b == a;
    } else {
      assert (a + b)[..|a + b| - 1] == a + b[..|b| - 1];
      UpsertConcat(t, a, b[..|b| - 1]);
    }
  }

  lemma PrefixAbsorbed(t: Table, p: seq<Event>, es: seq<Event>)
    requires p <= es
    ensures UpsertAll(UpsertAll(t, p), es) == UpsertAll(t, es)
  {
    assert es == p + es[|p|..];
    UpsertConcat(UpsertAll(t, p), p, es[|p|..]);
    BatchIdempotent(t, p);
    UpsertConcat(t, p, es[|p|..]);
  }

  /** A crashed attempt: the batch the node returned, and the upserts that got through. */
  datatype Attempt = Attempt(batch: seq<Event>, survived: nat)

  function AfterAttempts(t: Table, attempts: seq<Attempt>, processed: set<string>): Table
    decreases |attempts|
  {
    if attempts == [] then t
    else
      var unseen := Unprocessed(attempts[0].batch, processed);
      AfterAttempts(UpsertAll(t, Prefix(unseen, attempts[0].survived)), attempts[1..], processed)
  }

  /**
   Any number of crashes, anywhere in the batch, then one complete pass over a
   batch at least as long, is the same as the complete pass alone.
   */
  lemma {:induction false} ReplayConverges(t: Table, attempts: seq<Attempt>, final: seq<Event>, processed: set<string>)
    requires forall a :: a in attempts ==> a.batch <= final
    ensures UpsertAll(AfterAttempts(t, attempts, processed), Unprocessed(final, processed)) ==
            UpsertAll(t, Unprocessed(final, processed))
    decreases |attempts|
  {
    if attempts != [] {
      var a := attempts[0];
      assert a in attempts;
      var unseen := Unprocessed(a.batch, processed);
      assert final[..|a.batch|] == a.batch;
      UnprocessedPrefix(final, |a.batch|, processed);
      ReplayConverges(UpsertAll(t, Prefix(unseen, a.survived)), attempts[1..], final, processed);
      PrefixAbsorbed(t, Prefix(unseen, a.survived), Unprocessed(final, processed));
    }
  }

  /** No batch un-executes a settlement, drops it, or drops or reorders an approval. */
  lemma {:induction false} ExecutedAndApprovalsStay(t: Table, es: seq<Event>, id: nat)
    requires id in t
    ensures id in UpsertAll(t, es)
    ensures t[id].approvals <= UpsertAll(t, es)[id].approvals
    ensures t[id].status == Status.Executed ==> UpsertAll(t, es)[id].status == Status.Executed
    ensures NoDuplicates(t[id].approvals) ==> NoDuplicates(UpsertAll(t, es)[id].approvals)
    decreases |es|
  {
    if es != [] {
      ExecutedAndApprovalsStay(t, es[..|es| - 1], id);
    }
  }

  /** What a crash leaves of a batch is a batch of its own: skipping commutes with cutting. */
  lemma {:induction false} UnprocessedPrefix(es: seq<Event>, n: nat, processed: set<string>)
    requires n <= |es|
    ensures Unprocessed(es[..n], processed) <= Unprocessed(es, processed)
    decreases |es|
  {
    if n > 0 {
      assert es[..n][1..] == es[1..][..n - 1];
      if es[0].change.Other? || BuildEventId(es[0]) in processed {
        UnprocessedPrefix(es[1..], n - 1, processed);
      } else {
        UnprocessedPrefix(es[1..], n - 1, processed + {BuildEventId(es[0])});
      }
    } else {
      assert es[..n] == [];
    }
  }

  // ----- event ids ---------------------------------------------------------

  lemma SplitAtColon(a: string, x: string, b: string, y: string)
    requires ':' !in a && ':' !in b && a + ([':'] + x) == b + ([':'] + y)
    ensures a == b && x == y
  {
    var s := a + ([':'] + x);
    IndexFound(a, [':'] + x, ':');
    IndexFound(b, [':'] + y, ':');
    assert s[..|a|] == a && s[..|b|] == b;
    assert s[|a| + 1..] == x && s[|b| + 1..] == y;
  }

  /**
   Without paging tokens the id of an event identifies the transaction, the type
   and the settlement, and nothing more.
   */
  lemma FallbackIdIdentifies(e: Event, f: Event)
    requires e.pagingToken.None? && f.pagingToken.None?
    requires ':' !in e.txHash && ':' !in f.txHash && !e.change.Other? && !f.change.Other?
    ensures BuildEventId(e) == BuildEventId(f) <==>
      e.txHash == f.txHash && EventTypeName(e.change) == EventTypeName(f.change) && e.settlement == f.settlement
  {
    if BuildEventId(e) == BuildEventId(f) {
      var en, fn := EventTypeName(e.change), EventTypeName(f.change);
      var ed, fd := Digits(e.settlement), Digits(f.settlement);
      SplitAtColon(e.txHash, en + ([':'] + ed), f.txHash, fn + ([':'] + fd));
      SplitAtColon(en, ed, fn, fd);
      ValueOfDigits(e.settlement);
      ValueOfDigits(f.settlement);
    }
  }

  /** The id an event has: its paging token, or else its transaction, type and settlement. */
  lemma EventIdSpelled(e: Event)
    requires !e.change.Other?
    ensures e.pagingToken.Some? && e.pagingToken.value != "" ==> BuildEventId(e) == e.pagingToken.value
    ensures e.pagingToken.None? || e.pagingToken == Some("") ==>
      var name := if e.change.Proposed? then "settlement_proposed"
                  else if e.change.Approved? then "settlement_approved" else "settlement_executed";
      BuildEventId(e) == e.txHash + ([':'] + (name + ([':'] + Digits(e.settlement))))
  {
  }

  /**
   So the id is not unique: of two approvals of one settlement in one transaction,
   delivered without paging tokens, the second signer is skipped as a duplicate.
   */
  lemma SecondApprovalInTransactionIsSkipped(txHash: string, id: nat, a: string, b: string, v: nat, w: nat)
    ensures var e, f := Event(None, txHash, id, Approved(a, v)), Event(None, txHash, id, Approved(b, w));
      Unprocessed([e, f], {}) == [e]
  {
    var e, f := Event(None, txHash, id, Approved(a, v)), Event(None, txHash, id, Approved(b, w));
    var ids := {} + {BuildEventId(e)};
    assert BuildEventId(e) == BuildEventId(f);
    assert [f][1..] == [] && [e, f][1..] == [f];
    assert Unprocessed([f], ids) == Unprocessed([], ids) == [];
  }

  lemma {:induction false} UnprocessedNothing(es: seq<Event>, processed: set<string>)
    requires forall e :: e in es && !e.change.Other? ==> BuildEventId(e) in processed
    ensures Unprocessed(es, processed) == []
    decreases |es|
  {
    if es != [] {
      assert es[0] in es;
      UnprocessedNothing(es[1..], processed);
    }
  }

  lemma {:induction false} UnprocessedCovers(es: seq<Event>, processed: set<string>)
    ensures forall e :: e in es && !e.change.Other? ==>
      BuildEventId(e) in processed || BuildEventId(e) in Ids(Unprocessed(es, processed))
    decreases |es|
  {
    if es != [] {
      var id := BuildEventId(es[0]);
      var processed' := if es[0].change.Other? || id in processed then processed else processed + {id};
      UnprocessedCovers(es[1..], processed');
      var rest := Ids(Unprocessed(es[1..], processed'));
      assert processed' != processed ==> Ids(Unprocessed(es, processed)) == [id] + rest;
      assert forall e :: e in es ==> e == es[0] || e in es[1..];
    }
  }

  /** How many of the ids held make room for n new ones. */
  function Dropped(processed: seq<string>, n: nat): (d: nat)
    requires n <= 1000
    ensures |processed| <= 1000 ==> d <= n
    ensures d <= |processed|
  {
    Max(0, |processed| + n - 1000)
  }

  /**
   Once a batch is saved, replaying it applies nothing exactly if each of its events that had
   been applied earlier still has its id among those that were not dropped.
   */
  lemma SavedBatchIsSkipped(es: seq<Event>, processed: seq<string>)
    requires |Unprocessed(es, ToSet(processed))| <= 1000
    ensures
      var pushed := Ids(Unprocessed(es, ToSet(processed)));
      var d := Dropped(processed, |pushed|);
      Unprocessed(es, ToSet(PushIds(processed, pushed))) == [] <==>
      forall e :: e in es && !e.change.Other? && BuildEventId(e) in processed ==> BuildEventId(e) in processed[d..]
  {
    var pushed := Ids(Unprocessed(es, ToSet(processed)));
    var kept := PushIds(processed, pushed);
    var d := Dropped(processed, |pushed|);
    assert kept == processed[d..] + pushed;
    UnprocessedCovers(es, ToSet(processed));
    UnprocessedCovers(es, ToSet(kept));
    if Unprocessed(es, ToSet(kept)) == [] {
      UnprocessedNew(es, ToSet(processed));
    } else if forall e :: e in es && !e.change.Other? ==> BuildEventId(e) in kept {
      UnprocessedNothing(es, ToSet(kept));
    }
  }

  lemma {:induction false} UnprocessedNew(es: seq<Event>, processed: set<string>)
    ensures forall id :: id in Ids(Unprocessed(es, processed)) ==> id !in processed
    decreases |es|
  {
    if es != [] {
      var id := BuildEventId(es[0]);
      if es[0].change.Other? || id in processed {
        UnprocessedNew(es[1..], processed);
      } else {
        UnprocessedNew(es[1..], processed + {id});
        assert Ids(Unprocessed(es, processed)) == [id] + Ids(Unprocessed(es[1..], processed + {id}));
      }
    }
  }

  // ----- the batch loop ----------------------------------------------------

  function LastToken(es: seq<Event>, token: Option<string>): Option<string>
    decreases |es|
  {
    if es == [] then token
    else if es[|es| - 1].pagingToken.Some? then es[|es| - 1].pagingToken
    else LastToken(es[..|es| - 1], token)
  }

  /** A new cursor is saved only if all the upserts and the save itself get through. */
  function AfterBatch(
      t: Table, c: Cursor, events: seq<Event>, latestLedger: Option<nat>, survives: nat): (Table, Cursor)
  {
    var unseen := Unprocessed(events, ToSet(c.processed));
    (UpsertAll(t, Prefix(unseen, survives)),
     if survives <= |unseen| then c
     else Cursor(LastToken(events, c.pagingToken), latestLedger.GetOr(c.lastLedger),
                 if unseen == [] then c.processed else PushIds(c.processed, Ids(unseen))))
  }

  /** The indexer against its database; `survives` counts the writes it still gets through. */
  class Indexer {
    var settlements: Table
    var cursor: Cursor
    var survives: nat

    constructor (settlements: Table, cursor: Cursor, survives: nat)
      ensures this.settlements == settlements && this.cursor == cursor && this.survives == survives
    {
      this.settlements, this.cursor, this.survives := settlements, cursor, survives;
    }

    method ProcessEvent(e: Event)
      requires !e.change.Other?
      modifies this`settlements
      ensures settlements == Upsert(old(settlements), e)
    {
      if e.settlement !in settlements {
        settlements := settlements[e.settlement := INSERTED];
      }
      var s := settlements[e.settlement];
      match e.change {
        case Proposed(token, amount, merchant) =>
          s := s.(merchant := merchant, amount := amount, token := token, proposedTx := Some(e.txHash));
        case Approved(signer, newWeight) =>
          if signer !in s.approvals {
            s := s.(approvals := s.approvals + [signer]);
          }
          s := s.(approvalWeight := newWeight);
        case Executed =>
          s := s.(status := Status.Executed, executedTx := Some(e.txHash));
        case Other =>
      }
      settlements := settlements[e.settlement := s];
    }

    /** The loop over the batch. Without `alive` the process died before the end. */
    method ApplyEvents(events: seq<Event>, processed: set<string>) returns (newEventIds: seq<string>, alive: bool)
      modifies this`settlements, this`survives
      ensures var unseen := Unprocessed(events, processed);
        && settlements == UpsertAll(old(settlements), Prefix(unseen, old(survives)))
        && (alive <==> old(survives) >= |unseen|)
        && (alive ==> survives == old(survives) - |unseen| && newEventIds == Ids(unseen))
    {
      var processedIds := processed;
      newEventIds := [];
      ghost var done: seq<Event> := [];
      ghost var unseen := Unprocessed(events, processed);
      for i := 0 to |events|
        invariant unseen == done + Unprocessed(events[i..], processedIds)
        invariant settlements == UpsertAll(old(settlements), done)
        invariant survives + |done| == old(survives)
        invariant newEventIds == Ids(done)
      {
        var e := events[i];
        assert events[i..][0] == e && events[i..][1..] == events[i + 1..];
        var eventId := BuildEventId(e);
        if !e.change.Other? && eventId !in processedIds {
          if survives == 0 {
            assert Prefix(unseen, old(survives)) == done;
            return newEventIds, false;
          }
          survives := survives - 1;
          ProcessEvent(e);
          assert (done + [e])[..|done|] == done;
          done := done + [e];
          processedIds := processedIds + {eventId};
          newEventIds := newEventIds + [eventId];
        }
      }
      assert events[|events|..] == [];
      assert Prefix(unseen, old(survives)) == unseen == done;
      return newEventIds, true;
    }

    /**
     Applies one batch and then saves the cursor. None means that the process died
     on the way, in which case the cursor is untouched.
     */
    method ProcessIndexerBatch(events: seq<Event>, latestLedger: Option<nat>) returns (processed: Option<nat>)
      modifies this
      ensures (settlements, cursor) == AfterBatch(old(settlements), old(cursor), events, latestLedger, old(survives))
      ensures
        var unseen := Unprocessed(events, ToSet(old(cursor).processed));
        processed == if old(survives) <= |unseen| then None else Some(|unseen|)
    {
      var newEventIds, alive := ApplyEvents(events, ToSet(cursor.processed));
      if !alive || survives == 0 { return None; }
      survives := survives - 1;
      var lastPagingToken := LastToken(events, cursor.pagingToken);
      var lastLedger := latestLedger.GetOr(cursor.lastLedger);
      if |newEventIds| > 0 {
        cursor := Cursor(lastPagingToken, lastLedger, PushIds(cursor.processed, newEventIds));
      } else {
        cursor := Cursor(lastPagingToken, lastLedger, cursor.processed);
      }
      return Some(|newEventIds|);
    }
  }
}
