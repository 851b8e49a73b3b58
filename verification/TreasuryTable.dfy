/**
 What the settlements table says after any events: every field by itself, from an empty table.
 */
module TreasuryTable {
  import opened Common
  import opened TreasuryIndexer

  datatype Kind = Proposal | Approval | Execution

  predicate Concerns(e: Event, id: nat, kind: Kind) {
    e.settlement == id &&
    match kind
    case Proposal => e.change.Proposed?
    case Approval => e.change.Approved?
    case Execution => e.change.Executed?
  }

  /** The last event of the kind for the settlement. */
  function Latest(es: seq<Event>, id: nat, kind: Kind): (last: Option<Event>)
    ensures last.Some? ==> last.value in es && Concerns(last.value, id, kind)
    ensures last.None? ==> forall e :: e in es ==> !Concerns(e, id, kind)
    decreases |es|
  {
    if es == [] then None
    else if Concerns(es[|es| - 1], id, kind) then Some(es[|es| - 1])
    else Latest(es[..|es| - 1], id, kind)
  }

  /** Executed by the last execution, or Pending without one. */
  predicate StatusShows(s: Settlement, last: Option<Event>) {
    match last
    case None => s.status == Pending && s.executedTx == None
    case Some(e) => s.status == Status.Executed && s.executedTx == Some(e.txHash)
  }

  /** What the last proposal proposes, or nothing. */
  predicate ProposalShows(s: Settlement, last: Option<Event>)
    requires last.Some? ==> last.value.change.Proposed?
  {
    match last
    case None => s.merchant == "" && s.amount == "0" && s.token == "" && s.proposedTx == None
    case Some(e) =>
      && s.merchant == e.change.merchant && s.amount == e.change.amount && s.token == e.change.token
      && s.proposedTx == Some(e.txHash)
  }

  predicate WeightShows(s: Settlement, last: Option<Event>)
    requires last.Some? ==> last.value.change.Approved?
  {
    s.approvalWeight == if last.Some? then last.value.change.newWeight else 0
  }

  /** The signers are the approvers, each once. */
  ghost predicate SignersShow(s: Settlement, es: seq<Event>, id: nat) {
    && (forall x :: x in s.approvals <==> exists e :: e in es && Concerns(e, id, Approval) && e.change.signer == x)
    && NoDuplicates(s.approvals)
  }

  /** All but the signers, by the last event of each kind. */
  ghost predicate FieldsShow(s: Settlement, es: seq<Event>, id: nat) {
    && StatusShows(s, Latest(es, id, Execution)) && ProposalShows(s, Latest(es, id, Proposal))
    && WeightShows(s, Latest(es, id, Approval)) && s.holdReason == None
  }

  ghost predicate Shows(s: Settlement, es: seq<Event>, id: nat) {
    FieldsShow(s, es, id) && SignersShow(s, es, id)
  }

  /** A settlement no event concerns. */
  const NOTHING := Settlement("", "0", "", [], 0, Pending, None, None, None)

  predicate Concerned(es: seq<Event>, id: nat) {
    Latest(es, id, Proposal).Some? || Latest(es, id, Approval).Some? || Latest(es, id, Execution).Some?
  }

  lemma SignersStep(s: Settlement, es: seq<Event>, e: Event, id: nat)
    requires SignersShow(s, es, id)
    ensures e.settlement == id ==> SignersShow(Update(s, e), es + [e], id)
    ensures !Concerns(e, id, Approval) ==> SignersShow(s, es + [e], id)
  {
    assert forall x :: x in es + [e] <==> x in es || x == e;
  }

  lemma LatestStep(es: seq<Event>, e: Event, id: nat, kind: Kind)
    ensures Latest(es + [e], id, kind) == if Concerns(e, id, kind) then Some(e) else Latest(es, id, kind)
  {
    assert (es + [e])[..|es|] == es;
  }

  lemma FieldsStep(s: Settlement, es: seq<Event>, e: Event, id: nat)
    requires FieldsShow(s, es, id)
    ensures e.settlement == id && !e.change.Other? ==> FieldsShow(Update(s, e), es + [e], id)
    ensures e.settlement != id || e.change.Other? ==> FieldsShow(s, es + [e], id)
  {
    LatestStep(es, e, id, Execution);
    LatestStep(es, e, id, Proposal);
    LatestStep(es, e, id, Approval);
  }

  lemma ShowsStep(s: Settlement, es: seq<Event>, e: Event, id: nat)
    requires Shows(s, es, id)
    ensures e.settlement == id && !e.change.Other? ==> Shows(Update(s, e), es + [e], id)
    ensures e.settlement != id || e.change.Other? ==> Shows(s, es + [e], id)
  {
    FieldsStep(s, es, e, id);
    SignersStep(s, es, e, id);
  }

  /** A settlement is in the table exactly if an event concerns it, and then shows what the events say. */
  lemma {:induction false} TableShows(es: seq<Event>, id: nat)
    ensures id in UpsertAll(map[], es) <==> Concerned(es, id)
    ensures Shows(if id in UpsertAll(map[], es) then UpsertAll(map[], es)[id] else NOTHING, es, id)
    decreases |es|
  {
    if es != [] {
      var init, e := es[..|es| - 1], es[|es| - 1];
      var before := UpsertAll(map[], init);
      TableShows(init, id);
      assert es == init + [e];
      ShowsStep(if id in before then before[id] else NOTHING, init, e, id);
    }
  }
}
