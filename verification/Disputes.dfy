/**
 Dispute votes: weights per side, an outcome once one side reaches the threshold, and
 ids for new disputes.
 */
module Disputes {
  import opened Common
  import opened Numerals
  import opened Texts

  datatype Side = Claimant | Counterparty

  type Weight = w: nat | w > 0 witness 1

  datatype Vote = Vote(signer: string, side: Side, weight: Weight, votedAt: int)

  /** What Number makes of the environment variable; nothing compares with NaN. */
  datatype Threshold = Number(value: real) | Infinity | NegativeInfinity | NaN

  predicate Reaches(weight: int, t: Threshold) {
    t.NegativeInfinity? || (t.Number? && weight as real >= t.value)
  }

  predicate Below(weight: int, t: Threshold) {
    t.Infinity? || (t.Number? && (weight as real) < t.value)
  }

  predicate Positive(t: Threshold) {
    t.Infinity? || (t.Number? && t.value > 0.0)
  }

  /** The state of a dispute record that votes change. */
  datatype Tally = Tally(votes: seq<Vote>, claimantWeight: int, counterpartyWeight: int, outcome: Option<Side>,
                         resolvedAt: Option<int>)

  datatype Answer = Counted(outcome: Option<Side>) | AlreadyResolved(resolved: Side) | AlreadyVoted | NotFound

  predicate HasVoted(votes: seq<Vote>, signer: string) {
    exists i :: 0 <= i < |votes| && votes[i].signer == signer
  }

  function Decide(threshold: Threshold, claimantWeight: int, counterpartyWeight: int): Option<Side> {
    if Reaches(claimantWeight, threshold) then Some(Claimant)
    else if Reaches(counterpartyWeight, threshold) then Some(Counterparty)
    else None
  }

  function Cast(threshold: Threshold, t: Tally, v: Vote): (Tally, Answer) {
    if t.outcome.Some? then (t, AlreadyResolved(t.outcome.value))
    else if HasVoted(t.votes, v.signer) then (t, AlreadyVoted)
    else
      var claimant := t.claimantWeight + if v.side.Claimant? then v.weight else 0;
      var counterparty := t.counterpartyWeight + if v.side.Counterparty? then v.weight else 0;
      var outcome := Decide(threshold, claimant, counterparty);
      (Tally(t.votes + [v], claimant, counterparty, outcome, if outcome.Some? then Some(v.votedAt) else t.resolvedAt),
       Counted(outcome))
  }

  const FRESH := Tally([], 0, 0, None, None)

  // ----- the store ---------------------------------------------------------

  class DisputeRecord {
    const disputeId: string
    const settlementId: string
    const createdAt: nat
    var votes: seq<Vote>
    var claimantWeight: int
    var counterpartyWeight: int
    var outcome: Option<Side>
    var resolvedAt: Option<int>

    constructor (disputeId: string, settlementId: string, createdAt: nat)
      ensures this.disputeId == disputeId && this.settlementId == settlementId && this.createdAt == createdAt
      ensures TallyOf() == FRESH
    {
      this.disputeId, this.settlementId, this.createdAt := disputeId, settlementId, createdAt;
      votes, claimantWeight, counterpartyWeight, outcome, resolvedAt := [], 0, 0, None, None;
    }

    function TallyOf(): Tally
      reads this
    {
      Tally(votes, claimantWeight, counterpartyWeight, outcome, resolvedAt)
    }
  }

  function DisputeId(settlementId: string, createdAt: nat): string {
    settlementId + ['-'] + Digits(createdAt)
  }

  class DisputeStore {
    var disputes: map<string, DisputeRecord>

    constructor ()
      ensures disputes == map[]
    {
      disputes := map[];
    }

    /** The vote handler. */
    method CastVote(disputeId: string, v: Vote, threshold: Threshold) returns (answer: Answer)
      modifies if disputeId in disputes then {disputes[disputeId]} else {}
      ensures disputeId !in disputes ==> answer == NotFound
      ensures disputeId in disputes ==>
        (disputes[disputeId].TallyOf(), answer) == Cast(threshold, old(disputes[disputeId].TallyOf()), v)
    {
      if disputeId !in disputes {
        return NotFound;
      }
      var state := disputes[disputeId];
      if state.outcome.Some? {
        return AlreadyResolved(state.outcome.value);
      }
      if HasVoted(state.votes, v.signer) {
        return AlreadyVoted;
      }
      state.votes := state.votes + [v];
      if v.side.Claimant? {
        state.claimantWeight := state.claimantWeight + v.weight;
      } else {
        state.counterpartyWeight := state.counterpartyWeight + v.weight;
      }
      if Reaches(state.claimantWeight, threshold) {
        state.outcome := Some(Claimant);
      } else if Reaches(state.counterpartyWeight, threshold) {
        state.outcome := Some(Counterparty);
      }
      if state.outcome.Some? {
        state.resolvedAt := Some(v.votedAt);
      }
      return Counted(state.outcome);
    }

    /** The create handler: the first time from now on that makes a new id. */
    method Create(settlementId: string, now: nat) returns (record: DisputeRecord)
      requires AllDigits(settlementId)
      modifies this
      ensures fresh(record) && record.TallyOf() == FRESH
      ensures record.settlementId == settlementId && record.createdAt >= now
      ensures record.disputeId == DisputeId(settlementId, record.createdAt) && record.disputeId !in old(disputes)
      ensures forall t :: now <= t < record.createdAt ==> DisputeId(settlementId, t) in old(disputes)
      ensures disputes == old(disputes)[record.disputeId := record]
    {
      var createdAt := FirstFree(disputes, settlementId, now);
      var disputeId := DisputeId(settlementId, createdAt);
      record := new DisputeRecord(disputeId, settlementId, createdAt);
      disputes := disputes[disputeId := record];
    }
  }

  /** The loop of the create handler. */
  method FirstFree(disputes: map<string, DisputeRecord>, settlementId: string, now: nat) returns (createdAt: nat)
    requires AllDigits(settlementId)
    ensures createdAt >= now && DisputeId(settlementId, createdAt) !in disputes
    ensures forall t :: now <= t < createdAt ==> DisputeId(settlementId, t) in disputes
  {
    createdAt := now;
    ghost var others := disputes.Keys;
    while DisputeId(settlementId, createdAt) in disputes
      invariant createdAt >= now
      invariant forall t :: now <= t < createdAt ==> DisputeId(settlementId, t) in disputes
      invariant forall t :: t >= createdAt && DisputeId(settlementId, t) in disputes ==>
        DisputeId(settlementId, t) in others
      decreases |others|
    {
      var id := DisputeId(settlementId, createdAt);
      forall t | t > createdAt
        ensures DisputeId(settlementId, t) != id
      {
        IdsDiffer(settlementId, t, settlementId, createdAt);
      }
      others := others - {id};
      createdAt := createdAt + 1;
    }
  }

  /** An id names one settlement and one time, since settlement ids are digits. */
  lemma IdsDiffer(s1: string, t1: nat, s2: string, t2: nat)
    requires AllDigits(s1) && AllDigits(s2)
    ensures DisputeId(s1, t1) == DisputeId(s2, t2) <==> s1 == s2 && t1 == t2
  {
    SplitId(s1, t1);
    SplitId(s2, t2);
    ValueOfDigits(t1);
    ValueOfDigits(t2);
  }

  lemma SplitId(s: string, t: nat)
    requires AllDigits(s)
    ensures
      var i := IndexOf(DisputeId(s, t), '-');
      i < |DisputeId(s, t)| && DisputeId(s, t)[..i] == s && DisputeId(s, t)[i + 1..] == Digits(t)
  {
    IndexFound(s, ['-'] + Digits(t), '-');
    assert DisputeId(s, t) == s + (['-'] + Digits(t));
  }

  // ----- runs of votes -----------------------------------------------------

  function After(threshold: Threshold, t: Tally, requests: seq<Vote>): Tally {
    if requests == [] then t
    else Cast(threshold, After(threshold, t, requests[..|requests| - 1]), requests[|requests| - 1]).0
  }

  function WeightOf(votes: seq<Vote>, side: Side): nat {
    if votes == [] then 0
    else
      var last := votes[|votes| - 1];
      WeightOf(votes[..|votes| - 1], side) + if last.side == side then last.weight else 0
  }

  ghost predicate OneVoteEach(votes: seq<Vote>) {
    forall i, j :: 0 <= i < j < |votes| ==> votes[i].signer != votes[j].signer
  }

  /** The weights are the sums of the stored votes, one per signer. */
  ghost predicate TalliesAddUp(t: Tally) {
    && OneVoteEach(t.votes)
    && t.claimantWeight == WeightOf(t.votes, Claimant)
    && t.counterpartyWeight == WeightOf(t.votes, Counterparty)
  }

  /** Open exactly while both sides are below the threshold; resolved for the one side that is not. */
  predicate OutcomeRight(threshold: Threshold, t: Tally) {
    && (t.outcome.None? <==> Below(t.claimantWeight, threshold) && Below(t.counterpartyWeight, threshold))
    && (t.outcome == Some(Claimant) ==>
          Reaches(t.claimantWeight, threshold) && Below(t.counterpartyWeight, threshold))
    && (t.outcome == Some(Counterparty) ==>
          Reaches(t.counterpartyWeight, threshold) && Below(t.claimantWeight, threshold))
    && (t.outcome.Some? <==> t.resolvedAt.Some?)
  }

  lemma CastAddsUp(threshold: Threshold, t: Tally, v: Vote)
    requires TalliesAddUp(t)
    ensures TalliesAddUp(Cast(threshold, t, v).0)
  {
    var votes := t.votes + [v];
    assert votes[..|votes| - 1] == t.votes;
  }

  lemma {:induction false} RunAddsUp(threshold: Threshold, requests: seq<Vote>)
    ensures TalliesAddUp(After(threshold, FRESH, requests))
    decreases requests
  {
    if requests != [] {
      RunAddsUp(threshold, requests[..|requests| - 1]);
      CastAddsUp(threshold, After(threshold, FRESH, requests[..|requests| - 1]), requests[|requests| - 1]);
    }
  }

  /** With a positive threshold the outcome is right after every run of votes. */
  lemma {:induction false} RunOutcome(threshold: Threshold, requests: seq<Vote>)
    requires Positive(threshold)
    ensures OutcomeRight(threshold, After(threshold, FRESH, requests))
    decreases requests
  {
    if requests != [] {
      RunOutcome(threshold, requests[..|requests| - 1]);
    }
  }

  /** Every run ends right exactly for positive thresholds; otherwise a new dispute is open but not below it. */
  lemma ThresholdExact(threshold: Threshold)
    ensures (forall requests :: OutcomeRight(threshold, After(threshold, FRESH, requests))) <==> Positive(threshold)
  {
    if Positive(threshold) {
      forall requests
        ensures OutcomeRight(threshold, After(threshold, FRESH, requests))
      {
        RunOutcome(threshold, requests);
      }
    } else {
      assert After(threshold, FRESH, []) == FRESH;
    }
  }

  /** Then the first vote resolves it for the claimant, whichever side it is for, unless the threshold is no number. */
  lemma FirstVoteWins(threshold: Threshold, v: Vote)
    ensures !Positive(threshold) && !threshold.NaN? ==> Cast(threshold, FRESH, v).1 == Counted(Some(Claimant))
    ensures Positive(threshold) && Cast(threshold, FRESH, v).0.outcome.Some? ==>
      Cast(threshold, FRESH, v).0.outcome.value == v.side
  {
  }

  /** With a threshold that is no number no votes ever resolve a dispute. */
  lemma {:induction false} NaNNeverResolves(requests: seq<Vote>)
    ensures After(NaN, FRESH, requests).outcome == None
    decreases requests
  {
    if requests != [] {
      NaNNeverResolves(requests[..|requests| - 1]);
    }
  }

  /** A resolved dispute never changes again. */
  lemma {:induction false} ResolvedStays(threshold: Threshold, t: Tally, requests: seq<Vote>)
    requires t.outcome.Some?
    ensures After(threshold, t, requests) == t
    decreases requests
  {
    if requests != [] {
      ResolvedStays(threshold, t, requests[..|requests| - 1]);
    }
  }

  // ----- one vote ----------------------------------------------------------

  ghost predicate VotedBefore(requests: seq<Vote>, signer: string) {
    exists i :: 0 <= i < |requests| && requests[i].signer == signer
  }

  /** While a dispute is open, every signer who asked has a stored vote, the first one asked for. */
  ghost predicate FirstsStored(t: Tally, requests: seq<Vote>) {
    forall signer :: VotedBefore(requests, signer) <==> HasVoted(t.votes, signer)
  }

  lemma {:induction false} OpenStoresFirsts(threshold: Threshold, requests: seq<Vote>)
    requires After(threshold, FRESH, requests).outcome.None?
    ensures FirstsStored(After(threshold, FRESH, requests), requests)
    decreases requests
  {
    if requests != [] {
      var n := |requests| - 1;
      var t := After(threshold, FRESH, requests[..n]);
      OpenStoresFirsts(threshold, requests[..n]);
      forall signer
        ensures VotedBefore(requests, signer) <==> VotedBefore(requests[..n], signer) || requests[n].signer == signer
      {
        LastVoter(requests, signer);
      }
      forall signer
        ensures HasVoted(t.votes + [requests[n]], signer) <==>
                HasVoted(t.votes, signer) || requests[n].signer == signer
      {
        VotesGrow(t.votes, requests[n], signer);
      }
    }
  }

  lemma LastVoter(requests: seq<Vote>, signer: string)
    requires requests != []
    ensures VotedBefore(requests, signer) <==>
            VotedBefore(requests[..|requests| - 1], signer) || requests[|requests| - 1].signer == signer
  {
    if i :| 0 <= i < |requests| && requests[i].signer == signer {
      assert i < |requests| - 1 ==> requests[..|requests| - 1][i].signer == signer;
    }
  }

  lemma VotesGrow(votes: seq<Vote>, v: Vote, signer: string)
    ensures HasVoted(votes + [v], signer) <==> HasVoted(votes, signer) || v.signer == signer
  {
    if i :| 0 <= i < |votes| && votes[i].signer == signer {
      assert (votes + [v])[i].signer == signer;
    }
    assert (votes + [v])[|votes|] == v;
  }

  /**
   The answer to a vote after any others: the outcome if there is one, else a refusal exactly if
   the signer has asked before; and only otherwise is it stored, after the others, and counted.
   */
  lemma VoteAnswered(threshold: Threshold, requests: seq<Vote>, v: Vote)
    ensures
      var t := After(threshold, FRESH, requests);
      var (u, answer) := Cast(threshold, t, v);
      if t.outcome.Some? then u == t && answer == AlreadyResolved(t.outcome.value)
      else if VotedBefore(requests, v.signer) then u == t && answer == AlreadyVoted
      else
        && u.votes == t.votes + [v] && answer == Counted(u.outcome)
        && u.resolvedAt == (if u.outcome.Some? then Some(v.votedAt) else None)
  {
    if After(threshold, FRESH, requests).outcome.None? {
      OpenStoresFirsts(threshold, requests);
      OpenUnresolved(threshold, requests);
    }
  }

  lemma {:induction false} OpenUnresolved(threshold: Threshold, requests: seq<Vote>)
    ensures After(threshold, FRESH, requests).outcome.None? <==> After(threshold, FRESH, requests).resolvedAt.None?
    decreases requests
  {
    if requests != [] {
      OpenUnresolved(threshold, requests[..|requests| - 1]);
    }
  }
}
