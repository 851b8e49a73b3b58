/**
 Calls to the Soroban RPC endpoints: retries with doubling waits within a budget, and
 failover to the next endpoint on transport errors.
 */
module RpcRetry {
  import opened Common
  import opened Numerals
  import opened RpcErrors

  datatype Limits = Limits(maxRetries: nat, initialBackoff: nat, totalBackoff: nat)

  const SOROBAN := Limits(3, 200, 30_000)

  predicate Retryable(o: Outcome) {
    o.Err? && Transient(o.error)
  }

  /** What one retried operation did: its last outcome, and how long it slept after each other one. */
  datatype Retried = Retried(outcome: Outcome, sleeps: seq<nat>)

  /** The k-th wait, if it comes to that. */
  function Wait(l: Limits, k: nat): nat {
    l.initialBackoff * Pow2(k)
  }

  /** The first k waits together. */
  function Waited(l: Limits, k: nat): nat {
    if k == 0 then 0 else Waited(l, k - 1) + Wait(l, k - 1)
  }

  /** The attempt after which the code stops: the first that cannot, must not or may not be retried. */
  predicate StopsAt(l: Limits, outcomes: seq<Outcome>, k: nat)
    requires k < |outcomes|
  {
    k == l.maxRetries || !Retryable(outcomes[k]) || Waited(l, k + 1) > l.totalBackoff
  }

  /**
   The outcomes are those the operation has each time it is called. Sleeps double from the
   initial wait: the cap on the next wait only ever makes it too long for the budget. The
   subtraction under the cap never goes below zero.
   */
  method WithRetry(l: Limits, outcomes: seq<Outcome>) returns (r: Retried)
    requires l.initialBackoff > 0 && |outcomes| == l.maxRetries + 1
    ensures |r.sleeps| <= l.maxRetries && r.outcome == outcomes[|r.sleeps|]
    ensures StopsAt(l, outcomes, |r.sleeps|)
    ensures forall k :: 0 <= k < |r.sleeps| ==> !StopsAt(l, outcomes, k) && r.sleeps[k] == Wait(l, k)
    ensures Waited(l, |r.sleeps|) <= l.totalBackoff
  {
    var delay, total := l.initialBackoff, 0;
    var sleeps: seq<nat> := [];
    var attempt := 0;
    while attempt <= l.maxRetries
      invariant attempt == |sleeps| <= l.maxRetries
      invariant total == Waited(l, attempt) <= l.totalBackoff
      invariant delay == Wait(l, attempt) || l.totalBackoff < total + delay <= total + Wait(l, attempt)
      invariant forall k :: 0 <= k < attempt ==> !StopsAt(l, outcomes, k) && sleeps[k] == Wait(l, k)
      decreases l.maxRetries - attempt
    {
      var outcome := outcomes[attempt];
      if outcome.Ok? {
        return Retried(outcome, sleeps);
      }
      var isLast := attempt == l.maxRetries;
      var willExceedBudget := total + delay > l.totalBackoff;
      if isLast || !Transient(outcome.error) || willExceedBudget {
        return Retried(outcome, sleeps);
      }
      sleeps := sleeps + [delay];
      total := total + delay;
      NextWait(l, attempt);
      delay := Min(delay * 2, l.totalBackoff - total + 1);
      attempt := attempt + 1;
    }
    assert false;
  }

  lemma NextWait(l: Limits, k: nat)
    ensures Wait(l, k + 1) == Wait(l, k) * 2
  {
  }

  lemma {:induction false} WaitedClosedForm(l: Limits, k: nat)
    ensures Waited(l, k) == l.initialBackoff * (Pow2(k) - 1)
    decreases k
  {
    if k > 0 {
      WaitedClosedForm(l, k - 1);
      Twice(l.initialBackoff, Pow2(k - 1));
    }
  }

  /** The retries stop where no attempt is left, no error may pass, or the waits would exceed the budget. */
  lemma StopsExactly(l: Limits, outcomes: seq<Outcome>, k: nat)
    requires k < |outcomes|
    ensures
      StopsAt(l, outcomes, k) <==>
      || k == l.maxRetries || outcomes[k].Ok? || !Transient(outcomes[k].error)
      || l.initialBackoff * (Pow2(k + 1) - 1) > l.totalBackoff
  {
    WaitedClosedForm(l, k + 1);
  }

  lemma Twice(a: nat, p: nat)
    ensures a * (p - 1) + a * p == a * (2 * p - 1)
  {
  }

  /** With the constants of the code the budget never ends the retries: 200, 400 and 800 ms. */
  lemma SorobanWaits(outcomes: seq<Outcome>, k: nat)
    requires |outcomes| == 4 && k < 4
    ensures StopsAt(SOROBAN, outcomes, k) <==> k == 3 || !Retryable(outcomes[k])
    ensures Wait(SOROBAN, 0) == 200 && Wait(SOROBAN, 1) == 400 && Wait(SOROBAN, 2) == 800
  {
    WaitedClosedForm(SOROBAN, k + 1);
    assert Pow2(1) == 2 && Pow2(2) == 4 && Pow2(3) == 8 && Pow2(4) == 16;
    assert k == 0 || k == 1 || k == 2 || k == 3;
  }

  // ----- failover ----------------------------------------------------------

  function Outcomes(attempts: seq<Attempt>): (outcomes: seq<Outcome>)
    ensures |outcomes| == |attempts|
  {
    seq(|attempts|, k requires 0 <= k < |attempts| => OutcomeOf(attempts[k]))
  }

  /** How many requests one endpoint gets. */
  predicate AskedTimes(l: Limits, attempts: seq<Attempt>, n: nat) {
    && 0 < n <= |attempts| && StopsAt(l, Outcomes(attempts), n - 1)
    && forall k :: 0 <= k < n - 1 ==> !StopsAt(l, Outcomes(attempts), k)
  }

  predicate GoesOn(a: Attempt) {
    OutcomeOf(a).Err? && TransportError(OutcomeOf(a).error)
  }

  const NO_ENDPOINT := Text("no Soroban RPC endpoint configured")

  function LastAttempt(endpoints: seq<seq<Attempt>>, requests: seq<nat>, k: nat): Attempt
    requires k < |requests| <= |endpoints| && 0 < requests[k] <= |endpoints[k]|
  {
    endpoints[k][requests[k] - 1]
  }

  ghost predicate Asked(l: Limits, endpoints: seq<seq<Attempt>>, requests: seq<nat>) {
    |requests| <= |endpoints| && forall k :: 0 <= k < |requests| ==> AskedTimes(l, endpoints[k], requests[k])
  }

  /** After the last request to each of the first n endpoints the next one is asked. */
  ghost predicate Passed(l: Limits, endpoints: seq<seq<Attempt>>, requests: seq<nat>, n: nat)
    requires Asked(l, endpoints, requests) && n <= |requests|
  {
    forall k :: 0 <= k < n ==> GoesOn(LastAttempt(endpoints, requests, k))
  }

  /** What a call comes to and does when the first endpoints get these numbers of requests. */
  ghost predicate Posted(l: Limits, endpoints: seq<seq<Attempt>>, r: Outcome, requests: seq<nat>) {
    && Asked(l, endpoints, requests)
    && if endpoints == [] then r == Err(Text("no Soroban RPC endpoint configured"))
       else
         var last := |requests| - 1;
         && requests != [] && r == OutcomeOf(LastAttempt(endpoints, requests, last))
         && Passed(l, endpoints, requests, last)
         && (|requests| < |endpoints| ==> !GoesOn(LastAttempt(endpoints, requests, last)))
  }

  method RpcPostTo(l: Limits, attempts: seq<Attempt>) returns (r: Outcome, n: nat)
    requires l.initialBackoff > 0 && |attempts| == l.maxRetries + 1
    ensures AskedTimes(l, attempts, n) && r == OutcomeOf(attempts[n - 1])
  {
    var retried := WithRetry(l, Outcomes(attempts));
    return retried.outcome, |retried.sleeps| + 1;
  }

  lemma OneMore(l: Limits, endpoints: seq<seq<Attempt>>, requests: seq<nat>, n: nat)
    requires |requests| < |endpoints| && Asked(l, endpoints, requests)
    requires Passed(l, endpoints, requests, |requests|) && AskedTimes(l, endpoints[|requests|], n)
    ensures Asked(l, endpoints, requests + [n]) && Passed(l, endpoints, requests + [n], |requests|)
    ensures LastAttempt(endpoints, requests + [n], |requests|) == endpoints[|requests|][n - 1]
    ensures
      GoesOn(endpoints[|requests|][n - 1]) ==> Passed(l, endpoints, requests + [n], |requests| + 1)
  {
    var after := requests + [n];
    forall k | 0 <= k < |requests|
      ensures AskedTimes(l, endpoints[k], after[k]) && GoesOn(LastAttempt(endpoints, after, k))
    {
      assert after[k] == requests[k] && AskedTimes(l, endpoints[k], requests[k]);
      assert GoesOn(LastAttempt(endpoints, requests, k));
    }
  }

  /** The endpoints asked so far were all passed, and this is what the last of them ended with. */
  ghost predicate Failing(l: Limits, endpoints: seq<seq<Attempt>>, requests: seq<nat>, lastErr: Option<Error>) {
    && Asked(l, endpoints, requests) && Passed(l, endpoints, requests, |requests|)
    && if requests == [] then lastErr == None
       else lastErr.Some? && Err(lastErr.value) == OutcomeOf(LastAttempt(endpoints, requests, |requests| - 1))
  }

  lemma OneMoreOutcome(l: Limits, endpoints: seq<seq<Attempt>>, requests: seq<nat>, lastErr: Option<Error>, n: nat)
    requires |requests| < |endpoints| && Failing(l, endpoints, requests, lastErr)
    requires AskedTimes(l, endpoints[|requests|], n)
    ensures
      var a := endpoints[|requests|][n - 1];
      if GoesOn(a) then Failing(l, endpoints, requests + [n], Some(OutcomeOf(a).error))
      else Posted(l, endpoints, OutcomeOf(a), requests + [n])
  {
    OneMore(l, endpoints, requests, n);
  }

  lemma AllFailed(l: Limits, endpoints: seq<seq<Attempt>>, requests: seq<nat>, lastErr: Option<Error>)
    requires |requests| == |endpoints| && Failing(l, endpoints, requests, lastErr)
    ensures Posted(l, endpoints, Err(lastErr.GetOr(NO_ENDPOINT)), requests)
  {
  }

  /**
   endpoints[k][i] is what request i to endpoint k comes to, if it is sent. The result is what
   the last request came to.
   */
  method RpcPost(l: Limits, endpoints: seq<seq<Attempt>>) returns (r: Outcome, requests: seq<nat>)
    requires l.initialBackoff > 0 && forall attempts :: attempts in endpoints ==> |attempts| == l.maxRetries + 1
    ensures Posted(l, endpoints, r, requests)
  {
    var lastErr: Option<Error> := None;
    requests := [];
    while |requests| < |endpoints|
      invariant |requests| <= |endpoints| && Failing(l, endpoints, requests, lastErr)
      decreases |endpoints| - |requests|
    {
      var n;
      r, n := RpcPostTo(l, endpoints[|requests|]);
      OneMoreOutcome(l, endpoints, requests, lastErr, n);
      requests := requests + [n];
      if r.Ok? || !TransportError(r.error) {
        return;
      }
      lastErr := Some(r.error);
    }
    AllFailed(l, endpoints, requests, lastErr);
    r := Err(lastErr.GetOr(NO_ENDPOINT));
  }

  ghost predicate AllPossible(endpoints: seq<seq<Attempt>>) {
    forall k, i :: 0 <= k < |endpoints| && 0 <= i < |endpoints[k]| ==> Possible(endpoints[k][i])
  }

  predicate AnsweredUndecodable(a: Attempt) {
    a.Answered? && !ServerError(a.status) && a.body.Undecodable?
  }

  /**
   Another endpoint follows exactly if there is one and the last request got no answer or an
   answer that cannot be decoded. So of the endpoints that answered last, exactly those are
   replaced whose answer cannot be decoded.
   */
  lemma FailoverExact(l: Limits, endpoints: seq<seq<Attempt>>, r: Outcome, requests: seq<nat>, k: nat)
    requires Posted(l, endpoints, r, requests) && AllPossible(endpoints) && k < |requests|
    ensures
      var a := LastAttempt(endpoints, requests, k);
      && (k + 1 < |requests| <==> k + 1 < |endpoints| && (a.NoAnswer? || AnsweredUndecodable(a)))
      && (a.Answered? && k + 1 < |endpoints| ==> (k + 1 < |requests| <==> AnsweredUndecodable(a)))
  {
    assert AskedTimes(l, endpoints[k], requests[k]);
    var a := LastAttempt(endpoints, requests, k);
    assert Possible(endpoints[k][requests[k] - 1]);
    TransportExact(a);
    assert k + 1 < |requests| ==> GoesOn(a);
  }

  /** A request that was answered at once, but not with what can be decoded, is sent to the next endpoint. */
  lemma AnsweredRequestReplayed(l: Limits, endpoints: seq<seq<Attempt>>, r: Outcome, requests: seq<nat>)
    requires Posted(l, endpoints, r, requests) && AllPossible(endpoints)
    requires |endpoints| > 1 && endpoints[0] != [] && AnsweredUndecodable(endpoints[0][0])
    requires !Transient(endpoints[0][0].body.error)
    ensures requests[0] == 1 && |requests| > 1
  {
    assert AskedTimes(l, endpoints[0], requests[0]);
    assert StopsAt(l, Outcomes(endpoints[0]), 0);
    FailoverExact(l, endpoints, r, requests, 0);
  }

  function Sum(s: seq<nat>): nat {
    if s == [] then 0 else Sum(s[..|s| - 1]) + s[|s| - 1]
  }

  lemma {:induction false} SumBounded(s: seq<nat>, limit: nat)
    requires forall k :: 0 <= k < |s| ==> s[k] <= limit
    ensures Sum(s) <= |s| * limit
    decreases s
  {
    if s != [] {
      SumBounded(s[..|s| - 1], limit);
      assert |s| * limit == (|s| - 1) * limit + limit;
    }
  }

  /** No call sends more requests than that, and none twice to an endpoint without a word of a passing error. */
  lemma RequestsBounded(l: Limits, endpoints: seq<seq<Attempt>>, r: Outcome, requests: seq<nat>)
    requires Posted(l, endpoints, r, requests)
    requires forall attempts :: attempts in endpoints ==> |attempts| == l.maxRetries + 1
    ensures Sum(requests) <= |endpoints| * (l.maxRetries + 1)
    ensures
      forall k, i :: 0 <= k < |requests| && 0 <= i < requests[k] - 1 ==> Retryable(OutcomeOf(endpoints[k][i]))
  {
    forall k | 0 <= k < |requests|
      ensures requests[k] <= l.maxRetries + 1
      ensures forall i :: 0 <= i < requests[k] - 1 ==> Retryable(OutcomeOf(endpoints[k][i]))
    {
      assert AskedTimes(l, endpoints[k], requests[k]);
      assert endpoints[k] in endpoints;
      forall i | 0 <= i < requests[k] - 1
        ensures Retryable(OutcomeOf(endpoints[k][i]))
      {
        assert !StopsAt(l, Outcomes(endpoints[k]), i);
      }
    }
    SumBounded(requests, l.maxRetries + 1);
    MoreIsMore(|requests|, |endpoints|, l.maxRetries + 1);
  }

  lemma MoreIsMore(a: nat, b: nat, n: nat)
    requires a <= b
    ensures a * n <= b * n
  {
  }
}
