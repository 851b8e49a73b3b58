/**
 Lists of points in time, and how many of them an interval holds.
 */
module Times {

  predicate Sorted(times: seq<int>) {
    forall i, j :: 0 <= i < j < |times| ==> times[i] <= times[j]
  }

  predicate NoneAfter(times: seq<int>, t: int) {
    forall i :: 0 <= i < |times| ==> times[i] <= t
  }

  /** Every time is at least a window after the one max places before it. */
  ghost predicate Spaced(times: seq<int>, window: nat, max: nat) {
    forall i :: 0 <= i < |times| - max ==> times[i + max] - times[i] >= window
  }

  lemma SpacedAt(times: seq<int>, window: nat, max: nat, i: nat)
    requires Spaced(times, window, max) && i < |times| - max
    ensures times[i + max] - times[i] >= window
  {
  }

  /** How many of the times lie before t. */
  function CountBefore(times: seq<int>, t: int): (n: nat)
    ensures n <= |times|
  {
    if times == [] then 0
    else CountBefore(times[..|times| - 1], t) + if times[|times| - 1] < t then 1 else 0
  }

  lemma {:induction false} CountBeforeSplits(times: seq<int>, t: int)
    requires Sorted(times)
    ensures forall i :: 0 <= i < |times| ==> (times[i] < t <==> i < CountBefore(times, t))
    decreases times
  {
    if times != [] {
      var init := times[..|times| - 1];
      CountBeforeSplits(init, t);
      assert forall i :: 0 <= i < |init| ==> init[i] == times[i];
    }
  }

  /** The number of times in the half-open interval from a to b. */
  function CountIn(times: seq<int>, a: int, b: int): int {
    CountBefore(times, b) - CountBefore(times, a)
  }

  /** Spaced times leave at most max to any interval as long as the window. */
  lemma SpacedCount(times: seq<int>, window: nat, max: nat, a: int)
    requires Sorted(times) && (window > 0 ==> Spaced(times, window, max))
    ensures CountIn(times, a, a + window) <= max
  {
    if window > 0 && CountIn(times, a, a + window) > max {
      CountBeforeSplits(times, a);
      CountBeforeSplits(times, a + window);
      SpacedAt(times, window, max, CountBefore(times, a));
    }
  }
}
