/**
 The per-address sliding-window limiter: a bucket holds the times of the requests
 it admitted within the last window. Times and durations are integers of one unit.
 */
module SlidingWindow {
  import opened Times

  /** duration_since gives zero for a time that is not in the past. */
  function Since(now: int, t: int): nat {
    if t < now then now - t else 0
  }

  /** The times less than `window` old. */
  function Younger(times: seq<int>, now: int, window: nat): (r: seq<int>)
    ensures |r| <= |times|
  {
    if times == [] then []
    else
      var init, last := times[..|times| - 1], times[|times| - 1];
      Younger(init, now, window) + if Since(now, last) < window then [last] else []
  }

  /** Asking for the first time of an empty list ends the handler. */
  datatype Outcome = Allowed(remaining: nat) | Refused(retryAfter: nat) | Panicked

  datatype Checked = Checked(timestamps: seq<int>, outcome: Outcome)

  function Check(timestamps: seq<int>, now: int, window: nat, max: nat): Checked {
    var kept := Younger(timestamps, now, window);
    if |kept| < max then Checked(kept + [now], Allowed(max - |kept| - 1))
    else if kept == [] then Checked(kept, Panicked)
    else Checked(kept, Refused(Since(kept[0] + window, now)))
  }

  class Bucket {
    var timestamps: seq<int>

    constructor ()
      ensures timestamps == []
    {
      timestamps := [];
    }

    /** An expiry time too large for the clock is not modelled. */
    method CheckAndRecord(now: int, window: nat, max: nat) returns (outcome: Outcome)
      modifies this
      ensures Checked(timestamps, outcome) == Check(old(timestamps), now, window, max)
    {
      timestamps := Younger(timestamps, now, window);
      if |timestamps| >= max {
        if |timestamps| == 0 {
          return Panicked;
        }
        var expiry := timestamps[0] + window;
        return Refused(Since(expiry, now));
      }
      timestamps := timestamps + [now];
      return Allowed(max - |timestamps|);
    }
  }

  // ----- runs --------------------------------------------------------------

  datatype Run = Run(timestamps: seq<int>, admitted: seq<int>)

  /** The bucket of one address and the times it admitted, after requests at the given times. */
  function RunOf(times: seq<int>, window: nat, max: nat): Run {
    if times == [] then Run([], [])
    else
      var before, now := RunOf(times[..|times| - 1], window, max), times[|times| - 1];
      var checked := Check(before.timestamps, now, window, max);
      Run(checked.timestamps, before.admitted + if checked.outcome.Allowed? then [now] else [])
  }

  lemma {:induction false} YoungerTwice(times: seq<int>, t: int, now: int, window: nat)
    requires t <= now
    ensures Younger(Younger(times, t, window), now, window) == Younger(times, now, window)
    decreases times
  {
    if times != [] {
      var init, last := times[..|times| - 1], times[|times| - 1];
      var young := Younger(init, t, window);
      YoungerTwice(init, t, now, window);
      if Since(t, last) < window {
        YoungerAppend(young, last, now, window);
      } else {
        assert young + [] == young;
        assert Younger(init, now, window) + [] == Younger(init, now, window);
      }
    }
  }

  lemma YoungerAppend(times: seq<int>, last: int, now: int, window: nat)
    ensures Younger(times + [last], now, window) ==
            Younger(times, now, window) + if Since(now, last) < window then [last] else []
  {
    assert (times + [last])[..|times|] == times;
  }

  /** The bucket is the list of the admitted times less than a window old. */
  lemma {:induction false} BucketIsWindow(times: seq<int>, window: nat, max: nat, now: int)
    requires window > 0 && Sorted(times) && NoneAfter(times, now)
    ensures
      var run := RunOf(times, window, max);
      && Younger(run.timestamps, now, window) == Younger(run.admitted, now, window)
      && (times != [] ==> run.timestamps == Younger(run.admitted, times[|times| - 1], window))
    decreases times
  {
    if times != [] {
      var init, last := times[..|times| - 1], times[|times| - 1];
      var before := RunOf(init, window, max);
      BucketIsWindow(init, window, max, last);
      var kept := Younger(before.admitted, last, window);
      YoungerTwice(before.admitted, last, now, window);
      YoungerAppend(kept, last, now, window);
      YoungerAppend(before.admitted, last, now, window);
      YoungerAppend(before.admitted, last, last, window);
      assert before.admitted + [] == before.admitted;
    }
  }

  // ----- at most max in any window -----------------------------------------

  lemma {:induction false} AdmittedSorted(times: seq<int>, window: nat, max: nat)
    requires Sorted(times)
    ensures
      var admitted := RunOf(times, window, max).admitted;
      Sorted(admitted) && (times != [] ==> NoneAfter(admitted, times[|times| - 1]))
    decreases times
  {
    if times != [] {
      AdmittedSorted(times[..|times| - 1], window, max);
    }
  }

  /** A young element of a sorted list has only young ones after it. */
  lemma {:induction false} YoungerSuffix(times: seq<int>, i: nat, now: int, window: nat)
    requires Sorted(times) && i < |times| && Since(now, times[i]) < window
    ensures |Younger(times, now, window)| >= |times| - i
    decreases times
  {
    if i < |times| - 1 {
      YoungerSuffix(times[..|times| - 1], i, now, window);
    }
  }

  lemma SpacedAppend(admitted: seq<int>, last: int, window: nat, max: nat)
    requires max > 0 && Spaced(admitted, window, max) && Sorted(admitted) && NoneAfter(admitted, last)
    requires |Younger(admitted, last, window)| < max
    ensures Spaced(admitted + [last], window, max)
  {
    var i := |admitted| - max;
    if i >= 0 && Since(last, admitted[i]) < window {
      YoungerSuffix(admitted, i, last, window);
    }
  }

  /** A request is admitted if fewer than max admitted ones are younger than a window. */
  lemma AdmitsBelowMax(times: seq<int>, window: nat, max: nat)
    requires window > 0 && Sorted(times) && times != []
    ensures
      var init, last := times[..|times| - 1], times[|times| - 1];
      var admitted := RunOf(init, window, max).admitted;
      && Sorted(admitted) && NoneAfter(admitted, last)
      && RunOf(times, window, max).admitted ==
         if |Younger(admitted, last, window)| < max then admitted + [last] else admitted
  {
    var init, last := times[..|times| - 1], times[|times| - 1];
    AdmittedSorted(init, window, max);
    BucketIsWindow(init, window, max, last);
  }

  lemma {:induction false} AdmittedSpaced(times: seq<int>, window: nat, max: nat)
    requires window > 0 && max > 0 && Sorted(times)
    ensures Spaced(RunOf(times, window, max).admitted, window, max)
    decreases times
  {
    if times != [] {
      var init, last := times[..|times| - 1], times[|times| - 1];
      var admitted := RunOf(init, window, max).admitted;
      AdmittedSpaced(init, window, max);
      AdmitsBelowMax(times, window, max);
      if |Younger(admitted, last, window)| < max {
        SpacedAppend(admitted, last, window, max);
      }
    }
  }

  /** With nondecreasing times, every interval as long as the window has at most max admitted requests. */
  lemma WindowBound(times: seq<int>, window: nat, max: nat, a: int)
    requires max > 0 && Sorted(times)
    ensures CountIn(RunOf(times, window, max).admitted, a, a + window) <= max
  {
    var admitted := RunOf(times, window, max).admitted;
    AdmittedSorted(times, window, max);
    if window > 0 {
      AdmittedSpaced(times, window, max);
    }
    SpacedCount(admitted, window, max, a);
  }

  // ----- the answers -------------------------------------------------------

  lemma {:induction false} YoungerSame(times: seq<int>, now: int, window: nat)
    requires AllYoung(times, now, window)
    ensures Younger(times, now, window) == times
    decreases times
  {
    if times != [] {
      YoungerSame(times[..|times| - 1], now, window);
    }
  }

  ghost predicate AllYoung(times: seq<int>, now: int, window: nat) {
    forall i :: 0 <= i < |times| ==> Since(now, times[i]) < window
  }

  lemma {:induction false} YoungerBelow(times: seq<int>, t: int, now: int, window: nat)
    requires NoneAfter(times, t)
    ensures NoneAfter(Younger(times, now, window), t)
    decreases times
  {
    if times != [] {
      YoungerBelow(times[..|times| - 1], t, now, window);
    }
  }

  lemma {:induction false} YoungerSorted(times: seq<int>, now: int, window: nat)
    requires Sorted(times)
    ensures Sorted(Younger(times, now, window)) && AllYoung(Younger(times, now, window), now, window)
    decreases times
  {
    if times != [] {
      var init, last := times[..|times| - 1], times[|times| - 1];
      YoungerSorted(init, now, window);
      YoungerBelow(init, last, now, window);
    }
  }

  /** A later look at a full list: it stays full as long as its first time is young. */
  lemma YoungerLater(kept: seq<int>, now: int, later: int, window: nat)
    requires kept != [] && Sorted(kept) && now <= later
    requires AllYoung(kept, now, window)
    ensures Since(later, kept[0]) < window ==> Younger(kept, later, window) == kept
    ensures Since(later, kept[0]) >= window ==> |Younger(kept, later, window)| < |kept|
  {
    if Since(later, kept[0]) < window {
      YoungerSame(kept, later, window);
    } else {
      FirstGone(kept, later, window);
    }
  }

  lemma {:induction false} FirstGone(kept: seq<int>, later: int, window: nat)
    requires kept != [] && Since(later, kept[0]) >= window
    ensures |Younger(kept, later, window)| < |kept|
    decreases kept
  {
    if |kept| > 1 {
      FirstGone(kept[..|kept| - 1], later, window);
    }
  }

  lemma YoungerFits(timestamps: seq<int>, last: int, window: nat, max: nat)
    requires |timestamps| <= max && Sorted(timestamps) && NoneAfter(timestamps, last)
    ensures
      var after := Check(timestamps, last, window, max).timestamps;
      |after| <= max && Sorted(after) && NoneAfter(after, last)
  {
    YoungerSorted(timestamps, last, window);
    YoungerBelow(timestamps, last, last, window);
  }

  /** The bucket never holds more than max times, all of them in order. */
  lemma {:induction false} BucketFits(times: seq<int>, window: nat, max: nat)
    requires Sorted(times)
    ensures
      var timestamps := RunOf(times, window, max).timestamps;
      && |timestamps| <= max && Sorted(timestamps)
      && (times != [] ==> NoneAfter(timestamps, times[|times| - 1]))
    decreases times
  {
    if times != [] {
      var init, last := times[..|times| - 1], times[|times| - 1];
      BucketFits(init, window, max);
      assert NoneAfter(RunOf(init, window, max).timestamps, last);
      YoungerFits(RunOf(init, window, max).timestamps, last, window, max);
    }
  }

  /**
   A refused caller is told a positive wait of at most a window, and a request after the
   delay d that nobody else gets in before is admitted exactly when d is no shorter.
   */
  lemma RetryExact(times: seq<int>, now: int, window: nat, max: nat, d: nat)
    requires max > 0 && Sorted(times) && NoneAfter(times, now)
    requires Check(RunOf(times, window, max).timestamps, now, window, max).outcome.Refused?
    ensures
      var refused := Check(RunOf(times, window, max).timestamps, now, window, max);
      var retried := Check(refused.timestamps, now + d, window, max);
      && 0 < refused.outcome.retryAfter <= window
      && (retried.outcome.Allowed? <==> d >= refused.outcome.retryAfter)
  {
    BucketFits(times, window, max);
    RefusedRetry(RunOf(times, window, max).timestamps, now, window, max, d);
  }

  lemma RefusedRetry(timestamps: seq<int>, now: int, window: nat, max: nat, d: nat)
    requires max > 0 && |timestamps| <= max && Sorted(timestamps) && NoneAfter(timestamps, now)
    requires Check(timestamps, now, window, max).outcome.Refused?
    ensures
      var refused := Check(timestamps, now, window, max);
      && 0 < refused.outcome.retryAfter <= window
      && (Check(refused.timestamps, now + d, window, max).outcome.Allowed? <==> d >= refused.outcome.retryAfter)
  {
    YoungerSorted(timestamps, now, window);
    YoungerBelow(timestamps, now, now, window);
    FullRetry(Younger(timestamps, now, window), now, window, d);
  }

  lemma FullRetry(kept: seq<int>, now: int, window: nat, d: nat)
    requires kept != [] && Sorted(kept) && NoneAfter(kept, now) && AllYoung(kept, now, window)
    ensures
      var wait := Since(kept[0] + window, now);
      0 < wait <= window && (|Younger(kept, now + d, window)| < |kept| <==> d >= wait)
  {
    YoungerLater(kept, now, now + d, window);
  }

  /** With max at least one no request makes the limiter panic; with none allowed the first one does. */
  lemma PanicExact(times: seq<int>, now: int, window: nat, max: nat)
    ensures Check(RunOf(times, window, max).timestamps, now, window, max).outcome.Panicked? <==> max == 0
  {
    if max == 0 {
      EmptyBucket(times, window);
    }
  }

  lemma {:induction false} EmptyBucket(times: seq<int>, window: nat)
    ensures RunOf(times, window, 0).timestamps == []
    decreases times
  {
    if times != [] {
      EmptyBucket(times[..|times| - 1], window);
    }
  }

  function Again(checked: Checked, now: int, window: nat, max: nat, more: nat): Checked
    decreases more
  {
    if more == 0 then checked else Again(Check(checked.timestamps, now, window, max), now, window, max, more - 1)
  }

  lemma CheckYoung(kept: seq<int>, now: int, window: nat, max: nat)
    requires window > 0 && AllYoung(kept, now, window) && 0 < |kept| <= max
    ensures Check(kept, now, window, max) ==
            if |kept| < max then Checked(kept + [now], Allowed(max - |kept| - 1))
            else Checked(kept, Refused(Since(kept[0] + window, now)))
    ensures AllYoung(kept + [now], now, window) && Younger(kept, now, window) == kept
  {
    YoungerSame(kept, now, window);
  }

  lemma AgainStep(kept: seq<int>, outcome: Outcome, now: int, window: nat, max: nat, more: nat)
    requires window > 0 && AllYoung(kept, now, window) && 0 < |kept| <= max && more > 0
    ensures |kept| < max ==>
      Again(Checked(kept, outcome), now, window, max, more) ==
      Again(Checked(kept + [now], Allowed(max - |kept| - 1)), now, window, max, more - 1)
    ensures |kept| == max ==> !Again(Checked(kept, outcome), now, window, max, more).outcome.Allowed?
  {
    CheckYoung(kept, now, window, max);
    if |kept| == max {
      RefusedAgain(kept, now, window, max, more - 1);
    }
  }

  lemma {:induction false} AgainExact(kept: seq<int>, now: int, window: nat, max: nat, more: nat)
    requires window > 0 && AllYoung(kept, now, window) && 0 < |kept| <= max
    ensures
      Again(Checked(kept, Allowed(max - |kept|)), now, window, max, more).outcome.Allowed? <==> more <= max - |kept|
    decreases more
  {
    if more > 0 {
      AgainStep(kept, Allowed(max - |kept|), now, window, max, more);
      if |kept| < max {
        AgainExact(kept + [now], now, window, max, more - 1);
      }
    }
  }

  lemma {:induction false} RefusedAgain(kept: seq<int>, now: int, window: nat, max: nat, more: nat)
    requires kept != [] && |kept| == max && Younger(kept, now, window) == kept
    ensures
      var refused := Checked(kept, Refused(Since(kept[0] + window, now)));
      Again(refused, now, window, max, more) == refused
    decreases more
  {
    if more > 0 {
      RefusedAgain(kept, now, window, max, more - 1);
    }
  }

  /** As many further requests at the same instant are admitted as the answer says, and no more. */
  lemma RemainingExact(timestamps: seq<int>, now: int, window: nat, max: nat, more: nat)
    requires window > 0 && Sorted(timestamps) && NoneAfter(timestamps, now)
    requires Check(timestamps, now, window, max).outcome.Allowed?
    ensures
      var checked := Check(timestamps, now, window, max);
      Again(checked, now, window, max, more).outcome.Allowed? <==> more <= checked.outcome.remaining
  {
    YoungerSorted(timestamps, now, window);
    AgainExact(Younger(timestamps, now, window) + [now], now, window, max, more);
  }
}
