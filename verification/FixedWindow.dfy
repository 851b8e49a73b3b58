/**
 The fixed-window limiter of the signature checks: a counter per key that starts
 again with the first request after its window. Times are in nanoseconds.
 */
module FixedWindow {
  import opened Common
  import opened Times

  const SECOND := 1_000_000_000
  const RATE_LIMIT_WINDOW_SECONDS := 60
  const WINDOW := RATE_LIMIT_WINDOW_SECONDS * SECOND

  datatype Entry = Entry(count: nat, windowStart: int)

  datatype Outcome = Admitted | Refused(retryAfterSeconds: int)

  datatype Checked = Checked(entry: Entry, outcome: Outcome)

  /** num_seconds cuts the fraction off, towards zero. */
  function WholeSeconds(duration: int): int {
    if duration < 0 then -(-duration / SECOND) else duration / SECOND
  }

  /** The entry that counts a request at `now`: a new one, the old one, or the old one started again. */
  function Current(entry: Option<Entry>, now: int): Entry {
    match entry
    case None => Entry(0, now)
    case Some(e) => if now - e.windowStart >= WINDOW then Entry(0, now) else e
  }

  function Check(entry: Option<Entry>, limit: nat, now: int): Checked {
    var e := Current(entry, now);
    if e.count >= limit then
      Checked(e, Refused(Max(RATE_LIMIT_WINDOW_SECONDS - WholeSeconds(now - e.windowStart), 1)))
    else Checked(e.(count := e.count + 1), Admitted)
  }

  class RateLimitStore {
    var entries: map<string, Entry>

    constructor ()
      ensures entries == map[]
    {
      entries := map[];
    }

    function EntryOf(key: string): Option<Entry>
      reads this
    {
      if key in entries then Some(entries[key]) else None
    }

    method CheckRateLimit(key: string, limit: nat, now: int) returns (outcome: Outcome)
      modifies this
      ensures var checked := Check(old(EntryOf(key)), limit, now);
        outcome == checked.outcome && entries == old(entries)[key := checked.entry]
    {
      var entry := if key in entries then entries[key] else Entry(0, now);
      if now - entry.windowStart >= WINDOW {
        entry := entry.(count := 0);
        entry := entry.(windowStart := now);
      }
      if entry.count >= limit {
        entries := entries[key := entry];
        var elapsed := WholeSeconds(now - entry.windowStart);
        return Refused(Max(RATE_LIMIT_WINDOW_SECONDS - elapsed, 1));
      }
      entry := entry.(count := entry.count + 1);
      entries := entries[key := entry];
      return Admitted;
    }
  }

  // ----- runs of one key ---------------------------------------------------

  /** An admitted request and the start of the window it was counted in. */
  datatype Admission = Admission(time: int, start: int)

  datatype Run = Run(entry: Option<Entry>, admissions: seq<Admission>)

  function Next(run: Run, limit: nat, now: int): Run {
    var checked := Check(run.entry, limit, now);
    Run(Some(checked.entry),
        run.admissions + if checked.outcome.Admitted? then [Admission(now, checked.entry.windowStart)] else [])
  }

  function RunOf(times: seq<int>, limit: nat): Run {
    if times == [] then Run(None, [])
    else Next(RunOf(times[..|times| - 1], limit), limit, times[|times| - 1])
  }

  /** An admission lies in its window, and the first one of a window starts it. */
  ghost predicate InWindow(admissions: seq<Admission>, i: nat)
    requires i < |admissions|
  {
    var a := admissions[i];
    && a.start <= a.time < a.start + WINDOW
    && (a.time == a.start || (i > 0 && admissions[i - 1].start == a.start))
  }

  /** Windows do not overlap. */
  predicate Apart(a: Admission, b: Admission) {
    a.start == b.start || a.start + WINDOW <= b.start
  }

  ghost predicate Windows(admissions: seq<Admission>, limit: nat) {
    && (forall i :: 0 <= i < |admissions| ==> InWindow(admissions, i))
    && (forall i, j :: 0 <= i < j < |admissions| ==> Apart(admissions[i], admissions[j]))
    && (forall i, j :: 0 <= i && i + limit <= j < |admissions| ==> admissions[i].start != admissions[j].start)
  }

  /** The entry counts the admissions of its window, which are the last ones. */
  ghost predicate Counted(admissions: seq<Admission>, entry: Entry, limit: nat, now: int) {
    && entry.count <= |admissions| && entry.count <= limit
    && entry.windowStart <= now
    && (entry.count == 0 ==> limit == 0 && admissions == [])
    && (forall i :: |admissions| - entry.count <= i < |admissions| ==> admissions[i].start == entry.windowStart)
    && (forall i :: 0 <= i < |admissions| - entry.count ==> admissions[i].start + WINDOW <= entry.windowStart)
    && (forall i :: 0 <= i < |admissions| ==> admissions[i].time <= now)
  }

  lemma AdmitNew(admissions: seq<Admission>, limit: nat, now: int)
    requires limit > 0 && Windows(admissions, limit)
    requires forall i :: 0 <= i < |admissions| ==> admissions[i].start + WINDOW <= now && admissions[i].time <= now
    ensures Windows(admissions + [Admission(now, now)], limit)
    ensures Counted(admissions + [Admission(now, now)], Entry(1, now), limit, now)
  {
    var after := admissions + [Admission(now, now)];
    forall i | 0 <= i < |after|
      ensures InWindow(after, i)
    {
      if i < |admissions| {
        assert InWindow(admissions, i);
      }
    }
  }

  lemma AdmitMore(admissions: seq<Admission>, entry: Entry, limit: nat, last: int, now: int)
    requires Windows(admissions, limit) && Counted(admissions, entry, limit, last)
    requires 0 < entry.count < limit && last <= now < entry.windowStart + WINDOW
    ensures Windows(admissions + [Admission(now, entry.windowStart)], limit)
    ensures Counted(admissions + [Admission(now, entry.windowStart)], entry.(count := entry.count + 1), limit, now)
  {
    var after := admissions + [Admission(now, entry.windowStart)];
    forall i | 0 <= i < |after|
      ensures InWindow(after, i)
    {
      if i < |admissions| {
        assert InWindow(admissions, i);
      }
    }
  }

  /** What every run keeps. */
  lemma {:induction false} RunKeeps(times: seq<int>, limit: nat)
    requires Sorted(times) && limit > 0
    ensures
      var run := RunOf(times, limit);
      && Windows(run.admissions, limit)
      && (times == [] ==> run == Run(None, []))
      && (times != [] ==> run.entry.Some? && Counted(run.admissions, run.entry.value, limit, times[|times| - 1]))
    decreases times
  {
    if times != [] {
      var init, now := times[..|times| - 1], times[|times| - 1];
      var before := RunOf(init, limit);
      RunKeeps(init, limit);
      if init == [] || now - before.entry.value.windowStart >= WINDOW {
        AdmitNew(before.admissions, limit, now);
      } else if before.entry.value.count < limit {
        AdmitMore(before.admissions, before.entry.value, limit, init[|init| - 1], now);
      } else {
        assert before.admissions + [] == before.admissions;
      }
    }
  }

  function TimesOf(admissions: seq<Admission>): (r: seq<int>)
    ensures |r| == |admissions|
  {
    seq(|admissions|, i requires 0 <= i < |admissions| => admissions[i].time)
  }

  /** At most `limit` requests are counted in one window. */
  lemma WindowLimit(times: seq<int>, limit: nat, i: nat, j: nat)
    requires Sorted(times) && limit > 0 && i < j < |RunOf(times, limit).admissions|
    requires RunOf(times, limit).admissions[i].start == RunOf(times, limit).admissions[j].start
    ensures j - i < limit
  {
    RunKeeps(times, limit);
  }

  /** Twice the limit less one places further on, a whole window has passed. */
  lemma WindowsSpaced(admissions: seq<Admission>, limit: nat)
    requires limit > 0 && Windows(admissions, limit)
    ensures Spaced(TimesOf(admissions), WINDOW, 2 * limit - 1)
  {
    var times, max := TimesOf(admissions), 2 * limit - 1;
    forall i | 0 <= i < |times| - max
      ensures times[i + max] - times[i] >= WINDOW
    {
      SpacedPair(admissions, limit, i);
    }
  }

  lemma SpacedPair(admissions: seq<Admission>, limit: nat, i: nat)
    requires limit > 0 && Windows(admissions, limit) && i + (2 * limit - 1) < |admissions|
    ensures admissions[i + (2 * limit - 1)].time - admissions[i].time >= WINDOW
  {
    var j := i + (2 * limit - 1);
    assert InWindow(admissions, i) && InWindow(admissions, j);
    if admissions[i].time == admissions[i].start {
      assert Apart(admissions[i], admissions[j]);
    } else {
      var k := i - 1 + limit;
      assert admissions[i - 1].start != admissions[k].start;
      assert k > i ==> Apart(admissions[i], admissions[k]);
      assert admissions[k].start != admissions[j].start;
      assert Apart(admissions[k], admissions[j]);
    }
  }

  lemma NextTimes(run: Run, limit: nat, now: int)
    ensures
      var before, after := TimesOf(run.admissions), TimesOf(Next(run, limit, now).admissions);
      after == before || after == before + [now]
    ensures
      Check(run.entry, limit, now).outcome.Admitted? ==>
      TimesOf(Next(run, limit, now).admissions) == TimesOf(run.admissions) + [now]
  {
    assert run.admissions + [] == run.admissions;
  }

  lemma SortedMore(before: seq<int>, after: seq<int>, last: int, now: int)
    requires Sorted(before) && NoneAfter(before, last) && last <= now && (after == before || after == before + [now])
    ensures Sorted(after) && NoneAfter(after, now)
  {
  }

  lemma {:induction false} TimesSorted(times: seq<int>, limit: nat)
    requires Sorted(times)
    ensures Sorted(TimesOf(RunOf(times, limit).admissions))
    ensures times != [] ==> NoneAfter(TimesOf(RunOf(times, limit).admissions), times[|times| - 1])
    decreases times
  {
    if times != [] {
      var init, now := times[..|times| - 1], times[|times| - 1];
      var before := RunOf(init, limit);
      TimesSorted(init, limit);
      NextTimes(before, limit, now);
      var last := if init == [] then now else init[|init| - 1];
      SortedMore(TimesOf(before.admissions), TimesOf(RunOf(times, limit).admissions), last, now);
    }
  }

  /**
   However an interval as long as the window, a minute, lies, fewer than twice the limit are admitted in
   it: the first request of a window starts it, so two windows share an interval only without it.
   */
  lemma IntervalBound(times: seq<int>, limit: nat, a: int)
    requires Sorted(times) && limit > 0
    ensures CountIn(TimesOf(RunOf(times, limit).admissions), a, a + 60_000_000_000) <= 2 * limit - 1
  {
    var admissions := RunOf(times, limit).admissions;
    RunKeeps(times, limit);
    TimesSorted(times, limit);
    WindowsSpaced(admissions, limit);
    SpacedCount(TimesOf(admissions), WINDOW, 2 * limit - 1, a);
  }

  function BurstTime(limit: nat, i: nat): int {
    if i == 0 then 0 else if i < limit then WINDOW - 1 else WINDOW
  }

  /** One request, one less than the limit at the end of its window, and the limit with the next one. */
  function Burst(limit: nat, n: nat): (times: seq<int>)
    ensures |times| == n && forall i :: 0 <= i < n ==> times[i] == BurstTime(limit, i)
  {
    seq(n, i requires 0 <= i < n => BurstTime(limit, i))
  }

  lemma RunAppend(times: seq<int>, now: int, limit: nat)
    ensures RunOf(times + [now], limit) == Next(RunOf(times, limit), limit, now)
  {
    assert (times + [now])[..|times|] == times;
  }

  function BurstEntry(limit: nat, n: nat): Option<Entry> {
    if n == 0 then None else Some(if n <= limit then Entry(n, 0) else Entry(n - limit, WINDOW))
  }

  lemma BurstStep(limit: nat, n: nat)
    requires n < 2 * limit
    ensures
      Check(BurstEntry(limit, n), limit, BurstTime(limit, n)) == Checked(BurstEntry(limit, n + 1).value, Admitted)
  {
  }

  lemma AdmittedNext(run: Run, limit: nat, now: int, entry: Entry, times: seq<int>)
    requires Check(run.entry, limit, now) == Checked(entry, Admitted) && TimesOf(run.admissions) == times
    ensures Next(run, limit, now).entry == Some(entry)
    ensures TimesOf(Next(run, limit, now).admissions) == times + [now]
  {
  }

  lemma {:induction false} BurstAdmitted(limit: nat, n: nat)
    requires n <= 2 * limit
    ensures RunOf(Burst(limit, n), limit).entry == BurstEntry(limit, n)
    ensures TimesOf(RunOf(Burst(limit, n), limit).admissions) == Burst(limit, n)
    decreases n
  {
    if n > 0 {
      var times, now := Burst(limit, n - 1), BurstTime(limit, n - 1);
      BurstAdmitted(limit, n - 1);
      BurstStep(limit, n - 1);
      RunAppend(times, now, limit);
      AdmittedNext(RunOf(times, limit), limit, now, BurstEntry(limit, n).value, times);
      assert Burst(limit, n) == times + [now];
    }
  }

  /** The bound is met, whatever the limit. */
  lemma BurstAtTheEdge(limit: nat)
    requires limit > 0
    ensures
      CountIn(TimesOf(RunOf(Burst(limit, 2 * limit), limit).admissions), WINDOW - 1, WINDOW - 1 + WINDOW) ==
      2 * limit - 1
  {
    var times := Burst(limit, 2 * limit);
    BurstAdmitted(limit, 2 * limit);
    CountBeforeSplits(times, WINDOW - 1);
    CountBeforeSplits(times, WINDOW - 1 + WINDOW);
    assert times[0] < WINDOW - 1 <= times[1] && times[2 * limit - 1] < WINDOW - 1 + WINDOW;
  }

  // ----- waiting -----------------------------------------------------------

  /**
   The answer of a refusal is the least number of whole seconds after which the next request
   of the key is admitted, although the elapsed time is cut down to seconds.
   */
  lemma WaitExact(entry: Option<Entry>, limit: nat, now: int, seconds: nat)
    requires limit > 0 && (entry.Some? ==> entry.value.windowStart <= now)
    requires Check(entry, limit, now).outcome.Refused?
    ensures
      var refused := Check(entry, limit, now);
      var wait := refused.outcome.retryAfterSeconds;
      && 1 <= wait <= 60
      && (Check(Some(refused.entry), limit, now + seconds * 1_000_000_000).outcome.Admitted? <==> seconds >= wait)
  {
    Seconds(now - entry.value.windowStart, seconds);
  }

  lemma Seconds(elapsed: nat, seconds: nat)
    requires elapsed < WINDOW
    ensures 0 <= WholeSeconds(elapsed) < RATE_LIMIT_WINDOW_SECONDS
    ensures elapsed + seconds * SECOND >= WINDOW <==> seconds >= RATE_LIMIT_WINDOW_SECONDS - WholeSeconds(elapsed)
  {
  }
}
