/**
 No submitted job of the webhook queue is lost, except exactly when the process exits
 on a job that a resume or a late enqueue holds, and what drain reports.
 */
module WebhookConservation {
  import opened Common
  import opened WebhookQueue

  predicate Active(s: State, key: string) {
    exists i :: 0 <= i < |s.running| && s.running[i].tracked && s.running[i].job.key == key
  }

  /** Kept by the stores, or delivered: what survives the process. */
  predicate Durable(s: State, key: string) {
    HasKey(s.pending, key) || key in s.dead || key in s.delivered
  }

  /** Being written by drain, which waits for that. */
  predicate Awaited(s: State, key: string) {
    HasKey(s.drainWrites, key)
  }

  /** Held by a resume, or by the write of a late enqueue that nobody waits for. */
  predicate Unawaited(s: State, key: string) {
    HasKey(s.taken, key) || HasKey(s.lateWrites, key)
  }

  predicate Accounted(s: State, key: string) {
    Active(s, key) || HasKey(s.deferred, key) || Awaited(s, key) || Unawaited(s, key) || Durable(s, key)
  }

  ghost predicate Conserved(s: State) {
    forall key :: key in s.submitted ==> Accounted(s, key)
  }

  predicate EntrySettled(s: State, e: Entry) {
    match e.phase
    case Delivered => e.job.key in s.delivered
    case Cleaning => e.job.key in s.delivered
    case DeadLettered => e.job.key in s.dead || e.job.key in s.delivered
    case _ => true
  }

  /** What conservation rests on. */
  ghost predicate Shape(s: State) {
    && !(s.accepting && s.aborted)
    && (s.aborted ==> s.deferred == [] && forall i :: 0 <= i < |s.running| ==> !s.running[i].tracked)
    && (forall i :: 0 <= i < |s.running| ==> EntrySettled(s, s.running[i]))
  }

  // ----- keys in lists -----------------------------------------------------

  lemma HasKeyAt(jobs: seq<Job>, i: nat)
    requires i < |jobs|
    ensures HasKey(jobs, jobs[i].key)
  {
  }

  lemma HasKeySplit(jobs: seq<Job>, key: string)
    requires jobs != []
    ensures HasKey(jobs, key) <==> jobs[0].key == key || HasKey(jobs[1..], key)
  {
    if HasKey(jobs[1..], key) {
      var i :| 0 <= i < |jobs[1..]| && jobs[1..][i].key == key;
      assert jobs[i + 1].key == key;
    }
    if HasKey(jobs, key) && jobs[0].key != key {
      var i :| 0 <= i < |jobs| && jobs[i].key == key;
      assert jobs[1..][i - 1].key == key;
    }
  }

  lemma HasKeyConcat(a: seq<Job>, b: seq<Job>, key: string)
    ensures HasKey(a + b, key) <==> HasKey(a, key) || HasKey(b, key)
  {
    if HasKey(a, key) {
      var i :| 0 <= i < |a| && a[i].key == key;
      assert (a + b)[i].key == key;
    }
    if HasKey(b, key) {
      var i :| 0 <= i < |b| && b[i].key == key;
      assert (a + b)[|a| + i].key == key;
    }
  }

  lemma HasKeyRemoved(jobs: seq<Job>, n: nat, key: string)
    requires n < |jobs|
    ensures HasKey(jobs, key) <==> HasKey(RemoveAt(jobs, n), key) || jobs[n].key == key
  {
    assert jobs == jobs[..n] + ([jobs[n]] + jobs[n + 1..]);
    HasKeyConcat(jobs[..n], [jobs[n]] + jobs[n + 1..], key);
    HasKeyConcat([jobs[n]], jobs[n + 1..], key);
    HasKeyConcat(jobs[..n], jobs[n + 1..], key);
    HasKeyOne(jobs[n], key);
  }

  lemma HasKeyOne(job: Job, key: string)
    ensures HasKey([job], key) <==> job.key == key
  {
    HasKeyAt([job], 0);
  }

  lemma {:induction false} SaveKeeps(pending: seq<Job>, job: Job, key: string)
    ensures HasKey(Save(pending, job), key) <==> HasKey(pending, key) || key == job.key
    decreases |pending|
  {
    if pending == [] {
      HasKeyOne(job, key);
    } else {
      var s := Save(pending, job);
      var tail := if pending[0].key == job.key then pending[1..] else Save(pending[1..], job);
      assert s[1..] == tail && s[0].key == pending[0].key;
      HasKeySplit(s, key);
      HasKeySplit(pending, key);
      if pending[0].key != job.key {
        SaveKeeps(pending[1..], job, key);
      }
    }
  }

  lemma {:induction false} WithoutKeeps(pending: seq<Job>, jobs: seq<Job>, key: string)
    ensures HasKey(Without(pending, jobs), key) <==> HasKey(pending, key) && !HasKey(jobs, key)
    decreases |pending|
  {
    if pending != [] {
      var rest := Without(pending[1..], jobs);
      WithoutKeeps(pending[1..], jobs, key);
      HasKeySplit(pending, key);
      if HasKey(jobs, pending[0].key) {
        assert [] + rest == rest;
      } else {
        HasKeyConcat([pending[0]], rest, key);
        HasKeyOne(pending[0], key);
      }
    }
  }

  lemma {:induction false} TrackedHasKey(running: seq<Entry>, i: nat)
    requires i < |running| && running[i].tracked
    ensures HasKey(TrackedJobs(running), running[i].job.key)
    decreases |running|
  {
    var head := if running[0].tracked then [running[0].job] else [];
    HasKeyConcat(head, TrackedJobs(running[1..]), running[i].job.key);
    if i == 0 {
      assert head[0] == running[0].job;
    } else {
      TrackedHasKey(running[1..], i - 1);
    }
  }

  // ----- one step ----------------------------------------------------------

  lemma EnqueueAccounts(s: State, job: Job, replay: bool)
    requires Shape(s)
    ensures Shape(Enqueue(s, job, replay)) && Accounted(Enqueue(s, job, replay), job.key)
    ensures forall key :: Accounted(s, key) ==> Accounted(Enqueue(s, job, replay), key)
  {
    var t := Enqueue(s, job, replay);
    if s.accepting {
      assert t.running[|s.running|].job == job;
    } else if s.aborted {
      HasKeyAt(t.lateWrites, |s.lateWrites|);
    } else {
      HasKeyAt(t.deferred, |s.deferred|);
    }
    forall key | Accounted(s, key)
      ensures Accounted(t, key)
    {
      if Active(s, key) {
        var i :| 0 <= i < |s.running| && s.running[i].tracked && s.running[i].job.key == key;
        assert t.running[i] == s.running[i];
      }
      HasKeyConcat(s.lateWrites, [job], key);
      HasKeyConcat(s.deferred, [job], key);
    }
  }

  lemma NewJobAccounts(s: State, key: string, history: seq<nat>, replay: bool)
    requires Shape(s)
    ensures
      var t := EnqueueNew(s, key, history, replay);
      Shape(t) && Accounted(t, key) && forall k :: Accounted(s, k) ==> Accounted(t, k)
  {
    var numbered := s.(owners := s.owners + [key]);
    assert forall k :: Accounted(s, k) ==> Accounted(numbered, k);
    EnqueueAccounts(numbered, Job(|s.owners|, key, 0, history, |history|), replay);
  }

  /** Only entry i has changed, and what was settled stays settled. */
  ghost predicate EntryChange(s: State, t: State, i: nat) {
    && i < |s.running| == |t.running| && t.running == s.running[i := t.running[i]]
    && t == s.(running := t.running, posts := t.posts, dead := t.dead, delivered := t.delivered)
    && t.running[i].job.key == s.running[i].job.key
    && (t.running[i].tracked ==> s.running[i].tracked)
    && s.delivered <= t.delivered
    && forall key :: key in s.dead ==> key in t.dead || key in t.delivered
  }

  /** Changing one entry loses no key if the entry stays tracked or its key is settled. */
  lemma EntryChangeAccounts(s: State, t: State, i: nat)
    requires EntryChange(s, t, i)
    requires t.running[i].tracked == s.running[i].tracked || Durable(t, t.running[i].job.key)
    ensures forall key :: Accounted(s, key) ==> Accounted(t, key)
  {
    forall key | Accounted(s, key)
      ensures Accounted(t, key)
    {
      if Active(s, key) {
        var k :| 0 <= k < |s.running| && s.running[k].tracked && s.running[k].job.key == key;
        assert t.running[k].job.key == key;
      }
    }
  }

  lemma EntryChangeShape(s: State, t: State, i: nat)
    requires Shape(s) && EntryChange(s, t, i) && EntrySettled(t, t.running[i])
    ensures Shape(t)
  {
    forall k | 0 <= k < |t.running|
      ensures EntrySettled(t, t.running[k])
    {
      assert EntrySettled(s, s.running[k]);
    }
  }

  ghost predicate SettledChange(s: State, t: State, i: nat) {
    && EntryChange(s, t, i) && EntrySettled(t, t.running[i])
    && (t.running[i].tracked == s.running[i].tracked ||
        t.running[i].job.key in t.dead || t.running[i].job.key in t.delivered)
  }

  /** An attempt starts, succeeds or fails. */
  lemma AttemptChanges(s: State, step: Step, maxAttempts: nat)
    requires Shape(s) && (step.StartAttempt? || step.AttemptOk? || step.AttemptFail?)
    ensures
      var t := ApplyToEntry(s, step, maxAttempts);
      t == s || SettledChange(s, t, step.i)
  {
  }

  /** A delivery that is over is dead-lettered, released and cleaned up. */
  lemma FinishChanges(s: State, step: Step, maxAttempts: nat)
    requires Shape(s) && (step.SaveDeadLetter? || step.Release? || step.DeleteDeadLetter?)
    ensures
      var t := ApplyToEntry(s, step, maxAttempts);
      t == s || SettledChange(s, t, step.i)
  {
    if step.i < |s.running| {
      assert EntrySettled(s, s.running[step.i]);
    }
  }

  /** A step on one running delivery accounts for every key it accounted for before. */
  lemma EntryStepAccounts(s: State, step: Step, maxAttempts: nat)
    requires Shape(s) && OnEntry(step)
    ensures Shape(Apply(s, step, maxAttempts))
    ensures forall key :: Accounted(s, key) ==> Accounted(Apply(s, step, maxAttempts), key)
  {
    var t := ApplyToEntry(s, step, maxAttempts);
    if step.StartAttempt? || step.AttemptOk? || step.AttemptFail? {
      AttemptChanges(s, step, maxAttempts);
    } else {
      FinishChanges(s, step, maxAttempts);
    }
    if t != s {
      EntryChangeShape(s, t, step.i);
      EntryChangeAccounts(s, t, step.i);
    }
  }

  lemma AbortAccounts(s: State, maxAttempts: nat)
    requires Shape(s)
    ensures Shape(Apply(s, Abort, maxAttempts))
    ensures forall key :: Accounted(s, key) ==> Accounted(Apply(s, Abort, maxAttempts), key)
    ensures forall key :: Active(s, key) || HasKey(s.deferred, key) ==> Awaited(Apply(s, Abort, maxAttempts), key)
  {
    var jobs := TrackedJobs(s.running) + s.deferred;
    forall key
      ensures Accounted(s, key) ==> Accounted(Apply(s, Abort, maxAttempts), key)
      ensures Active(s, key) || HasKey(s.deferred, key) ==> Awaited(Apply(s, Abort, maxAttempts), key)
    {
      HasKeyConcat(s.drainWrites, jobs, key);
      HasKeyConcat(TrackedJobs(s.running), s.deferred, key);
      if Active(s, key) {
        var i :| 0 <= i < |s.running| && s.running[i].tracked && s.running[i].job.key == key;
        TrackedHasKey(s.running, i);
      }
    }
  }

  predicate IsWrite(step: Step) {
    step.CompleteDrainWrite? || step.CompleteLateWrite?
  }

  lemma WriteAccounts(s: State, step: Step, maxAttempts: nat)
    requires Shape(s) && IsWrite(step)
    ensures Shape(Apply(s, step, maxAttempts))
    ensures forall key :: Accounted(s, key) ==> Accounted(Apply(s, step, maxAttempts), key)
  {
    forall key
      ensures Accounted(s, key) ==> Accounted(Apply(s, step, maxAttempts), key)
    {
      if step.CompleteDrainWrite? && step.n < |s.drainWrites| {
        HasKeyRemoved(s.drainWrites, step.n, key);
        SaveKeeps(s.pending, s.drainWrites[step.n], key);
      } else if step.CompleteLateWrite? && step.n < |s.lateWrites| {
        HasKeyRemoved(s.lateWrites, step.n, key);
        SaveKeeps(s.pending, s.lateWrites[step.n], key);
      }
    }
  }

  lemma DeleteAccounts(s: State, maxAttempts: nat)
    requires Shape(s)
    ensures forall key :: Accounted(s, key) ==> Accounted(Apply(s, DeleteFound, maxAttempts), key)
  {
    forall key
      ensures Accounted(s, key) ==> Accounted(Apply(s, DeleteFound, maxAttempts), key)
    {
      WithoutKeeps(s.pending, s.found, key);
      HasKeyConcat(s.taken, s.found, key);
    }
  }

  lemma {:induction false} ResumeAccounts(s: State)
    requires Shape(s)
    ensures Shape(ResumeAll(s)) && forall key :: Accounted(s, key) ==> Accounted(ResumeAll(s), key)
    decreases |s.taken|
  {
    if s.taken != [] {
      var rest := s.(taken := s.taken[1..]);
      EnqueueAccounts(rest, s.taken[0], false);
      forall key | Accounted(s, key)
        ensures Accounted(ResumeOne(s), key)
      {
        HasKeySplit(s.taken, key);
        assert Accounted(rest, key) || key == s.taken[0].key;
      }
      ResumeAccounts(ResumeOne(s));
    }
  }

  /** Within one process no step loses a submitted key. */
  lemma StepConserves(s: State, step: Step, maxAttempts: nat)
    requires Shape(s) && Conserved(s) && !step.Restart?
    ensures Shape(Apply(s, step, maxAttempts)) && Conserved(Apply(s, step, maxAttempts))
  {
    if OnEntry(step) {
      EntryStepAccounts(s, step, maxAttempts);
    } else if IsWrite(step) {
      WriteAccounts(s, step, maxAttempts);
    } else if step.Submit? {
      SubmitConserves(s, step.key, maxAttempts);
    } else if step.EnqueueReplay? {
      ReplayAccounts(s, step.n, maxAttempts);
    } else if step.Abort? {
      AbortAccounts(s, maxAttempts);
    } else if step.DeleteFound? {
      DeleteAccounts(s, maxAttempts);
    } else if step.Resume? {
      ResumeAccounts(s);
      ResumeSubmits(s);
    } else {
      ReadAccounts(s, step, maxAttempts);
    }
  }

  /** Closing the queue and reading from the stores move no job. */
  lemma ReadAccounts(s: State, step: Step, maxAttempts: nat)
    requires Shape(s) && (step.StopAccepting? || step.FindPending? || step.FindDeadLetter?)
    ensures Shape(Apply(s, step, maxAttempts))
    ensures forall key :: Accounted(s, key) ==> Accounted(Apply(s, step, maxAttempts), key)
  {
  }

  lemma ReplayAccounts(s: State, n: nat, maxAttempts: nat)
    requires Shape(s)
    ensures Shape(Apply(s, EnqueueReplay(n), maxAttempts))
    ensures forall key :: Accounted(s, key) ==> Accounted(Apply(s, EnqueueReplay(n), maxAttempts), key)
  {
    if n < |s.letters| {
      var read := s.(letters := RemoveAt(s.letters, n));
      assert forall k :: Accounted(s, k) ==> Accounted(read, k);
      NewJobAccounts(read, s.letters[n].key, s.letters[n].history, true);
    }
  }

  lemma SubmitConserves(s: State, key: string, maxAttempts: nat)
    requires Shape(s) && Conserved(s)
    ensures Shape(Apply(s, Submit(key), maxAttempts)) && Conserved(Apply(s, Submit(key), maxAttempts))
  {
    var more := s.(submitted := s.submitted + {key});
    assert forall k :: Accounted(s, k) ==> Accounted(more, k);
    NewJobAccounts(more, key, [], false);
  }

  lemma {:induction false} ResumeSubmits(s: State)
    ensures ResumeAll(s).submitted == s.submitted
    decreases |s.taken|
  {
    if s.taken != [] {
      ResumeSubmits(ResumeOne(s));
    }
  }

  // ----- process exits -----------------------------------------------------

  /** Every submitted job that a resume or a late enqueue holds is stored or delivered as well. */
  ghost predicate ExitSafe(s: State) {
    forall key :: key in s.submitted && Unawaited(s, key) ==> Durable(s, key)
  }

  /** An exit that has waited for drain loses exactly the jobs that nobody waits for and no store has. */
  lemma ExitConserves(s: State)
    requires Shape(s) && Conserved(s) && CanExit(s)
    ensures Shape(NewProcess(s)) && (Conserved(NewProcess(s)) <==> ExitSafe(s))
  {
    forall key
      ensures Accounted(NewProcess(s), key) <==> Durable(s, key)
      ensures Accounted(s, key) <==> Unawaited(s, key) || Durable(s, key)
    {
    }
  }

  ghost predicate EveryStateConserved(s: State, steps: seq<Step>, maxAttempts: nat)
    decreases |steps|
  {
    Conserved(s) && (steps != [] ==> EveryStateConserved(Apply(s, steps[0], maxAttempts), steps[1..], maxAttempts))
  }

  ghost predicate EveryExitSafe(s: State, steps: seq<Step>, maxAttempts: nat)
    decreases |steps|
  {
    steps != [] ==>
      && (steps[0].Restart? && CanExit(s) ==> ExitSafe(s))
      && EveryExitSafe(Apply(s, steps[0], maxAttempts), steps[1..], maxAttempts)
  }

  /**
   Over every interleaving, with exits that wait for drain and for nothing else: every
   submitted key is accounted for in every state of the run exactly if every exit is safe.
   */
  lemma {:induction false} RunConserves(s: State, steps: seq<Step>, maxAttempts: nat)
    requires Shape(s) && Conserved(s)
    ensures EveryStateConserved(s, steps, maxAttempts) <==> EveryExitSafe(s, steps, maxAttempts)
    decreases |steps|
  {
    if steps != [] {
      var t := Apply(s, steps[0], maxAttempts);
      if steps[0].Restart? {
        if CanExit(s) {
          ExitConserves(s);
        }
      } else {
        StepConserves(s, steps[0], maxAttempts);
      }
      if Conserved(t) {
        RunConserves(t, steps[1..], maxAttempts);
      } else {
        NotConserved(t, steps[1..], maxAttempts);
      }
    }
  }

  lemma NotConserved(s: State, steps: seq<Step>, maxAttempts: nat)
    requires !Conserved(s)
    ensures !EveryStateConserved(s, steps, maxAttempts)
  {
  }

  /** No job is lost when every exit finds no resume under way and no late write open. */
  predicate QuietExits(s: State, steps: seq<Step>, maxAttempts: nat)
    decreases |steps|
  {
    steps != [] ==>
      && (steps[0].Restart? && CanExit(s) ==> s.taken == [] && s.lateWrites == [])
      && QuietExits(Apply(s, steps[0], maxAttempts), steps[1..], maxAttempts)
  }

  lemma {:induction false} QuietExitsAreSafe(s: State, steps: seq<Step>, maxAttempts: nat)
    requires QuietExits(s, steps, maxAttempts)
    ensures EveryExitSafe(s, steps, maxAttempts)
    decreases |steps|
  {
    if steps != [] {
      QuietExitsAreSafe(Apply(s, steps[0], maxAttempts), steps[1..], maxAttempts);
    }
  }

  // ----- exits that lose a job ---------------------------------------------

  lemma RunOne(s: State, a: Step, rest: seq<Step>)
    ensures Run(s, [a] + rest, 5) == Run(Apply(s, a, 5), rest, 5)
  {
    assert ([a] + rest)[1..] == rest;
  }

  lemma RunFour(s: State, a: Step, b: Step, c: Step, d: Step)
    ensures Run(s, [a, b, c, d], 5) == Apply(Apply(Apply(Apply(s, a, 5), b, 5), c, 5), d, 5)
  {
    RunOne(s, a, [b, c, d]);
    RunOne(Apply(s, a, 5), b, [c, d]);
    RunOne(Apply(Apply(s, a, 5), b, 5), c, [d]);
    RunOne(Apply(Apply(Apply(s, a, 5), b, 5), c, 5), d, []);
    assert [a] + [b, c, d] == [a, b, c, d] && [b] + [c, d] == [b, c, d] && [c] + [d] == [c, d] && [d] + [] == [d];
  }

  /** A process has started with nothing but one stored job. */
  predicate OnlyStored(s: State, job: Job) {
    && s.accepting && !s.aborted && !s.resumed && s.running == [] && s.deferred == [] && s.drainWrites == []
    && s.lateWrites == [] && s.found == [] && s.taken == [] && s.pending == [job]
    && job.key in s.submitted && job.key !in s.dead && job.key !in s.delivered
  }

  lemma TakeOnly(s: State, job: Job)
    requires OnlyStored(s, job)
    ensures Apply(Apply(s, FindPending, 5), DeleteFound, 5) == s.(resumed := true, pending := [], taken := [job])
  {
    HasKeyAt([job], 0);
    assert Without([job], [job]) == Without([job][1..], [job]) == [];
    assert [] + [job] == [job];
  }

  lemma AbortIdle(s: State)
    requires s.running == [] && s.deferred == []
    ensures Apply(s, Abort, 5) == s.(accepting := false, aborted := true)
  {
    assert Untrack([]) == [];
    assert TrackedJobs([]) + [] == [];
    assert s.drainWrites + [] == s.drainWrites;
  }

  lemma ResumeLate(s: State, job: Job)
    requires !s.accepting && s.aborted && s.taken == [job] && s.lateWrites == []
    ensures Apply(s, Resume, 5) == s.(taken := [], lateWrites := [job])
  {
    var late := ResumeOne(s);
    assert [job][1..] == [] && [] + [job] == [job];
    assert late == s.(taken := [], lateWrites := [job]);
    assert ResumeAll(s) == ResumeAll(late) == late;
  }

  lemma ExitForgets(s: State, key: string)
    requires CanExit(s) && key in s.submitted && s.pending == [] && key !in s.dead && key !in s.delivered
    ensures key in Apply(s, Restart, 5).submitted && !Accounted(Apply(s, Restart, 5), key)
  {
  }

  /** A drain between takeAll and the enqueues: the exit has nothing to wait for, and the job is gone. */
  lemma ShutdownDuringResumeLosesJob(s: State, job: Job)
    requires OnlyStored(s, job)
    ensures
      var end := Run(s, [FindPending, DeleteFound, Abort, Restart], 5);
      job.key in end.submitted && !Accounted(end, job.key)
  {
    RunFour(s, FindPending, DeleteFound, Abort, Restart);
    TakeOnly(s, job);
    var taken := s.(resumed := true, pending := [], taken := [job]);
    AbortIdle(taken);
    ExitForgets(taken.(accepting := false, aborted := true), job.key);
  }

  /** A resume that comes to its enqueues after the abort: nobody waits for the write it starts. */
  lemma LateResumeLosesJob(s: State, job: Job)
    requires OnlyStored(s, job)
    ensures
      var end := Run(s, [FindPending] + [DeleteFound, Abort, Resume, Restart], 5);
      job.key in end.submitted && !Accounted(end, job.key)
  {
    RunOne(s, FindPending, [DeleteFound, Abort, Resume, Restart]);
    RunFour(Apply(s, FindPending, 5), DeleteFound, Abort, Resume, Restart);
    TakeOnly(s, job);
    var taken := s.(resumed := true, pending := [], taken := [job]);
    AbortIdle(taken);
    ResumeLate(taken.(accepting := false, aborted := true), job);
    ExitForgets(taken.(accepting := false, aborted := true, taken := [], lateWrites := [job]), job.key);
  }

  // ----- what drain reports ------------------------------------------------

  /** Deliveries tracked in a and no longer in b. */
  function Dropped(a: seq<Entry>, b: seq<Entry>): nat
    requires |a| == |b|
    decreases |a|
  {
    if a == [] then 0
    else (if a[0].tracked && !b[0].tracked then 1 else 0) + Dropped(a[1..], b[1..])
  }

  lemma {:induction false} DroppedCounts(a: seq<Entry>, b: seq<Entry>)
    requires |a| == |b| && forall i :: 0 <= i < |a| && b[i].tracked ==> a[i].tracked
    ensures |TrackedJobs(a)| - |TrackedJobs(b)| == Dropped(a, b)
    decreases |a|
  {
    if a != [] {
      DroppedCounts(a[1..], b[1..]);
    }
  }

  /** A delivery while drain waits: it leaves the active set only once its key is settled. */
  predicate DrainedEntry(b: State, before: Entry, after: Entry) {
    && after.job.key == before.job.key
    && (after.tracked ==> before.tracked)
    && (before.tracked && !after.tracked ==> after.job.key in b.dead || after.job.key in b.delivered)
  }

  ghost predicate DrainingTo(a: State, b: State) {
    && !b.accepting && |b.running| == |a.running|
    && forall i :: 0 <= i < |a.running| ==> DrainedEntry(b, a.running[i], b.running[i])
  }

  predicate DrainStep(step: Step) {
    !step.Abort? && !step.Restart?
  }

  lemma {:induction false} ResumeClosed(s: State)
    requires !s.accepting
    ensures
      var t := ResumeAll(s);
      !t.accepting && t.running == s.running && t.dead == s.dead && t.delivered == s.delivered
    decreases |s.taken|
  {
    if s.taken != [] {
      ResumeClosed(ResumeOne(s));
    }
  }

  lemma DrainEntryStep(a: State, s: State, step: Step, maxAttempts: nat)
    requires DrainingTo(a, s) && Shape(s) && OnEntry(step)
    ensures DrainingTo(a, Apply(s, step, maxAttempts))
  {
    var t := ApplyToEntry(s, step, maxAttempts);
    if step.StartAttempt? || step.AttemptOk? || step.AttemptFail? {
      AttemptChanges(s, step, maxAttempts);
    } else {
      FinishChanges(s, step, maxAttempts);
    }
    if t != s {
      forall i | 0 <= i < |a.running|
        ensures DrainedEntry(t, a.running[i], t.running[i])
      {
        assert DrainedEntry(s, a.running[i], s.running[i]);
      }
    }
  }

  lemma DrainStepKeeps(a: State, s: State, step: Step, maxAttempts: nat)
    requires DrainingTo(a, s) && Shape(s) && DrainStep(step)
    ensures DrainingTo(a, Apply(s, step, maxAttempts))
  {
    if OnEntry(step) {
      DrainEntryStep(a, s, step, maxAttempts);
    } else {
      ClosedStep(s, step, maxAttempts);
      var t := Apply(s, step, maxAttempts);
      forall i | 0 <= i < |a.running|
        ensures DrainedEntry(t, a.running[i], t.running[i])
      {
        assert DrainedEntry(s, a.running[i], s.running[i]);
      }
    }
  }

  /** On a closed queue the other steps start no delivery. */
  lemma ClosedStep(s: State, step: Step, maxAttempts: nat)
    requires !s.accepting && DrainStep(step) && !OnEntry(step)
    ensures
      var t := Apply(s, step, maxAttempts);
      !t.accepting && t.running == s.running && t.dead == s.dead && t.delivered == s.delivered
  {
    if step.Resume? {
      ResumeClosed(s);
    }
  }

  lemma StepShape(s: State, step: Step, maxAttempts: nat)
    requires Shape(s)
    ensures Shape(Apply(s, step, maxAttempts))
  {
    if step.Restart? {
    } else {
      StepShapeWithin(s, step, maxAttempts);
    }
  }

  lemma StepShapeWithin(s: State, step: Step, maxAttempts: nat)
    requires Shape(s) && !step.Restart?
    ensures Shape(Apply(s, step, maxAttempts))
  {
    if OnEntry(step) {
      EntryStepAccounts(s, step, maxAttempts);
    } else if step.Submit? {
      NewJobAccounts(s.(submitted := s.submitted + {step.key}), step.key, [], false);
    } else if step.EnqueueReplay? {
      ReplayAccounts(s, step.n, maxAttempts);
    } else if step.Resume? {
      ResumeAccounts(s);
    }
  }

  /** While drain waits, deliveries only finish. */
  lemma {:induction false} DrainOnlyFinishes(a: State, s: State, steps: seq<Step>, maxAttempts: nat)
    requires DrainingTo(a, s) && Shape(s) && forall step :: step in steps ==> DrainStep(step)
    ensures DrainingTo(a, Run(s, steps, maxAttempts)) && Shape(Run(s, steps, maxAttempts))
    decreases |steps|
  {
    if steps != [] {
      assert steps[0] in steps;
      DrainStepKeeps(a, s, steps[0], maxAttempts);
      StepShape(s, steps[0], maxAttempts);
      DrainOnlyFinishes(a, Apply(s, steps[0], maxAttempts), steps[1..], maxAttempts);
    }
  }

  /**
   Drain starts in s, other steps run while it waits, and it aborts in t. What it
   reports as completed is the number of deliveries that were active at the start and
   have finished since, and together with those still active it makes up the deliveries
   active at the start; drain writes the still active and the deferred ones.
   */
  lemma DrainReports(s: State, steps: seq<Step>, maxAttempts: nat)
    requires Shape(s) && forall step :: step in steps ==> DrainStep(step)
    ensures
      var t := Run(Apply(s, StopAccepting, maxAttempts), steps, maxAttempts);
      && DrainingTo(s, t)
      && |TrackedJobs(s.running)| - |TrackedJobs(t.running)| == Dropped(s.running, t.running)
      && forall key :: Active(t, key) || HasKey(t.deferred, key) ==> Awaited(Apply(t, Abort, maxAttempts), key)
  {
    var closed := Apply(s, StopAccepting, maxAttempts);
    var t := Run(closed, steps, maxAttempts);
    DrainOnlyFinishes(s, closed, steps, maxAttempts);
    assert forall i :: 0 <= i < |s.running| ==> DrainedEntry(t, s.running[i], t.running[i]);
    DroppedCounts(s.running, t.running);
    AbortAccounts(t, maxAttempts);
  }

  predicate ResumeOver(s: State) {
    s.resumed && s.found == [] && s.taken == []
  }

  predicate SameStore(s: State, t: State) {
    && t.resumed == s.resumed && t.found == s.found && t.taken == s.taken
    && t.drainWrites == s.drainWrites && t.pending == s.pending
  }

  lemma AttemptKeepsStore(s: State, step: Step, maxAttempts: nat)
    requires step.StartAttempt? || step.AttemptOk? || step.AttemptFail?
    ensures SameStore(s, ApplyToEntry(s, step, maxAttempts))
  {
  }

  lemma FinishKeepsStore(s: State, step: Step, maxAttempts: nat)
    requires step.SaveDeadLetter? || step.Release? || step.DeleteDeadLetter?
    ensures SameStore(s, ApplyToEntry(s, step, maxAttempts))
  {
  }

  lemma WrittenStep(s: State, step: Step, maxAttempts: nat, key: string)
    requires ResumeOver(s) && !step.Restart? && (Awaited(s, key) || HasKey(s.pending, key))
    ensures
      var t := Apply(s, step, maxAttempts);
      ResumeOver(t) && (Awaited(t, key) || HasKey(t.pending, key))
  {
    if OnEntry(step) {
      if step.StartAttempt? || step.AttemptOk? || step.AttemptFail? {
        AttemptKeepsStore(s, step, maxAttempts);
      } else {
        FinishKeepsStore(s, step, maxAttempts);
      }
    } else if IsWrite(step) {
      WrittenWrite(s, step, maxAttempts, key);
    } else if step.Abort? {
      HasKeyConcat(s.drainWrites, TrackedJobs(s.running) + s.deferred, key);
    } else if step.DeleteFound? {
      WithoutKeeps(s.pending, [], key);
      assert s.taken + s.found == [];
    }
  }

  lemma WrittenWrite(s: State, step: Step, maxAttempts: nat, key: string)
    requires IsWrite(step) && (Awaited(s, key) || HasKey(s.pending, key))
    ensures
      var t := Apply(s, step, maxAttempts);
      && (Awaited(t, key) || HasKey(t.pending, key))
      && t.resumed == s.resumed && t.found == s.found && t.taken == s.taken
  {
    if step.CompleteDrainWrite? && step.n < |s.drainWrites| {
      HasKeyRemoved(s.drainWrites, step.n, key);
      SaveKeeps(s.pending, s.drainWrites[step.n], key);
    } else if step.CompleteLateWrite? && step.n < |s.lateWrites| {
      SaveKeeps(s.pending, s.lateWrites[step.n], key);
    }
  }

  /** With no resume under way, what drain writes is stored when drain has returned. */
  lemma {:induction false} WrittenWhenDrained(s: State, steps: seq<Step>, maxAttempts: nat, key: string)
    requires ResumeOver(s) && (Awaited(s, key) || HasKey(s.pending, key))
    requires forall step :: step in steps ==> !step.Restart?
    ensures
      var t := Run(s, steps, maxAttempts);
      ResumeOver(t) && (t.drainWrites == [] ==> HasKey(t.pending, key))
    decreases |steps|
  {
    if steps != [] {
      assert steps[0] in steps;
      WrittenStep(s, steps[0], maxAttempts, key);
      WrittenWhenDrained(Apply(s, steps[0], maxAttempts), steps[1..], maxAttempts, key);
    }
  }
}
