/**
 The webhook delivery queue over process lifetimes. Each `Step` is one stretch of
 code that runs without being interrupted, or the completion of one database
 operation that was started before. Deliveries, draining, resuming, replaying and
 writes interleave freely. What holds in every run is proved in
 `WebhookConservation` and `WebhookBudget`.
 */
module WebhookQueue {
  import opened Common

  /**
   A delivery job. `jid` numbers the submission or replay it stems from, and
   `carried` is the number of history records it took over from a dead letter.
   */
  datatype Job = Job(jid: nat, key: string, attempts: nat, history: seq<nat>, carried: nat)

  /**
   Where deliverWebhook is: about to look at its next attempt, waiting for an HTTP
   response, returned with an outcome, dead-lettered, let go of with a dead letter
   to delete, or done with.
   */
  datatype Phase = Waiting | Posting | Delivered | Failed | DeadLettered | Cleaning | Released

  /** A running delivery; `tracked` while it is in the queue's active set. */
  datatype Entry = Entry(job: Job, phase: Phase, replay: bool, tracked: bool)

  /**
   The queue, its stores and the operations under way: `drainWrites` are the writes
   that drain waits for, `lateWrites` those of enqueues after the abort, which nobody
   waits for. `found` are the stored jobs that takeAll has read but not deleted yet,
   `taken` those it has deleted, and `letters` the dead letters read for a replay.
   */
  datatype State = State(
    accepting: bool,
    aborted: bool,
    resumed: bool,
    running: seq<Entry>,
    deferred: seq<Job>,
    drainWrites: seq<Job>,
    lateWrites: seq<Job>,
    found: seq<Job>,
    taken: seq<Job>,
    letters: seq<Job>,
    pending: seq<Job>,
    dead: map<string, Job>,
    delivered: set<string>,
    submitted: set<string>,
    posts: map<nat, nat>,
    owners: seq<string>)

  datatype Step =
    | Submit(key: string)
    | StartAttempt(i: nat)
    | AttemptOk(i: nat)
    | AttemptFail(i: nat)
    | SaveDeadLetter(i: nat)
    | Release(i: nat)
    | DeleteDeadLetter(i: nat)
    | StopAccepting
    | Abort
    | CompleteDrainWrite(n: nat)
    | CompleteLateWrite(n: nat)
    | FindPending
    | DeleteFound
    | Resume
    | FindDeadLetter(key: string)
    | EnqueueReplay(n: nat)
    | Restart

  // ----- what the code does ------------------------------------------------

  /** replaceOne with upsert, keyed by the idempotency key. */
  function Save(pending: seq<Job>, job: Job): seq<Job>
    decreases |pending|
  {
    if pending == [] then [job]
    else if pending[0].key == job.key then [job] + pending[1..]
    else [pending[0]] + Save(pending[1..], job)
  }

  predicate HasKey(jobs: seq<Job>, key: string) {
    exists i :: 0 <= i < |jobs| && jobs[i].key == key
  }

  /** deleteMany of the documents with the keys of the given jobs. */
  function Without(pending: seq<Job>, jobs: seq<Job>): seq<Job>
    decreases |pending|
  {
    if pending == [] then []
    else (if HasKey(jobs, pending[0].key) then [] else [pending[0]]) + Without(pending[1..], jobs)
  }

  function RemoveAt<T>(xs: seq<T>, n: nat): (r: seq<T>)
    requires n < |xs|
    ensures |r| == |xs| - 1
  {
    xs[..n] + xs[n + 1..]
  }

  /** After the abort the job is written to the store, and nobody waits for that. */
  function Enqueue(s: State, job: Job, replay: bool): State {
    if s.accepting then s.(running := s.running + [Entry(job, Waiting, replay, true)])
    else if s.aborted then s.(lateWrites := s.lateWrites + [job])
    else s.(deferred := s.deferred + [job])
  }

  /** Enqueues a new job, under a number of its own. */
  function EnqueueNew(s: State, key: string, history: seq<nat>, replay: bool): State {
    Enqueue(s.(owners := s.owners + [key]), Job(|s.owners|, key, 0, history, |history|), replay)
  }

  /** Enqueues the first of the jobs that a resume took. */
  function ResumeOne(s: State): State
    requires s.taken != []
  {
    Enqueue(s.(taken := s.taken[1..]), s.taken[0], false)
  }

  function ResumeAll(s: State): State
    decreases |s.taken|
  {
    if s.taken == [] then s else ResumeAll(ResumeOne(s))
  }

  /** The number of HTTP posts made for a job so far, in this and all earlier processes. */
  function Posts(posts: map<nat, nat>, jid: nat): nat {
    if jid in posts then posts[jid] else 0
  }

  function SetEntry(s: State, i: nat, e: Entry): State
    requires i < |s.running|
  {
    s.(running := s.running[i := e])
  }

  function TrackedJobs(running: seq<Entry>): seq<Job>
    decreases |running|
  {
    if running == [] then []
    else (if running[0].tracked then [running[0].job] else []) + TrackedJobs(running[1..])
  }

  function Untrack(running: seq<Entry>): (r: seq<Entry>)
    ensures |r| == |running|
  {
    seq(|running|, i requires 0 <= i < |running| => running[i].(tracked := false))
  }

  /** The attempt counter moves, and the history grows, before the request is sent. */
  function CountAttempt(job: Job): Job {
    job.(attempts := job.attempts + 1, history := job.history + [job.attempts + 1])
  }

  predicate InPhase(s: State, i: nat, phase: Phase) {
    i < |s.running| && s.running[i].phase == phase
  }

  /** A step on delivery i. */
  function ApplyToEntry(s: State, step: Step, maxAttempts: nat): State
    requires OnEntry(step)
  {
    match step
    case StartAttempt(i) =>
      if !InPhase(s, i, Waiting) then s
      else
        var e := s.running[i];
        if e.job.attempts >= maxAttempts then SetEntry(s, i, e.(phase := Failed))
        else if s.aborted then s
        else SetEntry(s, i, e.(phase := Posting, job := CountAttempt(e.job)))
             .(posts := s.posts[e.job.jid := Posts(s.posts, e.job.jid) + 1])
    case AttemptOk(i) =>
      if !InPhase(s, i, Posting) then s
      else SetEntry(s, i, s.running[i].(phase := Delivered)).(delivered := s.delivered + {s.running[i].job.key})
    case AttemptFail(i) =>
      if !InPhase(s, i, Posting) then s
      else SetEntry(s, i, s.running[i].(phase := if s.running[i].job.attempts >= maxAttempts then Failed else Waiting))
    case SaveDeadLetter(i) =>
      if !InPhase(s, i, Failed) then s
      else
        SetEntry(s, i, s.running[i].(phase := DeadLettered))
          .(dead := s.dead[s.running[i].job.key := s.running[i].job])
    case Release(i) =>
      if InPhase(s, i, Delivered) && s.running[i].replay then
        SetEntry(s, i, s.running[i].(phase := Cleaning, tracked := false))
      else if InPhase(s, i, Delivered) || InPhase(s, i, DeadLettered)
      then SetEntry(s, i, s.running[i].(phase := Released, tracked := false))
      else s
    case DeleteDeadLetter(i) =>
      if !InPhase(s, i, Cleaning) then s
      else SetEntry(s, i, s.running[i].(phase := Released)).(dead := s.dead - {s.running[i].job.key})
  }

  predicate OnEntry(step: Step) {
    || step.StartAttempt? || step.AttemptOk? || step.AttemptFail?
    || step.SaveDeadLetter? || step.Release? || step.DeleteDeadLetter?
  }

  /**
   One step; a step that is not possible in a state leaves the state as it is. A process
   resumes once, when it starts, and ends after its drain has returned.
   */
  function Apply(s: State, step: Step, maxAttempts: nat): State {
    if OnEntry(step) then ApplyToEntry(s, step, maxAttempts)
    else
      match step
      case Submit(key) => EnqueueNew(s.(submitted := s.submitted + {key}), key, [], false)
      case StopAccepting => s.(accepting := false)
      case Abort => Halted(s, TrackedJobs(s.running) + s.deferred)
      case CompleteDrainWrite(n) =>
        if n < |s.drainWrites|
        then s.(pending := Save(s.pending, s.drainWrites[n]), drainWrites := RemoveAt(s.drainWrites, n))
        else s
      case CompleteLateWrite(n) =>
        if n < |s.lateWrites|
        then s.(pending := Save(s.pending, s.lateWrites[n]), lateWrites := RemoveAt(s.lateWrites, n))
        else s
      case FindPending => if s.resumed then s else s.(resumed := true, found := s.pending)
      case DeleteFound => s.(pending := Without(s.pending, s.found), taken := s.taken + s.found, found := [])
      case Resume => ResumeAll(s)
      case FindDeadLetter(key) => if key in s.dead then s.(letters := s.letters + [s.dead[key]]) else s
      case EnqueueReplay(n) =>
        if n < |s.letters|
        then EnqueueNew(s.(letters := RemoveAt(s.letters, n)), s.letters[n].key, s.letters[n].history, true)
        else s
      case Restart => if CanExit(s) then NewProcess(s) else s
      case _ => s
  }

  /** After the abort nothing is active or deferred, and the unfinished jobs are being written. */
  function Halted(s: State, unfinished: seq<Job>): State {
    s.(accepting := false, aborted := true, running := Untrack(s.running), deferred := [],
       drainWrites := s.drainWrites + unfinished)
  }

  /** What shutdown waits for before the process exits. */
  predicate CanExit(s: State) {
    s.aborted && s.drainWrites == []
  }

  /** What the stores held goes on; everything else is gone with the process. */
  function NewProcess(s: State): State {
    s.(accepting := true, aborted := false, resumed := false, running := [], deferred := [], drainWrites := [],
       lateWrites := [], found := [], taken := [], letters := [])
  }

  function Run(s: State, steps: seq<Step>, maxAttempts: nat): State
    decreases |steps|
  {
    if steps == [] then s else Run(Apply(s, steps[0], maxAttempts), steps[1..], maxAttempts)
  }

  const EMPTY :=
    State(true, false, false, [], [], [], [], [], [], [], [], map[], {}, {}, map[], [])

  // ----- the store ---------------------------------------------------------

  lemma MoveOver<T>(s: seq<T>, i: nat, rest: seq<T>)
    requires i < |s|
    ensures s[..i] + ([s[i]] + rest) == s[..i + 1] + rest && s[i..][1..] == s[i + 1..]
  {
  }

  lemma SaveFurther(pending: seq<Job>, i: nat, job: Job)
    requires i < |pending| && pending[i].key != job.key
    ensures pending[..i] + Save(pending[i..], job) == pending[..i + 1] + Save(pending[i + 1..], job)
  {
    MoveOver(pending, i, Save(pending[i + 1..], job));
  }

  lemma SaveHere(pending: seq<Job>, i: nat, job: Job)
    requires i <= |pending| && (i < |pending| ==> pending[i].key == job.key)
    ensures pending[..i] + Save(pending[i..], job) == if i < |pending| then pending[i := job] else pending + [job]
  {
    if i < |pending| {
      MoveOver(pending, i, []);
      assert Save(pending[i..], job) == [job] + pending[i + 1..];
    } else {
      assert pending[i..] == [];
    }
  }

  lemma {:induction false} WithoutAppend(pending: seq<Job>, jobs: seq<Job>, last: Job)
    ensures Without(pending + [last], jobs) == Without(pending, jobs) + if HasKey(jobs, last.key) then [] else [last]
    decreases |pending|
  {
    if pending == [] {
      assert pending + [last] == [last] && [last][1..] == [];
    } else {
      assert (pending + [last])[1..] == pending[1..] + [last];
      WithoutAppend(pending[1..], jobs, last);
    }
  }

  method DeleteKeys(pending: seq<Job>, jobs: seq<Job>) returns (kept: seq<Job>)
    ensures kept == Without(pending, jobs)
  {
    kept := [];
    for i := 0 to |pending|
      invariant kept == Without(pending[..i], jobs)
    {
      assert pending[..i + 1] == pending[..i] + [pending[i]];
      WithoutAppend(pending[..i], jobs, pending[i]);
      if !HasKey(jobs, pending[i].key) { kept := kept + [pending[i]]; }
    }
    assert pending[..|pending|] == pending;
  }

  // ----- the queue as an object --------------------------------------------

  /** The queue together with its stores and the operations under way. */
  class WebhookDeliveryQueue {
    const maxAttempts: nat
    var accepting: bool
    var aborted: bool
    var resumed: bool
    var running: seq<Entry>
    var deferred: seq<Job>
    var drainWrites: seq<Job>
    var lateWrites: seq<Job>
    var found: seq<Job>
    var taken: seq<Job>
    var letters: seq<Job>
    var pending: seq<Job>
    var dead: map<string, Job>
    var owners: seq<string>
    ghost var delivered: set<string>
    ghost var submitted: set<string>
    ghost var posts: map<nat, nat>

    ghost function Snapshot(): State
      reads this
    {
      State(accepting, aborted, resumed, running, deferred, drainWrites, lateWrites, found, taken, letters, pending,
            dead, delivered, submitted, posts, owners)
    }

    constructor (maxAttempts: nat)
      ensures Snapshot() == EMPTY && this.maxAttempts == maxAttempts
    {
      this.maxAttempts := maxAttempts;
      accepting, aborted, resumed, running, deferred := true, false, false, [], [];
      drainWrites, lateWrites, found, taken, letters := [], [], [], [], [];
      pending, dead, owners, delivered, submitted, posts := [], map[], [], {}, {}, map[];
    }

    method EnqueueJob(job: Job, replay: bool) returns (started: bool)
      modifies this`running, this`lateWrites, this`deferred
      ensures Snapshot() == Enqueue(old(Snapshot()), job, replay)
      ensures started == accepting
    {
      if !accepting {
        if aborted {
          lateWrites := lateWrites + [job];
        } else {
          deferred := deferred + [job];
        }
        return false;
      }
      running := running + [Entry(job, Waiting, replay, true)];
      return true;
    }

    /** A job with a number of its own and no attempts. */
    method EnqueueFresh(key: string, history: seq<nat>, replay: bool) returns (started: bool)
      modifies this`owners, this`running, this`lateWrites, this`deferred
      ensures Snapshot() == EnqueueNew(old(Snapshot()), key, history, replay)
      ensures started == accepting
    {
      owners := owners + [key];
      started := EnqueueJob(Job(|owners| - 1, key, 0, history, |history|), replay);
    }

    method SubmitPayload(key: string) returns (started: bool)
      modifies this
      ensures Snapshot() == Apply(old(Snapshot()), Submit(key), maxAttempts)
    {
      submitted := submitted + {key};
      started := EnqueueFresh(key, [], false);
    }

    /** The top of the delivery loop for delivery i. */
    method BeginAttempt(i: nat)
      requires i < |running| && running[i].phase.Waiting?
      modifies this
      ensures Snapshot() == Apply(old(Snapshot()), StartAttempt(i), maxAttempts)
    {
      var e := running[i];
      if e.job.attempts >= maxAttempts {
        running := running[i := e.(phase := Failed)];
        return;
      }
      if aborted { return; }
      e := e.(job := e.job.(attempts := e.job.attempts + 1));
      e := e.(job := e.job.(history := e.job.history + [e.job.attempts]));
      posts := posts[e.job.jid := Posts(posts, e.job.jid) + 1];
      running := running[i := e.(phase := Posting)];
    }

    /** The response to delivery i's request, or None for a network error. */
    method EndAttempt(i: nat, statusCode: Option<nat>)
      requires i < |running| && running[i].phase.Posting?
      modifies this
      ensures Snapshot() == Apply(old(Snapshot()),
        if statusCode.Some? && 200 <= statusCode.value < 300 then AttemptOk(i) else AttemptFail(i), maxAttempts)
    {
      var e := running[i];
      if statusCode.Some? && statusCode.value >= 200 && statusCode.value < 300 {
        running := running[i := e.(phase := Delivered)];
        delivered := delivered + {e.job.key};
      } else if e.job.attempts < maxAttempts {
        running := running[i := e.(phase := Waiting)];
      } else {
        running := running[i := e.(phase := Failed)];
      }
    }

    method SaveDeadLetterOf(i: nat)
      requires i < |running| && running[i].phase.Failed?
      modifies this
      ensures Snapshot() == Apply(old(Snapshot()), SaveDeadLetter(i), maxAttempts)
    {
      dead := dead[running[i].job.key := running[i].job];
      running := running[i := running[i].(phase := DeadLettered)];
    }

    method ReleaseEntry(i: nat)
      requires i < |running| && (running[i].phase.Delivered? || running[i].phase.DeadLettered?)
      modifies this
      ensures Snapshot() == Apply(old(Snapshot()), Release(i), maxAttempts)
    {
      var e := running[i];
      var next := if e.replay && e.phase.Delivered? then Cleaning else Released;
      running := running[i := e.(phase := next, tracked := false)];
    }

    /** The end of replayDeadLetter, once its delivery has succeeded. */
    method DeleteReplayed(i: nat)
      requires i < |running| && running[i].phase.Cleaning?
      modifies this
      ensures Snapshot() == Apply(old(Snapshot()), DeleteDeadLetter(i), maxAttempts)
    {
      dead := dead - {running[i].job.key};
      running := running[i := running[i].(phase := Released)];
    }

    method InFlightCount() returns (n: nat)
      ensures n == |TrackedJobs(running)|
    {
      n := 0;
      for i := 0 to |running|
        invariant |TrackedJobs(running)| == n + |TrackedJobs(running[i..])|
      {
        assert running[i..][1..] == running[i + 1..];
        if running[i].tracked { n := n + 1; }
      }
    }

    /** The start of drain: the queue closes, and the result is what drain waits for. */
    method BeginDrain() returns (startedWith: nat)
      modifies this
      ensures Snapshot() == Apply(old(Snapshot()), StopAccepting, maxAttempts)
      ensures startedWith == |TrackedJobs(old(running))|
    {
      accepting := false;
      startedWith := InFlightCount();
    }

    /** Drain after its wait is over or has timed out, up to the writes it starts and waits for. */
    method AbortDrain(startedWith: nat) returns (completed: int, persisted: nat)
      modifies this
      ensures Snapshot() == Apply(old(Snapshot()), Abort, maxAttempts)
      ensures completed == startedWith - |TrackedJobs(old(running))|
      ensures persisted == |TrackedJobs(old(running))| + |old(deferred)|
    {
      var active := ActiveJobs();
      completed := startedWith - |active|;
      persisted := |active + deferred|;
      Halt(active + deferred);
    }

    method Halt(unfinished: seq<Job>)
      modifies this
      ensures Snapshot() == Halted(old(Snapshot()), unfinished)
    {
      accepting, aborted := false, true;
      running := Untrack(running);
      deferred := [];
      drainWrites := drainWrites + unfinished;
    }

    method ActiveJobs() returns (jobs: seq<Job>)
      ensures jobs == TrackedJobs(running)
    {
      jobs := [];
      for i := 0 to |running|
        invariant TrackedJobs(running) == jobs + TrackedJobs(running[i..])
      {
        assert running[i..][1..] == running[i + 1..];
        if running[i].tracked { jobs := jobs + [running[i].job]; }
      }
      assert running[|running|..] == [];
    }

    /** Replaces the stored job with the same key, or adds the job. */
    method SavePending(job: Job)
      modifies this`pending
      ensures pending == Save(old(pending), job)
    {
      var i := 0;
      ghost var saved := Save(pending, job);
      while i < |pending| && pending[i].key != job.key
        invariant i <= |pending|
        invariant saved == pending[..i] + Save(pending[i..], job)
      {
        SaveFurther(pending, i, job);
        i := i + 1;
      }
      SaveHere(pending, i, job);
      if i < |pending| {
        pending := pending[i := job];
      } else {
        pending := pending + [job];
      }
    }

    /** One of the writes of drain reaches the store; they do so in any order. */
    method FinishDrainWrite(n: nat)
      requires n < |drainWrites|
      modifies this
      ensures Snapshot() == Apply(old(Snapshot()), CompleteDrainWrite(n), maxAttempts)
    {
      var job := drainWrites[n];
      drainWrites := RemoveAt(drainWrites, n);
      SavePending(job);
    }

    /** A write of a late enqueue reaches the store. */
    method FinishLateWrite(n: nat)
      requires n < |lateWrites|
      modifies this
      ensures Snapshot() == Apply(old(Snapshot()), CompleteLateWrite(n), maxAttempts)
    {
      var job := lateWrites[n];
      lateWrites := RemoveAt(lateWrites, n);
      SavePending(job);
    }

    /** takeAll has read the stored jobs. */
    method ReadPending()
      requires !resumed
      modifies this
      ensures Snapshot() == Apply(old(Snapshot()), FindPending, maxAttempts)
    {
      resumed := true;
      found := pending;
    }

    /** takeAll has deleted what it read, and what was written under the same keys since. */
    method DeletePending()
      modifies this
      ensures Snapshot() == Apply(old(Snapshot()), DeleteFound, maxAttempts)
    {
      pending := DeleteKeys(pending, found);
      taken := taken + found;
      found := [];
    }

    /** resumePending after its last await: every job it took is enqueued. */
    method ResumeTaken()
      modifies this
      ensures Snapshot() == Apply(old(Snapshot()), Resume, maxAttempts)
    {
      ghost var end := ResumeAll(Snapshot());
      while |taken| > 0
        invariant ResumeAll(Snapshot()) == end
        decreases |taken|
      {
        var job := taken[0];
        taken := taken[1..];
        var started := EnqueueJob(job, false);
      }
    }

    /** replayDeadLetter has read a dead letter. */
    method ReadDeadLetter(key: string) returns (known: bool)
      modifies this
      ensures Snapshot() == Apply(old(Snapshot()), FindDeadLetter(key), maxAttempts)
      ensures known == (key in dead)
    {
      if key !in dead { return false; }
      letters := letters + [dead[key]];
      return true;
    }

    /** And then enqueues it, with no attempts and its whole history. */
    method ReplayLetter(n: nat) returns (started: bool)
      requires n < |letters|
      modifies this
      ensures Snapshot() == Apply(old(Snapshot()), EnqueueReplay(n), maxAttempts)
    {
      var letter := letters[n];
      letters := RemoveAt(letters, n);
      started := EnqueueFresh(letter.key, letter.history, true);
    }
  }
}
