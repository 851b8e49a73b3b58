/**
 The attempt budget of the webhook queue: over any run, with drains, exits and resumes
 anywhere, a job is posted at most as often as it may be, and its counter and its
 history tell how often that was.
 */
module WebhookBudget {
  import opened Common
  import opened WebhookQueue

  function JidCount(jobs: seq<Job>, jid: nat): nat
    decreases |jobs|
  {
    if jobs == [] then 0 else (if jobs[0].jid == jid then 1 else 0) + JidCount(jobs[1..], jid)
  }

  lemma {:induction false} JidCountConcat(a: seq<Job>, b: seq<Job>, jid: nat)
    ensures JidCount(a + b, jid) == JidCount(a, jid) + JidCount(b, jid)
    decreases |a|
  {
    if a == [] {
      assert a + b == b;
    } else {
      assert (a + b)[1..] == a[1..] + b;
      JidCountConcat(a[1..], b, jid);
    }
  }

  lemma JidCountOne(job: Job, jid: nat)
    ensures JidCount([job], jid) == if job.jid == jid then 1 else 0
  {
    assert [job][1..] == [];
  }

  lemma JidCountRemoved(jobs: seq<Job>, n: nat, jid: nat)
    requires n < |jobs|
    ensures JidCount(jobs, jid) == JidCount(RemoveAt(jobs, n), jid) + if jobs[n].jid == jid then 1 else 0
  {
    assert jobs == jobs[..n] + ([jobs[n]] + jobs[n + 1..]);
    JidCountConcat(jobs[..n], [jobs[n]] + jobs[n + 1..], jid);
    JidCountConcat([jobs[n]], jobs[n + 1..], jid);
    JidCountConcat(jobs[..n], jobs[n + 1..], jid);
    JidCountOne(jobs[n], jid);
  }

  lemma {:induction false} JidCountAt(jobs: seq<Job>, i: nat)
    requires i < |jobs|
    ensures JidCount(jobs, jobs[i].jid) >= 1
    decreases |jobs|
  {
    if i > 0 {
      JidCountAt(jobs[1..], i - 1);
    }
  }

  lemma {:induction false} JidCountNone(jobs: seq<Job>, jid: nat)
    requires forall job :: job in jobs ==> job.jid != jid
    ensures JidCount(jobs, jid) == 0
    decreases |jobs|
  {
    if jobs != [] {
      assert jobs[0] in jobs;
      JidCountNone(jobs[1..], jid);
    }
  }

  lemma {:induction false} JidCountSome(jobs: seq<Job>, jid: nat)
    requires JidCount(jobs, jid) > 0
    ensures exists i :: 0 <= i < |jobs| && jobs[i].jid == jid
    decreases |jobs|
  {
    if jobs[0].jid != jid {
      JidCountSome(jobs[1..], jid);
      var i :| 0 <= i < |jobs[1..]| && jobs[1..][i].jid == jid;
      assert jobs[i + 1].jid == jid;
    }
  }

  lemma {:induction false} SaveCount(pending: seq<Job>, job: Job, jid: nat)
    ensures JidCount(Save(pending, job), jid) <= JidCount(pending, jid) + if job.jid == jid then 1 else 0
    ensures forall x :: x in Save(pending, job) ==> x in pending || x == job
    decreases |pending|
  {
    if pending == [] {
      JidCountOne(job, jid);
    } else if pending[0].key != job.key {
      SaveCount(pending[1..], job, jid);
    }
  }

  lemma {:induction false} WithoutCount(pending: seq<Job>, jobs: seq<Job>, jid: nat)
    ensures JidCount(Without(pending, jobs), jid) <= JidCount(pending, jid)
    ensures forall x :: x in Without(pending, jobs) ==> x in pending && !HasKey(jobs, x.key)
    decreases |pending|
  {
    if pending != [] {
      var rest := Without(pending[1..], jobs);
      WithoutCount(pending[1..], jobs, jid);
      JidCountConcat([pending[0]], rest, jid);
      JidCountOne(pending[0], jid);
      assert [] + rest == rest;
    }
  }

  lemma {:induction false} TrackedCount(running: seq<Entry>, i: nat, e: Entry, jid: nat)
    requires i < |running|
    ensures var one := (x: Entry) => if x.tracked && x.job.jid == jid then 1 else 0;
      JidCount(TrackedJobs(running[i := e]), jid) ==
      JidCount(TrackedJobs(running), jid) - one(running[i]) + one(e)
    decreases |running|
  {
    var r := running[i := e];
    var head := (x: Entry) => if x.tracked then [x.job] else [];
    JidCountConcat(head(running[0]), TrackedJobs(running[1..]), jid);
    JidCountConcat(head(r[0]), TrackedJobs(r[1..]), jid);
    if i == 0 {
      assert r[1..] == running[1..];
    } else {
      assert r[1..] == running[1..][i - 1 := e];
      TrackedCount(running[1..], i - 1, e, jid);
    }
  }

  lemma {:induction false} TrackedConcat(running: seq<Entry>, e: Entry)
    ensures TrackedJobs(running + [e]) == TrackedJobs(running) + if e.tracked then [e.job] else []
    decreases |running|
  {
    if running == [] {
      assert running + [e] == [e] && [e][1..] == [];
      assert TrackedJobs([e]) == (if e.tracked then [e.job] else []) + [];
    } else {
      assert (running + [e])[1..] == running[1..] + [e];
      TrackedConcat(running[1..], e);
      var head := if running[0].tracked then [running[0].job] else [];
      var last := if e.tracked then [e.job] else [];
      assert head + (TrackedJobs(running[1..]) + last) == (head + TrackedJobs(running[1..])) + last;
    }
  }

  predicate TrackedIn(running: seq<Entry>, job: Job) {
    exists i :: 0 <= i < |running| && running[i].tracked && running[i].job == job
  }

  lemma {:induction false} TrackedFrom(running: seq<Entry>)
    ensures forall x :: x in TrackedJobs(running) ==> TrackedIn(running, x)
    decreases |running|
  {
    if running != [] {
      TrackedFrom(running[1..]);
      forall x | x in TrackedJobs(running)
        ensures TrackedIn(running, x)
      {
        if x in TrackedJobs(running[1..]) {
          var i :| 0 <= i < |running[1..]| && running[1..][i].tracked && running[1..][i].job == x;
          assert running[i + 1].job == x;
        } else {
          assert running[0].job == x;
        }
      }
    }
  }

  lemma {:induction false} UntrackedNone(running: seq<Entry>)
    requires forall i :: 0 <= i < |running| ==> !running[i].tracked
    ensures TrackedJobs(running) == []
    decreases |running|
  {
    if running != [] {
      UntrackedNone(running[1..]);
    }
  }

  // ----- the budget --------------------------------------------------------

  /**
   The job is its number's own, its counter is the number of posts made for it, and its
   history has one record for each of them beside those it took over.
   */
  predicate JobOk(posts: map<nat, nat>, owners: seq<string>, job: Job) {
    && job.jid < |owners| && owners[job.jid] == job.key
    && job.attempts == Posts(posts, job.jid)
    && |job.history| == job.carried + job.attempts
  }

  ghost predicate AllOk(posts: map<nat, nat>, owners: seq<string>, jobs: seq<Job>) {
    forall job :: job in jobs ==> JobOk(posts, owners, job)
  }

  predicate Over(e: Entry) {
    e.phase.Cleaning? || e.phase.Released?
  }

  /** Copies of a job outside the active set and the store. */
  function Waiting(s: State, jid: nat): nat {
    JidCount(s.deferred, jid) + JidCount(s.drainWrites, jid) + JidCount(s.lateWrites, jid) + JidCount(s.taken, jid)
  }

  /** Copies of a job that this process can still attempt or write. */
  function Live(s: State, jid: nat): nat {
    JidCount(TrackedJobs(s.running), jid) + Waiting(s, jid)
  }

  /** There is one copy of a job, or one in the store that a resume has read as well. */
  predicate OneCopy(s: State, jid: nat) {
    Live(s, jid) + JidCount(s.pending, jid) <= 1 && Live(s, jid) + JidCount(s.found, jid) <= 1
  }

  predicate EntryOk(s: State, e: Entry) {
    && (!Over(e) ==> JobOk(s.posts, s.owners, e.job))
    && (e.tracked ==> !Over(e))
    && (!s.aborted && !e.tracked ==> Over(e))
  }

  ghost predicate PostsOk(s: State, maxAttempts: nat) {
    && (forall jid: nat :: Posts(s.posts, jid) <= maxAttempts)
    && (forall jid: nat :: jid >= |s.owners| ==> Posts(s.posts, jid) == 0)
  }

  ghost predicate JobsOk(s: State) {
    && AllOk(s.posts, s.owners, s.deferred) && AllOk(s.posts, s.owners, s.drainWrites)
    && AllOk(s.posts, s.owners, s.lateWrites) && AllOk(s.posts, s.owners, s.taken)
    && AllOk(s.posts, s.owners, s.found) && AllOk(s.posts, s.owners, s.pending)
  }

  ghost predicate Budget(s: State, maxAttempts: nat) {
    && PostsOk(s, maxAttempts) && JobsOk(s)
    && (forall i :: 0 <= i < |s.running| ==> EntryOk(s, s.running[i]))
    && (forall jid: nat :: OneCopy(s, jid))
    && !(s.accepting && s.aborted)
    && (s.aborted ==> forall i :: 0 <= i < |s.running| ==> !s.running[i].tracked)
  }

  // ----- new and enqueued jobs ---------------------------------------------

  predicate NoCopy(s: State, jid: nat) {
    Live(s, jid) == 0 && JidCount(s.pending, jid) == 0 && JidCount(s.found, jid) == 0
  }

  lemma EnqueueCopies(s: State, job: Job, replay: bool, jid: nat)
    ensures
      var t := Enqueue(s, job, replay);
      Live(t, jid) == Live(s, jid) + if job.jid == jid then 1 else 0
  {
    JidCountOne(job, jid);
    if s.accepting {
      TrackedConcat(s.running, Entry(job, Phase.Waiting, replay, true));
      JidCountConcat(TrackedJobs(s.running), [job], jid);
    } else if s.aborted {
      JidCountConcat(s.lateWrites, [job], jid);
    } else {
      JidCountConcat(s.deferred, [job], jid);
    }
  }

  lemma EnqueueBudget(s: State, job: Job, replay: bool, maxAttempts: nat)
    requires Budget(s, maxAttempts) && JobOk(s.posts, s.owners, job) && NoCopy(s, job.jid)
    ensures Budget(Enqueue(s, job, replay), maxAttempts)
  {
    var t := Enqueue(s, job, replay);
    forall jid: nat
      ensures OneCopy(t, jid)
    {
      assert OneCopy(s, jid);
      EnqueueCopies(s, job, replay, jid);
    }
    forall i | 0 <= i < |t.running|
      ensures EntryOk(t, t.running[i])
    {
      assert i < |s.running| ==> EntryOk(s, s.running[i]);
    }
  }

  /** No job has a number that has not been given out. */
  lemma NoCopyOfNext(s: State, maxAttempts: nat)
    requires Budget(s, maxAttempts)
    ensures NoCopy(s, |s.owners|)
  {
    TrackedFrom(s.running);
    forall job | job in TrackedJobs(s.running)
      ensures job.jid != |s.owners|
    {
      var i :| 0 <= i < |s.running| && s.running[i].tracked && s.running[i].job == job;
      assert EntryOk(s, s.running[i]);
    }
    JidCountNone(TrackedJobs(s.running), |s.owners|);
    JidCountNone(s.deferred, |s.owners|);
    JidCountNone(s.drainWrites, |s.owners|);
    JidCountNone(s.lateWrites, |s.owners|);
    JidCountNone(s.taken, |s.owners|);
    JidCountNone(s.found, |s.owners|);
    JidCountNone(s.pending, |s.owners|);
  }

  /** Numbering a new job changes nothing for the others. */
  lemma NumberedBudget(s: State, key: string, maxAttempts: nat)
    requires Budget(s, maxAttempts)
    ensures
      var t := s.(owners := s.owners + [key]);
      Budget(t, maxAttempts) && NoCopy(t, |s.owners|)
  {
    var t := s.(owners := s.owners + [key]);
    NoCopyOfNext(s, maxAttempts);
    assert forall job :: JobOk(s.posts, s.owners, job) ==> JobOk(t.posts, t.owners, job);
    forall i | 0 <= i < |t.running|
      ensures EntryOk(t, t.running[i])
    {
      assert EntryOk(s, s.running[i]);
    }
    forall jid: nat
      ensures OneCopy(t, jid)
    {
      assert OneCopy(s, jid);
    }
  }

  lemma NewJobBudget(s: State, key: string, history: seq<nat>, replay: bool, maxAttempts: nat)
    requires Budget(s, maxAttempts)
    ensures Budget(EnqueueNew(s, key, history, replay), maxAttempts)
  {
    NumberedBudget(s, key, maxAttempts);
    EnqueueBudget(s.(owners := s.owners + [key]), Job(|s.owners|, key, 0, history, |history|), replay, maxAttempts);
  }

  /** Fields the budget does not look at. */
  lemma UnrelatedBudget(s: State, t: State, maxAttempts: nat)
    requires Budget(s, maxAttempts)
    requires t == s.(submitted := t.submitted, letters := t.letters, dead := t.dead, delivered := t.delivered,
                     resumed := t.resumed)
    ensures Budget(t, maxAttempts)
  {
    forall jid: nat
      ensures OneCopy(t, jid)
    {
      assert OneCopy(s, jid);
    }
    forall i | 0 <= i < |t.running|
      ensures EntryOk(t, t.running[i])
    {
      assert EntryOk(s, s.running[i]);
    }
  }

  lemma {:induction false} ResumeBudget(s: State, maxAttempts: nat)
    requires Budget(s, maxAttempts)
    ensures Budget(ResumeAll(s), maxAttempts)
    decreases |s.taken|
  {
    if s.taken != [] {
      var job, rest := s.taken[0], s.(taken := s.taken[1..]);
      RestBudget(s, maxAttempts);
      EnqueueBudget(rest, job, false, maxAttempts);
      ResumeBudget(ResumeOne(s), maxAttempts);
    }
  }

  lemma RestBudget(s: State, maxAttempts: nat)
    requires Budget(s, maxAttempts) && s.taken != []
    ensures
      var rest := s.(taken := s.taken[1..]);
      Budget(rest, maxAttempts) && NoCopy(rest, s.taken[0].jid) && JobOk(rest.posts, rest.owners, s.taken[0])
  {
    var rest := s.(taken := s.taken[1..]);
    assert s.taken[0] in s.taken;
    assert OneCopy(s, s.taken[0].jid);
    forall jid: nat
      ensures OneCopy(rest, jid)
    {
      assert OneCopy(s, jid);
    }
    forall i | 0 <= i < |rest.running|
      ensures EntryOk(rest, rest.running[i])
    {
      assert EntryOk(s, s.running[i]);
    }
  }

  // ----- attempts ----------------------------------------------------------

  /** While an attempt may start, no other copy of the same job is around. */
  lemma OnlyCopy(s: State, i: nat, maxAttempts: nat)
    requires Budget(s, maxAttempts) && i < |s.running| && s.running[i].tracked
    ensures
      var jid := s.running[i].job.jid;
      && Waiting(s, jid) == 0 && JidCount(s.pending, jid) == 0 && JidCount(s.found, jid) == 0
      && forall k :: 0 <= k < |s.running| && k != i && s.running[k].tracked ==> s.running[k].job.jid != jid
  {
    var jid := s.running[i].job.jid;
    assert OneCopy(s, jid);
    var none := s.running[i].(tracked := false);
    var without := s.running[i := none];
    TrackedCount(s.running, i, none, jid);
    assert JidCount(TrackedJobs(without), jid) + 1 == JidCount(TrackedJobs(s.running), jid);
    forall k | 0 <= k < |s.running| && k != i && s.running[k].tracked
      ensures s.running[k].job.jid != jid
    {
      if s.running[k].job.jid == jid {
        TrackedCount(without, k, without[k].(tracked := false), jid);
      }
    }
  }

  /** Jobs of other numbers do not notice a post. */
  lemma OthersOk(posts: map<nat, nat>, after: map<nat, nat>, owners: seq<string>, jobs: seq<Job>, jid: nat)
    requires AllOk(posts, owners, jobs) && JidCount(jobs, jid) == 0
    requires forall j: nat :: j != jid ==> Posts(after, j) == Posts(posts, j)
    ensures AllOk(after, owners, jobs)
  {
    forall job | job in jobs
      ensures JobOk(after, owners, job)
    {
      var i :| 0 <= i < |jobs| && jobs[i] == job;
      if job.jid == jid {
        JidCountAt(jobs, i);
      }
    }
  }

  predicate MayStart(s: State, i: nat, maxAttempts: nat) {
    && !s.aborted && i < |s.running| && s.running[i].phase == Phase.Waiting
    && s.running[i].job.attempts < maxAttempts
  }

  lemma StartPosts(s: State, i: nat, maxAttempts: nat)
    requires Budget(s, maxAttempts) && MayStart(s, i, maxAttempts)
    ensures
      var t := Apply(s, StartAttempt(i), maxAttempts);
      var jid := s.running[i].job.jid;
      && t.posts == s.posts[jid := s.running[i].job.attempts + 1]
      && t == s.(posts := t.posts, running := t.running)
      && t.running == s.running[i := s.running[i].(phase := Posting, job := CountAttempt(s.running[i].job))]
      && s.running[i].tracked && JobOk(s.posts, s.owners, s.running[i].job)
  {
    assert EntryOk(s, s.running[i]);
  }

  lemma StartBudget(s: State, i: nat, maxAttempts: nat)
    requires Budget(s, maxAttempts) && MayStart(s, i, maxAttempts)
    ensures Budget(Apply(s, StartAttempt(i), maxAttempts), maxAttempts)
  {
    var t := Apply(s, StartAttempt(i), maxAttempts);
    var jid := s.running[i].job.jid;
    StartPosts(s, i, maxAttempts);
    OnlyCopy(s, i, maxAttempts);
    assert forall j: nat :: j != jid ==> Posts(t.posts, j) == Posts(s.posts, j);
    OthersOk(s.posts, t.posts, s.owners, s.deferred, jid);
    OthersOk(s.posts, t.posts, s.owners, s.drainWrites, jid);
    OthersOk(s.posts, t.posts, s.owners, s.lateWrites, jid);
    OthersOk(s.posts, t.posts, s.owners, s.taken, jid);
    OthersOk(s.posts, t.posts, s.owners, s.found, jid);
    OthersOk(s.posts, t.posts, s.owners, s.pending, jid);
    forall k | 0 <= k < |t.running|
      ensures EntryOk(t, t.running[k])
    {
      assert EntryOk(s, s.running[k]);
    }
    StartCopies(s, t, i);
  }

  lemma StartCopies(s: State, t: State, i: nat)
    requires i < |s.running| && (forall jid: nat :: OneCopy(s, jid))
    requires t == s.(posts := t.posts, running := t.running)
    requires t.running == s.running[i := s.running[i].(phase := Posting, job := CountAttempt(s.running[i].job))]
    ensures forall jid: nat :: OneCopy(t, jid)
  {
    forall jid: nat
      ensures OneCopy(t, jid)
    {
      assert OneCopy(s, jid);
      TrackedCount(s.running, i, t.running[i], jid);
    }
  }

  /** The other steps on a delivery leave its job alone. */
  lemma EntryBudget(s: State, t: State, i: nat, maxAttempts: nat)
    requires Budget(s, maxAttempts) && i < |s.running| == |t.running|
    requires t == s.(running := t.running, dead := t.dead, delivered := t.delivered)
    requires t.running == s.running[i := t.running[i]] && t.running[i].job == s.running[i].job
    requires t.running[i].tracked == (s.running[i].tracked && !Over(t.running[i]))
    requires Over(s.running[i]) ==> Over(t.running[i])
    ensures Budget(t, maxAttempts)
  {
    forall jid: nat
      ensures OneCopy(t, jid)
    {
      assert OneCopy(s, jid);
      TrackedCount(s.running, i, t.running[i], jid);
    }
    forall k | 0 <= k < |t.running|
      ensures EntryOk(t, t.running[k])
    {
      assert EntryOk(s, s.running[k]);
    }
  }

  predicate EntryOnly(s: State, t: State, i: nat) {
    && i < |s.running| == |t.running|
    && t == s.(running := t.running, dead := t.dead, delivered := t.delivered)
    && t.running == s.running[i := t.running[i]] && t.running[i].job == s.running[i].job
    && t.running[i].tracked == (s.running[i].tracked && !Over(t.running[i]))
    && (Over(s.running[i]) ==> Over(t.running[i]))
  }

  lemma AttemptOnly(s: State, step: Step, maxAttempts: nat)
    requires step.StartAttempt? || step.AttemptOk? || step.AttemptFail?
    requires step.StartAttempt? ==> !MayStart(s, step.i, maxAttempts)
    requires step.i < |s.running| && (s.running[step.i].tracked ==> !Over(s.running[step.i]))
    ensures
      var t := ApplyToEntry(s, step, maxAttempts);
      t == s || EntryOnly(s, t, step.i)
  {
  }

  lemma FinishOnly(s: State, step: Step, maxAttempts: nat)
    requires step.SaveDeadLetter? || step.Release? || step.DeleteDeadLetter?
    requires step.i < |s.running| && (s.running[step.i].tracked ==> !Over(s.running[step.i]))
    ensures
      var t := ApplyToEntry(s, step, maxAttempts);
      t == s || EntryOnly(s, t, step.i)
  {
  }

  lemma EntryStepBudget(s: State, step: Step, maxAttempts: nat)
    requires Budget(s, maxAttempts) && OnEntry(step)
    ensures Budget(Apply(s, step, maxAttempts), maxAttempts)
  {
    if step.StartAttempt? && MayStart(s, step.i, maxAttempts) {
      StartBudget(s, step.i, maxAttempts);
    } else if step.i < |s.running| {
      var t := ApplyToEntry(s, step, maxAttempts);
      assert EntryOk(s, s.running[step.i]);
      if step.StartAttempt? || step.AttemptOk? || step.AttemptFail? {
        AttemptOnly(s, step, maxAttempts);
      } else {
        FinishOnly(s, step, maxAttempts);
      }
      if t != s {
        EntryBudget(s, t, step.i, maxAttempts);
      }
    }
  }

  // ----- drain, writes, resume and exit ------------------------------------

  lemma AbortBudget(s: State, maxAttempts: nat)
    requires Budget(s, maxAttempts)
    ensures Budget(Apply(s, Abort, maxAttempts), maxAttempts)
  {
    var t := Apply(s, Abort, maxAttempts);
    UntrackedNone(t.running);
    forall jid: nat
      ensures OneCopy(t, jid)
    {
      assert OneCopy(s, jid);
      AbortCopies(s, maxAttempts, jid);
    }
    forall i | 0 <= i < |t.running|
      ensures EntryOk(t, t.running[i])
    {
      assert EntryOk(s, s.running[i]);
    }
    TrackedOk(s, maxAttempts);
  }

  lemma AbortCopies(s: State, maxAttempts: nat, jid: nat)
    ensures Live(Apply(s, Abort, maxAttempts), jid) == Live(s, jid)
  {
    UntrackedNone(Untrack(s.running));
    JidCountConcat(s.drainWrites, TrackedJobs(s.running) + s.deferred, jid);
    JidCountConcat(TrackedJobs(s.running), s.deferred, jid);
  }

  lemma TrackedOk(s: State, maxAttempts: nat)
    requires Budget(s, maxAttempts)
    ensures AllOk(s.posts, s.owners, TrackedJobs(s.running))
  {
    TrackedFrom(s.running);
    forall job | job in TrackedJobs(s.running)
      ensures JobOk(s.posts, s.owners, job)
    {
      var i :| 0 <= i < |s.running| && s.running[i].tracked && s.running[i].job == job;
      assert EntryOk(s, s.running[i]);
    }
  }

  lemma SameEntries(s: State, t: State)
    requires forall i :: 0 <= i < |s.running| ==> EntryOk(s, s.running[i])
    requires t.running == s.running && t.posts == s.posts && t.owners == s.owners && t.aborted == s.aborted
    ensures forall i :: 0 <= i < |t.running| ==> EntryOk(t, t.running[i])
  {
    forall i | 0 <= i < |t.running|
      ensures EntryOk(t, t.running[i])
    {
      assert EntryOk(s, s.running[i]);
    }
  }

  lemma DrainWriteBudget(s: State, n: nat, maxAttempts: nat)
    requires Budget(s, maxAttempts) && n < |s.drainWrites|
    ensures Budget(Apply(s, CompleteDrainWrite(n), maxAttempts), maxAttempts)
  {
    var t := Apply(s, CompleteDrainWrite(n), maxAttempts);
    var job := s.drainWrites[n];
    forall jid: nat
      ensures OneCopy(t, jid)
    {
      assert OneCopy(s, jid);
      JidCountRemoved(s.drainWrites, n, jid);
      SaveCount(s.pending, job, jid);
    }
    SaveCount(s.pending, job, 0);
    SameEntries(s, t);
  }

  lemma LateWriteBudget(s: State, n: nat, maxAttempts: nat)
    requires Budget(s, maxAttempts) && n < |s.lateWrites|
    ensures Budget(Apply(s, CompleteLateWrite(n), maxAttempts), maxAttempts)
  {
    var t := Apply(s, CompleteLateWrite(n), maxAttempts);
    var job := s.lateWrites[n];
    forall jid: nat
      ensures OneCopy(t, jid)
    {
      assert OneCopy(s, jid);
      JidCountRemoved(s.lateWrites, n, jid);
      SaveCount(s.pending, job, jid);
    }
    SaveCount(s.pending, job, 0);
    SameEntries(s, t);
  }

  lemma FindBudget(s: State, maxAttempts: nat)
    requires Budget(s, maxAttempts)
    ensures Budget(Apply(s, FindPending, maxAttempts), maxAttempts)
  {
    var t := Apply(s, FindPending, maxAttempts);
    forall jid: nat
      ensures OneCopy(t, jid)
    {
      assert OneCopy(s, jid);
    }
    SameEntries(s, t);
  }

  /** What takeAll has read is deleted by key, so it cannot be in the store under the same number. */
  lemma DeletedByKey(s: State, maxAttempts: nat, jid: nat)
    requires JobsOk(s) && OneCopy(s, jid)
    ensures JidCount(s.found, jid) + Live(s, jid) + JidCount(Without(s.pending, s.found), jid) <= 1
  {
    var kept := Without(s.pending, s.found);
    WithoutCount(s.pending, s.found, jid);
    if JidCount(s.found, jid) > 0 {
      JidCountSome(s.found, jid);
      var i :| 0 <= i < |s.found| && s.found[i].jid == jid;
      assert s.found[i] in s.found;
      forall job | job in kept
        ensures job.jid != jid
      {
        assert JobOk(s.posts, s.owners, job) && !HasKey(s.found, job.key);
      }
      JidCountNone(kept, jid);
    }
  }

  lemma DeleteBudget(s: State, maxAttempts: nat)
    requires Budget(s, maxAttempts)
    ensures Budget(Apply(s, DeleteFound, maxAttempts), maxAttempts)
  {
    var t := Apply(s, DeleteFound, maxAttempts);
    forall jid: nat
      ensures OneCopy(t, jid)
    {
      assert OneCopy(s, jid);
      DeletedByKey(s, maxAttempts, jid);
      JidCountConcat(s.taken, s.found, jid);
    }
    WithoutCount(s.pending, s.found, 0);
    SameEntries(s, t);
  }

  lemma ExitBudget(s: State, maxAttempts: nat)
    requires Budget(s, maxAttempts)
    ensures Budget(NewProcess(s), maxAttempts)
  {
    forall jid: nat
      ensures OneCopy(NewProcess(s), jid)
    {
      assert OneCopy(s, jid);
    }
  }

  lemma StepBudget(s: State, step: Step, maxAttempts: nat)
    requires Budget(s, maxAttempts)
    ensures Budget(Apply(s, step, maxAttempts), maxAttempts)
  {
    if OnEntry(step) {
      EntryStepBudget(s, step, maxAttempts);
    } else if step.Submit? {
      UnrelatedBudget(s, s.(submitted := s.submitted + {step.key}), maxAttempts);
      NewJobBudget(s.(submitted := s.submitted + {step.key}), step.key, [], false, maxAttempts);
    } else if step.EnqueueReplay? {
      ReplayBudget(s, step.n, maxAttempts);
    } else if step.Abort? {
      AbortBudget(s, maxAttempts);
    } else if step.CompleteDrainWrite? && step.n < |s.drainWrites| {
      DrainWriteBudget(s, step.n, maxAttempts);
    } else if step.CompleteLateWrite? && step.n < |s.lateWrites| {
      LateWriteBudget(s, step.n, maxAttempts);
    } else if step.FindPending? {
      FindBudget(s, maxAttempts);
    } else if step.DeleteFound? {
      DeleteBudget(s, maxAttempts);
    } else if step.Resume? {
      ResumeBudget(s, maxAttempts);
    } else {
      OtherBudget(s, step, maxAttempts);
    }
  }

  lemma ReplayBudget(s: State, n: nat, maxAttempts: nat)
    requires Budget(s, maxAttempts)
    ensures Budget(Apply(s, EnqueueReplay(n), maxAttempts), maxAttempts)
  {
    if n < |s.letters| {
      var read := s.(letters := RemoveAt(s.letters, n));
      UnrelatedBudget(s, read, maxAttempts);
      NewJobBudget(read, s.letters[n].key, s.letters[n].history, true, maxAttempts);
    }
  }

  lemma OtherBudget(s: State, step: Step, maxAttempts: nat)
    requires Budget(s, maxAttempts)
    requires step.StopAccepting? || step.FindDeadLetter? || step.Restart? || Apply(s, step, maxAttempts) == s
    ensures Budget(Apply(s, step, maxAttempts), maxAttempts)
  {
    var t := Apply(s, step, maxAttempts);
    if step.StopAccepting? {
      SameEntries(s, t);
      forall jid: nat
        ensures OneCopy(t, jid)
      {
        assert OneCopy(s, jid);
      }
    } else if step.FindDeadLetter? {
      UnrelatedBudget(s, t, maxAttempts);
    } else if step.Restart? && CanExit(s) {
      ExitBudget(s, maxAttempts);
    }
  }

  /**
   Over any run, with drains, exits and resumes anywhere, no job is posted more than
   maxAttempts times, there is never a second copy of it to attempt, and in every copy the
   counter equals the posts made and the history has one record for each.
   */
  lemma {:induction false} RunBudget(s: State, steps: seq<Step>, maxAttempts: nat)
    requires Budget(s, maxAttempts)
    ensures Budget(Run(s, steps, maxAttempts), maxAttempts)
    decreases |steps|
  {
    if steps != [] {
      StepBudget(s, steps[0], maxAttempts);
      RunBudget(Apply(s, steps[0], maxAttempts), steps[1..], maxAttempts);
    }
  }

  /** From an empty system: at most maxAttempts posts per submission and per replay. */
  lemma PostsBounded(steps: seq<Step>, maxAttempts: nat, jid: nat)
    ensures Posts(Run(EMPTY, steps, maxAttempts).posts, jid) <= maxAttempts
  {
    assert forall j: nat :: OneCopy(EMPTY, j);
    RunBudget(EMPTY, steps, maxAttempts);
  }
}
