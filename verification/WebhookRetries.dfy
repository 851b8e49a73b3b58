/**
 That failed attempts are retried: what a dead letter stands for in every run of the webhook
 queue, and how a delivery ends by the answers it gets, whatever happens around it.
 */
module WebhookRetries {
  import opened Common
  import opened WebhookQueue
  import opened WebhookBudget

  // ----- dead letters ------------------------------------------------------

  /** All attempts of the job were made. */
  predicate UsedUp(s: State, job: Job, maxAttempts: nat) {
    job.attempts == maxAttempts && Posts(s.posts, job.jid) == maxAttempts
  }

  predicate GivenUp(e: Entry) {
    e.phase.Failed? || e.phase.DeadLettered?
  }

  ghost predicate OnlyUsedUp(s: State, maxAttempts: nat) {
    && (forall i :: 0 <= i < |s.running| && GivenUp(s.running[i]) ==> UsedUp(s, s.running[i].job, maxAttempts))
    && (forall key :: key in s.dead ==> UsedUp(s, s.dead[key], maxAttempts))
  }

  /** t has the dead letters of s, and every delivery given up in t was given up in s. */
  ghost predicate NothingGivenUp(s: State, t: State) {
    && t.posts == s.posts && t.dead == s.dead
    && forall i :: 0 <= i < |t.running| && GivenUp(t.running[i]) ==>
         i < |s.running| && GivenUp(s.running[i]) && s.running[i].job == t.running[i].job
  }

  lemma {:induction false} ResumeGivesNothingUp(s: State)
    ensures NothingGivenUp(s, ResumeAll(s))
    decreases |s.taken|
  {
    if s.taken != [] {
      ResumeGivesNothingUp(ResumeOne(s));
    }
  }

  lemma OtherStepsGiveNothingUp(s: State, step: Step, maxAttempts: nat)
    requires !OnEntry(step)
    ensures NothingGivenUp(s, Apply(s, step, maxAttempts))
  {
    if step.Resume? {
      ResumeGivesNothingUp(s);
    } else if step.Submit? || step.EnqueueReplay? {
      NewJobGivesNothingUp(s, step, maxAttempts);
    } else {
      QuietStepGivesNothingUp(s, step, maxAttempts);
    }
  }

  lemma NewJobGivesNothingUp(s: State, step: Step, maxAttempts: nat)
    requires step.Submit? || step.EnqueueReplay?
    ensures NothingGivenUp(s, Apply(s, step, maxAttempts))
  {
    if step.Submit? {
      SubmitGivesNothingUp(s, step.key, maxAttempts);
    } else {
      ReplayGivesNothingUp(s, step.n, maxAttempts);
    }
  }

  lemma SubmitGivesNothingUp(s: State, key: string, maxAttempts: nat)
    ensures NothingGivenUp(s, Apply(s, Submit(key), maxAttempts))
  {
  }

  lemma ReplayGivesNothingUp(s: State, n: nat, maxAttempts: nat)
    ensures NothingGivenUp(s, Apply(s, EnqueueReplay(n), maxAttempts))
  {
  }

  lemma QuietStepGivesNothingUp(s: State, step: Step, maxAttempts: nat)
    requires !OnEntry(step) && !step.Resume? && !step.Submit? && !step.EnqueueReplay?
    ensures NothingGivenUp(s, Apply(s, step, maxAttempts))
  {
    if step.Abort? || step.Restart? {
      EndGivesNothingUp(s, step, maxAttempts);
    } else {
      WriteGivesNothingUp(s, step, maxAttempts);
    }
  }

  lemma EndGivesNothingUp(s: State, step: Step, maxAttempts: nat)
    requires step.Abort? || step.Restart?
    ensures NothingGivenUp(s, Apply(s, step, maxAttempts))
  {
  }

  lemma WriteGivesNothingUp(s: State, step: Step, maxAttempts: nat)
    requires !OnEntry(step) && !step.Resume? && !step.Submit? && !step.EnqueueReplay?
    requires !step.Abort? && !step.Restart?
    ensures NothingGivenUp(s, Apply(s, step, maxAttempts))
  {
  }

  lemma AttemptsLimited(s: State, i: nat, maxAttempts: nat)
    requires Budget(s, maxAttempts) && i < |s.running| && !Over(s.running[i])
    ensures s.running[i].job.attempts == Posts(s.posts, s.running[i].job.jid) <= maxAttempts
  {
    assert EntryOk(s, s.running[i]);
  }

  lemma StartUsedUp(s: State, i: nat, maxAttempts: nat)
    requires Budget(s, maxAttempts) && OnlyUsedUp(s, maxAttempts)
    ensures OnlyUsedUp(Apply(s, StartAttempt(i), maxAttempts), maxAttempts)
  {
    CountStays(s, i, maxAttempts);
    if InPhase(s, i, Phase.Waiting) {
      AttemptsLimited(s, i, maxAttempts);
    }
  }

  /** The count of a job whose attempts are used up does not grow. */
  lemma CountStays(s: State, i: nat, maxAttempts: nat)
    requires Budget(s, maxAttempts)
    ensures forall jid: nat :: Posts(s.posts, jid) == maxAttempts ==>
      Posts(Apply(s, StartAttempt(i), maxAttempts).posts, jid) == maxAttempts
  {
    if MayStart(s, i, maxAttempts) {
      StartPosts(s, i, maxAttempts);
    }
  }

  lemma AnswerUsedUp(s: State, step: Step, maxAttempts: nat)
    requires Budget(s, maxAttempts) && OnlyUsedUp(s, maxAttempts) && (step.AttemptOk? || step.AttemptFail?)
    ensures OnlyUsedUp(Apply(s, step, maxAttempts), maxAttempts)
  {
    if InPhase(s, step.i, Posting) {
      AttemptsLimited(s, step.i, maxAttempts);
    }
  }

  lemma SaveUsedUp(s: State, i: nat, maxAttempts: nat)
    requires OnlyUsedUp(s, maxAttempts)
    ensures OnlyUsedUp(Apply(s, SaveDeadLetter(i), maxAttempts), maxAttempts)
  {
  }

  lemma ReleaseUsedUp(s: State, i: nat, maxAttempts: nat)
    requires OnlyUsedUp(s, maxAttempts)
    ensures OnlyUsedUp(Apply(s, Release(i), maxAttempts), maxAttempts)
  {
  }

  lemma DeleteUsedUp(s: State, i: nat, maxAttempts: nat)
    requires OnlyUsedUp(s, maxAttempts)
    ensures OnlyUsedUp(Apply(s, DeleteDeadLetter(i), maxAttempts), maxAttempts)
  {
  }

  lemma StepUsedUp(s: State, step: Step, maxAttempts: nat)
    requires Budget(s, maxAttempts) && OnlyUsedUp(s, maxAttempts)
    ensures OnlyUsedUp(Apply(s, step, maxAttempts), maxAttempts)
  {
    if step.StartAttempt? {
      StartUsedUp(s, step.i, maxAttempts);
    } else if step.AttemptOk? || step.AttemptFail? {
      AnswerUsedUp(s, step, maxAttempts);
    } else if step.SaveDeadLetter? {
      SaveUsedUp(s, step.i, maxAttempts);
    } else if step.Release? {
      ReleaseUsedUp(s, step.i, maxAttempts);
    } else if step.DeleteDeadLetter? {
      DeleteUsedUp(s, step.i, maxAttempts);
    } else {
      OtherStepsGiveNothingUp(s, step, maxAttempts);
    }
  }

  lemma {:induction false} RunUsedUp(s: State, steps: seq<Step>, maxAttempts: nat)
    requires Budget(s, maxAttempts) && OnlyUsedUp(s, maxAttempts)
    ensures OnlyUsedUp(Run(s, steps, maxAttempts), maxAttempts)
    decreases |steps|
  {
    if steps != [] {
      StepBudget(s, steps[0], maxAttempts);
      StepUsedUp(s, steps[0], maxAttempts);
      RunUsedUp(Apply(s, steps[0], maxAttempts), steps[1..], maxAttempts);
    }
  }

  /**
   In every run from an empty system, a delivery is given up, and a job dead-lettered, only
   after all its attempts: its counter is at maxAttempts, and so many posts were made for it.
   */
  lemma DeadLettersUsedUp(steps: seq<Step>, maxAttempts: nat)
    ensures
      var s := Run(EMPTY, steps, maxAttempts);
      && (forall i :: 0 <= i < |s.running| && (s.running[i].phase.Failed? || s.running[i].phase.DeadLettered?) ==>
            s.running[i].job.attempts == maxAttempts && Posts(s.posts, s.running[i].job.jid) == maxAttempts)
      && (forall key :: key in s.dead ==>
            s.dead[key].attempts == maxAttempts && Posts(s.posts, s.dead[key].jid) == maxAttempts)
  {
    assert forall j: nat :: OneCopy(EMPTY, j);
    RunUsedUp(EMPTY, steps, maxAttempts);
  }

  // ----- one delivery among others -----------------------------------------

  /** The steps of delivery i. */
  function Own(steps: seq<Step>, i: nat): seq<Step>
    decreases |steps|
  {
    if steps == [] then []
    else (if OnEntry(steps[0]) && steps[0].i == i then [steps[0]] else []) + Own(steps[1..], i)
  }

  /** The process goes on through all the steps. */
  predicate WithoutExit(steps: seq<Step>) {
    forall step :: step in steps ==> !step.Abort? && !step.Restart?
  }

  /** Delivery i as it was, and no post for its job. */
  predicate SameDelivery(s: State, t: State, i: nat)
    requires i < |s.running|
  {
    && i < |t.running| && t.running[i] == s.running[i] && t.aborted == s.aborted
    && Posts(t.posts, s.running[i].job.jid) == Posts(s.posts, s.running[i].job.jid)
    && s.delivered <= t.delivered
  }

  lemma {:induction false} ResumeKeepsDelivery(s: State, i: nat)
    requires i < |s.running|
    ensures SameDelivery(s, ResumeAll(s), i)
    decreases |s.taken|
  {
    if s.taken != [] {
      ResumeKeepsDelivery(ResumeOne(s), i);
    }
  }

  lemma OthersKeepDelivery(s: State, step: Step, i: nat, maxAttempts: nat)
    requires Budget(s, maxAttempts) && i < |s.running| && !s.aborted
    requires s.running[i].tracked && !step.Abort? && !step.Restart? && !(OnEntry(step) && step.i == i)
    ensures SameDelivery(s, Apply(s, step, maxAttempts), i)
  {
    if step.StartAttempt? && MayStart(s, step.i, maxAttempts) {
      StartPosts(s, step.i, maxAttempts);
      OnlyCopy(s, i, maxAttempts);
    } else if OnEntry(step) {
      if step.StartAttempt? || step.AttemptOk? || step.AttemptFail? {
        AttemptElsewhere(s, step, i, maxAttempts);
      } else if step.Release? {
        ReleaseElsewhere(s, step.i, i, maxAttempts);
      } else {
        EndElsewhere(s, step, i, maxAttempts);
      }
    } else if step.Resume? {
      ResumeKeepsDelivery(s, i);
    }
  }

  lemma AttemptElsewhere(s: State, step: Step, i: nat, maxAttempts: nat)
    requires step.StartAttempt? || step.AttemptOk? || step.AttemptFail?
    requires step.i != i && i < |s.running| && !(step.StartAttempt? && MayStart(s, step.i, maxAttempts))
    ensures SameDelivery(s, Apply(s, step, maxAttempts), i)
  {
  }

  lemma ReleaseElsewhere(s: State, k: nat, i: nat, maxAttempts: nat)
    requires k != i && i < |s.running|
    ensures SameDelivery(s, Apply(s, Release(k), maxAttempts), i)
  {
  }

  lemma EndElsewhere(s: State, step: Step, i: nat, maxAttempts: nat)
    requires step.SaveDeadLetter? || step.DeleteDeadLetter?
    requires step.i != i && i < |s.running|
    ensures SameDelivery(s, Apply(s, step, maxAttempts), i)
  {
  }

  /** The steps of n attempts that fail and then, perhaps, one that succeeds; `posting` if the first has begun. */
  function Left(i: nat, n: nat, success: bool, posting: bool): seq<Step>
    requires posting ==> n > 0 || success
    decreases n, !posting
  {
    if posting then
      if n > 0 then [AttemptFail(i)] + Left(i, n - 1, success, false) else [AttemptOk(i)]
    else if n == 0 && !success then []
    else [StartAttempt(i)] + Left(i, n, success, true)
  }

  /** Delivery i in the middle of its attempts. */
  predicate Trying(s: State, i: nat, posting: bool) {
    && i < |s.running| && s.running[i].tracked && !s.aborted
    && s.running[i].phase == if posting then Posting else Phase.Waiting
  }

  lemma OwnStart(s: State, i: nat, maxAttempts: nat)
    requires Budget(s, maxAttempts) && Trying(s, i, false) && s.running[i].job.attempts < maxAttempts
    ensures
      var t := Apply(s, StartAttempt(i), maxAttempts);
      && Trying(t, i, true) && t.running[i].job == CountAttempt(s.running[i].job) && t.delivered == s.delivered
  {
    StartPosts(s, i, maxAttempts);
  }

  /** A failed attempt is followed by another one while there is one left. */
  lemma OwnFailure(s: State, i: nat, maxAttempts: nat)
    requires Trying(s, i, true)
    ensures
      var t := Apply(s, AttemptFail(i), maxAttempts);
      && i < |t.running| && t.running[i].job == s.running[i].job
      && (s.running[i].job.attempts < maxAttempts ==> Trying(t, i, false))
      && (s.running[i].job.attempts >= maxAttempts ==> t.running[i].phase == Failed && t.running[i].tracked)
      && t.aborted == s.aborted
  {
  }

  lemma OwnSuccess(s: State, i: nat, maxAttempts: nat)
    requires Trying(s, i, true)
    ensures
      var t := Apply(s, AttemptOk(i), maxAttempts);
      && i < |t.running| && t.running[i] == s.running[i].(phase := Delivered) && t.aborted == s.aborted
      && t.delivered == s.delivered + {s.running[i].job.key}
  {
  }

  /** Without steps of its own a delivery stays what it is. */
  lemma {:induction false} DeliveryRests(s: State, steps: seq<Step>, i: nat, maxAttempts: nat)
    requires Budget(s, maxAttempts) && WithoutExit(steps) && Own(steps, i) == []
    requires i < |s.running| && s.running[i].tracked && !s.aborted
    ensures SameDelivery(s, Run(s, steps, maxAttempts), i)
    decreases |steps|
  {
    if steps != [] {
      var t := Apply(s, steps[0], maxAttempts);
      assert steps[0] in steps && forall step :: step in steps[1..] ==> step in steps;
      StepBudget(s, steps[0], maxAttempts);
      OthersKeepDelivery(s, steps[0], i, maxAttempts);
      DeliveryRests(t, steps[1..], i, maxAttempts);
    }
  }

  /** The numbers of the n attempts after the first so many. */
  function Numbers(made: nat, n: nat): seq<nat>
    decreases n
  {
    if n == 0 then [] else [made + 1] + Numbers(made + 1, n - 1)
  }

  /** How delivery i ends when its remaining answers are these. */
  ghost predicate Ends(s: State, t: State, i: nat, n: nat, success: bool, posting: bool, maxAttempts: nat)
    requires i < |s.running|
  {
    var job := s.running[i].job;
    var more := n + (if success then 1 else 0) - (if posting then 1 else 0);
    && i < |t.running| && t.running[i].tracked && !t.aborted
    && t.running[i].job.key == job.key && t.running[i].job.jid == job.jid
    && t.running[i].job.attempts == job.attempts + more
    && more >= 0 && t.running[i].job.history == job.history + Numbers(job.attempts, more)
    && (if success then t.running[i].phase == Delivered && job.key in t.delivered
        else t.running[i].phase == if job.attempts + more >= maxAttempts then Failed else Phase.Waiting)
  }

  lemma EndsAfterStart(s: State, u: State, i: nat, n: nat, success: bool, maxAttempts: nat)
    requires Budget(s, maxAttempts) && Trying(s, i, false) && s.running[i].job.attempts < maxAttempts
    requires var t := Apply(s, StartAttempt(i), maxAttempts);
      i < |t.running| && Ends(t, u, i, n, success, true, maxAttempts)
    ensures Ends(s, u, i, n, success, false, maxAttempts)
  {
    OwnStart(s, i, maxAttempts);
    var job := s.running[i].job;
    var more := n + if success then 1 else 0;
    if more > 0 {
      NumbersStep(job.history, job.attempts, more);
    }
  }

  lemma NumbersStep(history: seq<nat>, made: nat, n: nat)
    requires n > 0
    ensures (history + [made + 1]) + Numbers(made + 1, n - 1) == history + Numbers(made, n)
  {
  }

  lemma EndsAfterFailure(s: State, u: State, i: nat, n: nat, success: bool, maxAttempts: nat)
    requires Trying(s, i, true) && n > 0
    requires var t := Apply(s, AttemptFail(i), maxAttempts);
      i < |t.running| && Ends(t, u, i, n - 1, success, false, maxAttempts)
    ensures Ends(s, u, i, n, success, true, maxAttempts)
  {
    OwnFailure(s, i, maxAttempts);
  }

  lemma EndsWithFailure(s: State, u: State, i: nat, maxAttempts: nat)
    requires Trying(s, i, true) && s.running[i].job.attempts >= maxAttempts
    requires var t := Apply(s, AttemptFail(i), maxAttempts);
      i < |t.running| && SameDelivery(t, u, i)
    ensures Ends(s, u, i, 1, false, true, maxAttempts)
  {
    OwnFailure(s, i, maxAttempts);
  }

  lemma EndsWithSuccess(s: State, u: State, i: nat, maxAttempts: nat)
    requires Trying(s, i, true)
    requires var t := Apply(s, AttemptOk(i), maxAttempts);
      i < |t.running| && SameDelivery(t, u, i)
    ensures Ends(s, u, i, 0, true, true, maxAttempts)
  {
    OwnSuccess(s, i, maxAttempts);
  }

  /** The answers to come do not need more attempts than there are. */
  predicate Enough(s: State, i: nat, n: nat, success: bool, posting: bool, maxAttempts: nat)
    requires i < |s.running|
  {
    && s.running[i].job.attempts + n + (if success then 1 else 0) - (if posting then 1 else 0) <= maxAttempts
    && (posting || s.running[i].job.attempts < maxAttempts)
  }

  /** The facts about delivery i from which its answers decide how it ends. */
  ghost predicate Undecided(
      s: State, steps: seq<Step>, i: nat, n: nat, success: bool, posting: bool, maxAttempts: nat)
  {
    && Budget(s, maxAttempts) && WithoutExit(steps) && Trying(s, i, posting)
    && (posting ==> n > 0 || success) && Own(steps, i) == Left(i, n, success, posting)
    && Enough(s, i, n, success, posting, maxAttempts)
  }

  lemma {:induction false} AnswersDecide(
      s: State, steps: seq<Step>, i: nat, n: nat, success: bool, posting: bool, maxAttempts: nat)
    requires Undecided(s, steps, i, n, success, posting, maxAttempts)
    ensures Ends(s, Run(s, steps, maxAttempts), i, n, success, posting, maxAttempts)
    decreases |steps|, 2
  {
    if n == 0 && !success {
      DeliveryRests(s, steps, i, maxAttempts);
    } else if !(OnEntry(steps[0]) && steps[0].i == i) {
      OtherFirst(s, steps, i, n, success, posting, maxAttempts);
      AnswersDecide(Apply(s, steps[0], maxAttempts), steps[1..], i, n, success, posting, maxAttempts);
    } else if posting {
      AnswerFirst(s, steps, i, n, success, maxAttempts);
    } else {
      StartFirst(s, steps, i, n, success, maxAttempts);
    }
  }

  lemma OtherFirst(
      s: State, steps: seq<Step>, i: nat, n: nat, success: bool, posting: bool, maxAttempts: nat)
    requires Undecided(s, steps, i, n, success, posting, maxAttempts)
    requires steps != [] && !(OnEntry(steps[0]) && steps[0].i == i)
    ensures Undecided(Apply(s, steps[0], maxAttempts), steps[1..], i, n, success, posting, maxAttempts)
    ensures SameDelivery(s, Apply(s, steps[0], maxAttempts), i)
  {
    RestWithoutExit(steps);
    StepBudget(s, steps[0], maxAttempts);
    OthersKeepDelivery(s, steps[0], i, maxAttempts);
  }

  lemma RestWithoutExit(steps: seq<Step>)
    requires steps != [] && WithoutExit(steps)
    ensures !steps[0].Abort? && !steps[0].Restart? && WithoutExit(steps[1..])
  {
    assert steps[0] in steps && forall x :: x in steps[1..] ==> x in steps;
  }

  lemma StartFirst(s: State, steps: seq<Step>, i: nat, n: nat, success: bool, maxAttempts: nat)
    requires Undecided(s, steps, i, n, success, false, maxAttempts) && (n > 0 || success)
    requires steps != [] && OnEntry(steps[0]) && steps[0].i == i
    ensures Ends(s, Run(s, steps, maxAttempts), i, n, success, false, maxAttempts)
    decreases |steps|, 1
  {
    OwnFirst(steps, i);
    RestWithoutExit(steps);
    StepBudget(s, StartAttempt(i), maxAttempts);
    OwnStart(s, i, maxAttempts);
    var t := Apply(s, StartAttempt(i), maxAttempts);
    AnswersDecide(t, steps[1..], i, n, success, true, maxAttempts);
    EndsAfterStart(s, Run(t, steps[1..], maxAttempts), i, n, success, maxAttempts);
  }

  lemma AnswerFirst(s: State, steps: seq<Step>, i: nat, n: nat, success: bool, maxAttempts: nat)
    requires Undecided(s, steps, i, n, success, true, maxAttempts)
    requires steps != [] && OnEntry(steps[0]) && steps[0].i == i
    ensures Ends(s, Run(s, steps, maxAttempts), i, n, success, true, maxAttempts)
    decreases |steps|, 1
  {
    OwnFirst(steps, i);
    RestWithoutExit(steps);
    if n == 0 {
      SuccessFirst(s, steps, i, maxAttempts);
    } else {
      FailureFirst(s, steps, i, n, success, maxAttempts);
    }
  }

  lemma SuccessFirst(s: State, steps: seq<Step>, i: nat, maxAttempts: nat)
    requires Budget(s, maxAttempts) && Trying(s, i, true) && steps != [] && steps[0] == AttemptOk(i)
    requires WithoutExit(steps[1..]) && Own(steps[1..], i) == []
    ensures Ends(s, Run(s, steps, maxAttempts), i, 0, true, true, maxAttempts)
  {
    var t := Apply(s, AttemptOk(i), maxAttempts);
    StepBudget(s, AttemptOk(i), maxAttempts);
    OwnSuccess(s, i, maxAttempts);
    DeliveryRests(t, steps[1..], i, maxAttempts);
    EndsWithSuccess(s, Run(t, steps[1..], maxAttempts), i, maxAttempts);
  }

  lemma FailureFirst(s: State, steps: seq<Step>, i: nat, n: nat, success: bool, maxAttempts: nat)
    requires Undecided(s, steps, i, n, success, true, maxAttempts) && n > 0
    requires steps != [] && steps[0] == AttemptFail(i) && WithoutExit(steps[1..])
    requires Own(steps[1..], i) == Left(i, n - 1, success, false)
    ensures Ends(s, Run(s, steps, maxAttempts), i, n, success, true, maxAttempts)
    decreases |steps|, 0
  {
    var t := Apply(s, AttemptFail(i), maxAttempts);
    StepBudget(s, AttemptFail(i), maxAttempts);
    OwnFailure(s, i, maxAttempts);
    if s.running[i].job.attempts < maxAttempts {
      AnswersDecide(t, steps[1..], i, n - 1, success, false, maxAttempts);
      EndsAfterFailure(s, Run(t, steps[1..], maxAttempts), i, n, success, maxAttempts);
    } else {
      DeliveryRests(t, steps[1..], i, maxAttempts);
      EndsWithFailure(s, Run(t, steps[1..], maxAttempts), i, maxAttempts);
    }
  }

  lemma OwnFirst(steps: seq<Step>, i: nat)
    requires steps != [] && OnEntry(steps[0]) && steps[0].i == i
    ensures Own(steps, i) == [steps[0]] + Own(steps[1..], i)
    ensures Own(steps, i)[0] == steps[0] && Own(steps, i)[1..] == Own(steps[1..], i)
  {
  }

  /** Delivery i is about to make an attempt. */
  predicate Active(s: State, i: nat) {
    i < |s.running| && s.running[i].tracked && s.running[i].phase == Phase.Waiting && !s.aborted
  }

  lemma PostsMade(s: State, i: nat, maxAttempts: nat)
    requires Budget(s, maxAttempts) && i < |s.running| && s.running[i].tracked
    ensures Posts(s.posts, s.running[i].job.jid) == s.running[i].job.attempts
  {
    assert EntryOk(s, s.running[i]);
  }

  lemma EndOfAnswers(past: seq<Step>, steps: seq<Step>, i: nat, n: nat, success: bool, maxAttempts: nat)
    requires var s := Run(EMPTY, past, maxAttempts);
      && Active(s, i) && WithoutExit(steps) && Own(steps, i) == Left(i, n, success, false)
      && Enough(s, i, n, success, false, maxAttempts)
    ensures
      var s := Run(EMPTY, past, maxAttempts);
      var t := Run(s, steps, maxAttempts);
      && Ends(s, t, i, n, success, false, maxAttempts)
      && Posts(s.posts, s.running[i].job.jid) == s.running[i].job.attempts
      && Posts(t.posts, s.running[i].job.jid) == s.running[i].job.attempts + n + if success then 1 else 0
  {
    assert forall j: nat :: OneCopy(EMPTY, j);
    RunBudget(EMPTY, past, maxAttempts);
    var s := Run(EMPTY, past, maxAttempts);
    AnswersDecide(s, steps, i, n, success, false, maxAttempts);
    RunBudget(s, steps, maxAttempts);
    PostsMade(s, i, maxAttempts);
    PostsMade(Run(s, steps, maxAttempts), i, maxAttempts);
  }

  /**
   An active delivery that gets n failures and then a success, with attempts for that and the
   process going on, is delivered after exactly n + 1 more posts, whatever else happens between;
   its history goes on with the numbers of those attempts.
   */
  lemma SuccessDelivers(past: seq<Step>, steps: seq<Step>, i: nat, n: nat, maxAttempts: nat)
    requires var s := Run(EMPTY, past, maxAttempts);
      && Active(s, i) && WithoutExit(steps) && Own(steps, i) == Left(i, n, true, false)
      && s.running[i].job.attempts + n < maxAttempts
    ensures
      var s := Run(EMPTY, past, maxAttempts);
      var t := Run(s, steps, maxAttempts);
      var job := s.running[i].job;
      && i < |t.running| && t.running[i].phase == Delivered && job.key in t.delivered
      && Posts(t.posts, job.jid) == Posts(s.posts, job.jid) + n + 1
      && t.running[i].job.history == job.history + Numbers(job.attempts, n + 1)
  {
    EndOfAnswers(past, steps, i, n, true, maxAttempts);
  }

  /** After n failures it is given up exactly if they use up its attempts; otherwise it tries again. */
  lemma FailuresRetry(past: seq<Step>, steps: seq<Step>, i: nat, n: nat, maxAttempts: nat)
    requires var s := Run(EMPTY, past, maxAttempts);
      && Active(s, i) && WithoutExit(steps) && Own(steps, i) == Left(i, n, false, false)
      && s.running[i].job.attempts + n <= maxAttempts && s.running[i].job.attempts < maxAttempts
    ensures
      var s := Run(EMPTY, past, maxAttempts);
      var t := Run(s, steps, maxAttempts);
      var job := s.running[i].job;
      && i < |t.running| && t.running[i].job.key == job.key
      && t.running[i].phase == (if job.attempts + n == maxAttempts then Failed else Phase.Waiting)
      && Posts(t.posts, job.jid) == Posts(s.posts, job.jid) + n
      && t.running[i].job.history == job.history + Numbers(job.attempts, n)
  {
    EndOfAnswers(past, steps, i, n, false, maxAttempts);
  }

  /** One that comes with no attempts left is given up without a post, as it is. */
  lemma NoneLeft(s: State, i: nat, maxAttempts: nat)
    requires Active(s, i) && s.running[i].job.attempts >= maxAttempts
    ensures
      var t := Apply(s, StartAttempt(i), maxAttempts);
      t.posts == s.posts && t.running == s.running[i := s.running[i].(phase := Failed)]
  {
  }

  // ----- what starts a delivery --------------------------------------------

  /** The next place has a new delivery of the job. */
  predicate Started(s: State, t: State, key: string, attempts: nat, history: seq<nat>, replay: bool) {
    && |t.running| == |s.running| + 1 && t.running[..|s.running|] == s.running
    && var e := t.running[|s.running|];
      && e.job.key == key && e.job.attempts == attempts && e.job.history == history
      && e.phase == Phase.Waiting && e.tracked && e.replay == replay
  }

  /** A payload is started at once, with no attempts made, or deferred while drain waits. */
  lemma SubmitStarts(s: State, key: string, maxAttempts: nat)
    ensures
      var t := Apply(s, Submit(key), maxAttempts);
      && key in t.submitted
      && (s.accepting ==> Started(s, t, key, 0, [], false))
      && (!s.accepting ==> t.running == s.running)
      && (!s.accepting && !s.aborted ==> |t.deferred| == |s.deferred| + 1 && t.deferred[|s.deferred|].key == key)
  {
  }

  /** A replay reads the dead letter and leaves it where it is. */
  lemma LetterRead(s: State, key: string, maxAttempts: nat)
    ensures
      var t := Apply(s, FindDeadLetter(key), maxAttempts);
      && t.dead == s.dead && t.running == s.running
      && t.letters == (if key in s.dead then s.letters + [s.dead[key]] else s.letters)
  {
  }

  /** So is the dead letter that a replay has read, with its history; it stays in the store. */
  lemma ReplayStarts(s: State, n: nat, maxAttempts: nat)
    requires s.accepting && n < |s.letters|
    ensures
      var t := Apply(s, EnqueueReplay(n), maxAttempts);
      && Started(s, t, s.letters[n].key, 0, s.letters[n].history, true)
      && t.dead == s.dead && |t.letters| == |s.letters| - 1
  {
  }

  /** The k-th new delivery of t is one of this job as it was taken. */
  predicate TakenUp(s: State, t: State, k: nat)
    requires k < |s.taken| && |t.running| == |s.running| + |s.taken|
  {
    var e := t.running[|s.running| + k];
    e.job == s.taken[k] && e.phase == Phase.Waiting && e.tracked && !e.replay
  }

  /** All the jobs that a resume took are started in their order, with the attempts and histories they have. */
  lemma {:induction false} ResumeStarts(s: State)
    requires s.accepting
    ensures
      var t := ResumeAll(s);
      && t.taken == [] && |t.running| == |s.running| + |s.taken| && t.running[..|s.running|] == s.running
      && forall k :: 0 <= k < |s.taken| ==> TakenUp(s, t, k)
    decreases |s.taken|
  {
    if s.taken != [] {
      var next := ResumeOne(s);
      var t := ResumeAll(s);
      ResumeOneStarts(s);
      ResumeStarts(next);
      assert t.running[..|s.running|] == t.running[..|next.running|][..|s.running|];
      forall k | 0 <= k < |s.taken|
        ensures TakenUp(s, t, k)
      {
        if k == 0 {
          assert t.running[|s.running|] == t.running[..|next.running|][|s.running|];
        } else {
          assert TakenUp(next, t, k - 1);
        }
      }
    }
  }

  lemma ResumeOneStarts(s: State)
    requires s.accepting && s.taken != []
    ensures
      var t := ResumeOne(s);
      && t.accepting && t.taken == s.taken[1..]
      && t.running == s.running + [Entry(s.taken[0], Phase.Waiting, false, true)]
  {
  }

  lemma {:induction false} WithoutAll(pending: seq<Job>, jobs: seq<Job>)
    requires forall i :: 0 <= i < |pending| ==> HasKey(jobs, pending[i].key)
    ensures Without(pending, jobs) == []
    decreases |pending|
  {
    if pending != [] {
      WithoutAll(pending[1..], jobs);
    }
  }

  /** Same stores, and nothing under way. */
  predicate AtStart(s: State, t: State) {
    && t.accepting && !t.aborted && t.running == [] && t.dead == s.dead && t.posts == s.posts
    && t.delivered == s.delivered && t.submitted == s.submitted
  }

  /** A process ends, and the next one takes what is stored. */
  function EndAndTake(s: State, maxAttempts: nat): State {
    Apply(Apply(Apply(s, Step.Restart, maxAttempts), FindPending, maxAttempts), DeleteFound, maxAttempts)
  }

  lemma StoredTaken(s: State, maxAttempts: nat)
    requires s.aborted && s.drainWrites == []
    ensures
      var t := EndAndTake(s, maxAttempts);
      AtStart(s, t) && t.pending == [] && t.taken == s.pending
  {
    var next := Apply(s, Step.Restart, maxAttempts);
    NextProcess(s, maxAttempts);
    WithoutAll(s.pending, s.pending);
    TakenAfterRead(next, maxAttempts);
  }

  lemma NextProcess(s: State, maxAttempts: nat)
    requires s.aborted && s.drainWrites == []
    ensures
      var t := Apply(s, Step.Restart, maxAttempts);
      AtStart(s, t) && !t.resumed && t.taken == [] && t.found == [] && t.pending == s.pending
  {
  }

  lemma TakenAfterRead(s: State, maxAttempts: nat)
    requires !s.resumed && s.taken == [] && s.found == [] && Without(s.pending, s.pending) == []
    ensures
      var t := Apply(Apply(s, FindPending, maxAttempts), DeleteFound, maxAttempts);
      && t.pending == [] && t.taken == s.pending && t.accepting == s.accepting && t.aborted == s.aborted
      && t.running == s.running && t.dead == s.dead && t.posts == s.posts && t.delivered == s.delivered
      && t.submitted == s.submitted
  {
  }

  /** All that the store holds when a process ends is sent again by the next one, from where it stood. */
  lemma StoredSentAgain(s: State, maxAttempts: nat)
    requires s.aborted && s.drainWrites == []
    ensures
      var t := Apply(EndAndTake(s, maxAttempts), Resume, maxAttempts);
      && t.accepting && !t.aborted && t.pending == [] && t.dead == s.dead && t.posts == s.posts
      && t.delivered == s.delivered && t.submitted == s.submitted && |t.running| == |s.pending|
      && forall k :: 0 <= k < |s.pending| ==>
           t.running[k].job == s.pending[k] && t.running[k].phase == Phase.Waiting && t.running[k].tracked
  {
    var taken := EndAndTake(s, maxAttempts);
    StoredTaken(s, maxAttempts);
    SentAgain(taken, s.pending, maxAttempts);
    ResumeKeepsStores(taken);
  }

  lemma SentAgain(s: State, jobs: seq<Job>, maxAttempts: nat)
    requires s.accepting && s.taken == jobs && s.running == []
    ensures
      var t := Apply(s, Resume, maxAttempts);
      && |t.running| == |jobs|
      && forall k :: 0 <= k < |jobs| ==>
           t.running[k].job == jobs[k] && t.running[k].phase == Phase.Waiting && t.running[k].tracked
  {
    var t := ResumeAll(s);
    ResumeStarts(s);
    forall k | 0 <= k < |jobs|
      ensures t.running[k].job == jobs[k] && t.running[k].phase == Phase.Waiting && t.running[k].tracked
    {
      assert TakenUp(s, t, k);
    }
  }

  lemma {:induction false} ResumeKeepsStores(s: State)
    ensures
      var t := ResumeAll(s);
      && t.accepting == s.accepting && t.aborted == s.aborted && t.pending == s.pending && t.dead == s.dead
      && t.posts == s.posts && t.delivered == s.delivered && t.submitted == s.submitted
    decreases |s.taken|
  {
    if s.taken != [] {
      ResumeKeepsStores(ResumeOne(s));
    }
  }

  // ----- what ends one -----------------------------------------------------

  /** A delivery given up becomes a dead letter with all it has; once that is stored it is let go of. */
  lemma DeadLetterStored(s: State, i: nat, maxAttempts: nat)
    requires i < |s.running| && s.running[i].phase == Failed
    ensures
      var t := Apply(s, SaveDeadLetter(i), maxAttempts);
      var u := Apply(t, Release(i), maxAttempts);
      && s.running[i].job.key in t.dead && t.dead[s.running[i].job.key] == s.running[i].job
      && t.running[i].tracked == s.running[i].tracked
      && u.dead == t.dead && !u.running[i].tracked && u.running[i].phase == Released
  {
  }

  /** A delivery that succeeded is let go of, and a replay's dead letter, but no other, is deleted after it. */
  lemma DeliveredLetGo(s: State, i: nat, maxAttempts: nat)
    requires i < |s.running| && s.running[i].phase == Delivered
    ensures
      var t := Apply(s, Release(i), maxAttempts);
      var u := Apply(t, DeleteDeadLetter(i), maxAttempts);
      && !t.running[i].tracked && t.dead == s.dead && u.running[i].phase == Released
      && (if s.running[i].replay then u.dead == s.dead - {s.running[i].job.key} else u.dead == s.dead)
  {
  }
}
