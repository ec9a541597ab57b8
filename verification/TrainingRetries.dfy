/**
 Who may move a finished job, and how many attempts the scheduler may create.
 */
module TrainingRetries {
  import opened TrainingModel
  import opened TrainingTables

  // ----- Finished jobs stay finished ----------------------------------------

  predicate Settled(s: JobStatus) {
    s == Completed || s == Cancelled || s == Stopped
  }

  predicate RetriesJob(step: Step, j: JobId) {
    step.DoUserRetry? && step.job == j
  }

  /** No step but the user's own retry touches the row of a completed, cancelled or stopped job. */
  lemma SettledRowUntouched(s: System, p: Params, step: Step, j: JobId)
    requires j < |s.db.jobs| && Settled(s.db.jobs[j].status) && !RetriesJob(step, j)
    ensures j < |Apply(s, p, step).db.jobs| && Apply(s, p, step).db.jobs[j] == s.db.jobs[j]
  {
    if WorkerStep(step) && Held(s, step.exec) {
      WorkerShape(s, p, step);
      WorkerJob(s, p, step);
    }
  }

  /**
   A cancel sticks: until the user retries the job, no interleaving of reconcile,
   error retry, promotion and worker steps changes its row, even when its old
   execution is declared lost later or its worker is still running. Completed and
   stopped jobs are protected in the same way.
   */
  lemma {:induction false} CancelSticks(s: System, p: Params, steps: seq<Step>, j: JobId)
    requires j < |s.db.jobs| && Settled(s.db.jobs[j].status)
    requires forall i :: 0 <= i < |steps| ==> !RetriesJob(steps[i], j)
    ensures j < |Run(s, p, steps).db.jobs| && Run(s, p, steps).db.jobs[j] == s.db.jobs[j]
    decreases |steps|
  {
    if steps != [] {
      SettledRowUntouched(s, p, steps[0], j);
      CancelSticks(Apply(s, p, steps[0]), p, steps[1..], j);
    }
  }

  // ----- Automatic retries are bounded ----------------------------------------

  /** Each loss retry consumed an execution of its own; each error retry stayed within the limit. */
  ghost predicate Accounted(execs: seq<Execution>, max: nat) {
    && (forall i :: 0 <= i < |execs| && execs[i].origin.LossRetry? ==>
          var l := execs[i].origin.lost;
          l < i && execs[l].jobId == execs[i].jobId && 1 <= execs[l].attempt < max && Finished(execs[l].status))
    && (forall i, k :: 0 <= i < k < |execs| && execs[i].origin.LossRetry? && execs[k].origin.LossRetry? ==>
          execs[i].origin.lost != execs[k].origin.lost)
    && (forall i :: 0 <= i < |execs| && execs[i].origin == ErrorRetry ==> 2 <= execs[i].attempt <= max)
  }

  lemma AccountedPutExec(db: Db, e: ExecId, status: ExecStatus, max: nat)
    requires Accounted(db.execs, max) && e < |db.execs|
    requires Finished(status) || !Finished(db.execs[e].status)
    ensures Accounted(PutExec(db, e, status).execs, max)
  {
  }

  lemma AccountedAppend(execs: seq<Execution>, x: Execution, max: nat)
    requires Accounted(execs, max)
    requires x.origin == ErrorRetry ==> 2 <= x.attempt <= max
    requires x.origin.LossRetry? ==>
               var l := x.origin.lost;
               && l < |execs| && execs[l].jobId == x.jobId && 1 <= execs[l].attempt < max && Finished(execs[l].status)
               && forall i :: 0 <= i < |execs| && execs[i].origin.LossRetry? ==> execs[i].origin.lost != l
    ensures Accounted(execs + [x], max)
  {
  }

  /** What a loss does to the executions: mark one, and at most append the job's next attempt. */
  lemma LoseShape(db: Db, p: Params, e: ExecId)
    requires e < |db.execs| && Active(db.execs[e].status) && db.execs[e].jobId < |db.jobs|
    ensures var j := db.execs[e].jobId;
            var status := db.jobs[j].status;
            var lost := PutExec(db, e, Lost).execs;
            var db' := Lose(db, p, e);
            if status != Stopping && !Terminal(status) && db.execs[e].attempt < p.maxAttempts then
              && |db'.execs| == |lost| + 1 && db'.execs[..|lost|] == lost
              && db'.execs[|lost|].jobId == j && db'.execs[|lost|].attempt == MaxAttempt(db.execs, j) + 1
              && db'.execs[|lost|].origin == LossRetry(e) && db'.execs[|lost|].status == Assigned
              && (exists job :: db'.jobs == db.jobs[j := job] && job.status == Queued)
            else
              db'.execs == lost && (db'.jobs == db.jobs || exists job :: db'.jobs == db.jobs[j := job] && Terminal(job.status))
  {
    LatestIgnoresStatus(db.execs, PutExec(db, e, Lost).execs, db.execs[e].jobId);
    var job := Lose(db, p, e).jobs[db.execs[e].jobId];
    assert Lose(db, p, e).jobs == db.jobs[db.execs[e].jobId := job];
  }

  lemma LoseAccounted(db: Db, p: Params, e: ExecId)
    requires Numbered(db.execs) && Accounted(db.execs, p.maxAttempts)
    requires e < |db.execs| && Active(db.execs[e].status) && db.execs[e].jobId < |db.jobs|
    ensures Accounted(Lose(db, p, e).execs, p.maxAttempts)
  {
    var lost := PutExec(db, e, Lost).execs;
    var execs' := Lose(db, p, e).execs;
    AccountedPutExec(db, e, Lost, p.maxAttempts);
    LoseShape(db, p, e);
    if |execs'| > |lost| {
      // Before this step no retry can name e, which was active.
      assert execs' == lost + [execs'[|lost|]];
      assert db.execs[e].attempt >= 1;
      AccountedAppend(lost, execs'[|lost|], p.maxAttempts);
    }
  }

  lemma RetryFailedAccounted(db: Db, p: Params, j: JobId)
    requires Tables(db) && Accounted(db.execs, p.maxAttempts)
    ensures Accounted(RetryFailed(db, p, j).execs, p.maxAttempts)
  {
    var db' := RetryFailed(db, p, j);
    if db' != db {
      AccountedAppend(db.execs, db'.execs[|db.execs|], p.maxAttempts);
    }
  }

  lemma ClaimAccounted(s: System, p: Params, e: ExecId, token: nat)
    requires Accounted(s.db.execs, p.maxAttempts)
    ensures Accounted(Apply(s, p, DoClaim(e, token)).db.execs, p.maxAttempts)
  {
    if Claimable(s.db, e, token) {
      AccountedPutExec(s.db, e, ExecRunning, p.maxAttempts);
      AccountedPutExec(s.db, e, ExecCancelled, p.maxAttempts);
    }
  }

  /** Nothing but the status of executions changes, and a finished one stays finished. */
  lemma AccountedSame(xs: seq<Execution>, ys: seq<Execution>, max: nat)
    requires Accounted(xs, max) && |ys| == |xs|
    requires forall i :: 0 <= i < |xs| ==>
               && ys[i].jobId == xs[i].jobId && ys[i].attempt == xs[i].attempt && ys[i].origin == xs[i].origin
               && (Finished(xs[i].status) ==> Finished(ys[i].status))
    ensures Accounted(ys, max)
  {
  }

  lemma WorkerAccounted(s: System, p: Params, step: Step)
    requires Accounted(s.db.execs, p.maxAttempts) && WorkerStep(step) && Held(s, step.exec)
    ensures Accounted(Apply(s, p, step).db.execs, p.maxAttempts)
  {
    WorkerShape(s, p, step);
    AccountedSame(s.db.execs, Apply(s, p, step).db.execs, p.maxAttempts);
  }

  lemma ApiAccounted(s: System, p: Params, step: Step)
    requires Accounted(s.db.execs, p.maxAttempts)
    requires step.DoCreate? || step.DoClone? || step.DoUserRetry? || step.DoRequestStop? || step.DoPromote?
    ensures Accounted(Apply(s, p, step).db.execs, p.maxAttempts)
  {
    var execs' := Apply(s, p, step).db.execs;
    if execs' != s.db.execs {
      assert execs' == s.db.execs + [execs'[|s.db.execs|]];
      AccountedAppend(s.db.execs, execs'[|s.db.execs|], p.maxAttempts);
    }
  }

  lemma LoseStepAccounted(s: System, p: Params, e: ExecId)
    requires Tables(s.db) && Accounted(s.db.execs, p.maxAttempts)
    ensures Accounted(Apply(s, p, DoLose(e)).db.execs, p.maxAttempts)
  {
    if e < |s.db.execs| && Active(s.db.execs[e].status) {
      LoseAccounted(s.db, p, e);
    }
  }

  lemma RetryStepAccounted(s: System, p: Params, j: JobId)
    requires Tables(s.db) && Accounted(s.db.execs, p.maxAttempts)
    ensures Accounted(Apply(s, p, DoRetryFailed(j)).db.execs, p.maxAttempts)
  {
    RetryFailedAccounted(s.db, p, j);
  }

  lemma StepAccounted(s: System, p: Params, step: Step)
    requires Tables(s.db) && Accounted(s.db.execs, p.maxAttempts)
    ensures Accounted(Apply(s, p, step).db.execs, p.maxAttempts)
  {
    if step.DoLose? {
      LoseStepAccounted(s, p, step.exec);
    } else if step.DoRetryFailed? {
      RetryStepAccounted(s, p, step.job);
    } else if step.DoClaim? {
      ClaimAccounted(s, p, step.exec, step.token);
    } else if WorkerStep(step) {
      if Held(s, step.exec) {
        WorkerAccounted(s, p, step);
      }
    } else if !(step.DoSelectFailed? || step.DoEndRetryStage? || step.DoCrash? || step.DoWait?) {
      ApiAccounted(s, p, step);
    }
  }

  lemma {:induction false} RunAccounted(s: System, p: Params, steps: seq<Step>)
    requires Tables(s.db) && Accounted(s.db.execs, p.maxAttempts)
    ensures Accounted(Run(s, p, steps).db.execs, p.maxAttempts)
    decreases |steps|
  {
    if steps != [] {
      StepAccounted(s, p, steps[0]);
      StepKeepsTables(s, p, steps[0]);
      RunAccounted(Apply(s, p, steps[0]), p, steps[1..]);
    }
  }

  /** A set whose members get distinct labels between 1 and n has at most n members. */
  lemma {:induction false} DistinctLabels(xs: set<nat>, tag: map<nat, nat>, n: nat)
    requires xs == tag.Keys
    requires forall x :: x in xs ==> 1 <= tag[x] <= n
    requires forall x, y :: x in xs && y in xs && x != y ==> tag[x] != tag[y]
    ensures |xs| <= n
  {
    if xs != {} {
      var y :| y in xs;
      if x :| x in xs && tag[x] == n {
        DistinctLabels(xs - {x}, tag - {x}, n - 1);
        assert xs == (xs - {x}) + {x};
      } else {
        DistinctLabels(xs, tag, n - 1);
      }
    }
  }

  function LossRetries(execs: seq<Execution>, j: JobId): set<nat> {
    set i | 0 <= i < |execs| && execs[i].jobId == j && execs[i].origin.LossRetry?
  }

  function ErrorRetries(execs: seq<Execution>, j: JobId): set<nat> {
    set i | 0 <= i < |execs| && execs[i].jobId == j && execs[i].origin == ErrorRetry
  }

  ghost predicate Increasing(execs: seq<Execution>) {
    forall i, k :: 0 <= i < k < |execs| && execs[i].jobId == execs[k].jobId ==> execs[i].attempt < execs[k].attempt
  }

  lemma NumberedIncreases(execs: seq<Execution>)
    requires Numbered(execs)
    ensures Increasing(execs)
  {
    forall i, k | 0 <= i < k < |execs| && execs[i].jobId == execs[k].jobId
      ensures execs[i].attempt < execs[k].attempt
    {
      AttemptsDistinct(execs, i, k);
    }
  }

  lemma LossRetriesBounded(execs: seq<Execution>, max: nat, j: JobId)
    requires Increasing(execs) && Accounted(execs, max)
    ensures |LossRetries(execs, j)| <= (if max == 0 then 0 else max - 1)
  {
    var byLost := map i | i in LossRetries(execs, j) :: execs[execs[i].origin.lost].attempt;
    DistinctLabels(LossRetries(execs, j), byLost, if max == 0 then 0 else max - 1);
  }

  lemma ErrorRetriesBounded(execs: seq<Execution>, max: nat, j: JobId)
    requires Increasing(execs) && Accounted(execs, max)
    ensures |ErrorRetries(execs, j)| <= (if max == 0 then 0 else max - 1)
  {
    var byAttempt := map i | i in ErrorRetries(execs, j) :: if execs[i].attempt == 0 then 0 else execs[i].attempt - 1;
    DistinctLabels(ErrorRetries(execs, j), byAttempt, if max == 0 then 0 else max - 1);
  }

  /**
   In any run, with any number of user retries in it and with workers that keep
   writing after their execution was declared lost, the scheduler creates at most
   max - 1 loss retries and max - 1 error retries for a job.
   */
  lemma AutomaticRetriesBounded(p: Params, steps: seq<Step>, j: JobId)
    ensures var execs := Run(INITIAL, p, steps).db.execs;
            |LossRetries(execs, j) + ErrorRetries(execs, j)| <= if p.maxAttempts == 0 then 0 else 2 * (p.maxAttempts - 1)
  {
    RunKeepsTables(INITIAL, p, steps);
    RunAccounted(INITIAL, p, steps);
    var execs := Run(INITIAL, p, steps).db.execs;
    NumberedIncreases(execs);
    LossRetriesBounded(execs, p.maxAttempts, j);
    ErrorRetriesBounded(execs, p.maxAttempts, j);
  }

  // ----- Attempts and the limit, when no user retries --------------------------

  /** All attempts within the limit; only a job that never ran can be blocked. */
  ghost predicate WithinBudget(db: Db, max: nat) {
    && (forall i :: 0 <= i < |db.execs| ==> db.execs[i].attempt <= max)
    && (forall i :: 0 <= i < |db.execs| && db.execs[i].jobId < |db.jobs| ==> db.jobs[db.execs[i].jobId].status != Blocked)
  }

  /**
   The one step that can pass the limit: losing an execution that is not the
   job's latest, while the latest already has the last attempt number.
   */
  predicate OverBudget(s: System, p: Params, step: Step) {
    && step.DoLose? && s.candidates == {}
    && step.exec < |s.db.execs| && Active(s.db.execs[step.exec].status)
    && s.db.execs[step.exec].jobId < |s.db.jobs|
    && s.db.execs[step.exec].attempt < p.maxAttempts <= MaxAttempt(s.db.execs, s.db.execs[step.exec].jobId)
    && var status := s.db.jobs[s.db.execs[step.exec].jobId].status;
       status != Stopping && !Terminal(status)
  }

  lemma LoseBudget(s: System, p: Params, e: ExecId)
    requires WithinBudget(s.db, p.maxAttempts)
    requires forall i :: 0 <= i < |s.db.execs| ==> s.db.execs[i].jobId < |s.db.jobs|
    ensures WithinBudget(Apply(s, p, DoLose(e)).db, p.maxAttempts) <==> !OverBudget(s, p, DoLose(e))
  {
    if s.candidates == {} && e < |s.db.execs| && Active(s.db.execs[e].status) {
      LoseShape(s.db, p, e);
      var db' := Lose(s.db, p, e);
      var lost := PutExec(s.db, e, Lost).execs;
      assert forall i :: 0 <= i < |lost| ==> db'.execs[i] == lost[i];
      if |db'.execs| > |lost| && MaxAttempt(s.db.execs, s.db.execs[e].jobId) >= p.maxAttempts {
        assert db'.execs[|lost|].attempt > p.maxAttempts;
      }
    }
  }

  lemma PromoteBudget(db: Db, j: JobId, max: nat)
    requires Numbered(db.execs) && WithinBudget(db, max) && max >= 1
    ensures WithinBudget(Promote(db, j), max)
  {
    if j < |db.jobs| && db.jobs[j].status == Blocked {
      CountNone(db.execs, j);
      MaxAttemptIsCount(db.execs, j);
    }
  }

  lemma SubmitBudget(s: System, p: Params, step: Step)
    requires forall i :: 0 <= i < |s.db.execs| ==> s.db.execs[i].jobId < |s.db.jobs|
    requires WithinBudget(s.db, p.maxAttempts) && p.maxAttempts >= 1
    requires step.DoCreate? || step.DoClone?
    ensures WithinBudget(Apply(s, p, step).db, p.maxAttempts)
  {
    var db' := Apply(s, p, step).db;
    var n := |s.db.jobs|;
    assert |db'.jobs| == n || |db'.jobs| == n + 1;
    assert forall k :: 0 <= k < n ==> db'.jobs[k] == s.db.jobs[k];
  }

  lemma WorkerBudget(s: System, p: Params, step: Step)
    requires WithinBudget(s.db, p.maxAttempts) && WorkerStep(step)
    ensures WithinBudget(Apply(s, p, step).db, p.maxAttempts)
  {
    if Held(s, step.exec) {
      WorkerShape(s, p, step);
      WorkerJob(s, p, step);
    }
  }

  lemma OtherBudget(s: System, p: Params, step: Step)
    requires WithinBudget(s.db, p.maxAttempts) && !WorkerStep(step)
    requires !step.DoUserRetry? && !step.DoLose? && !step.DoCreate? && !step.DoClone? && !step.DoPromote?
    ensures WithinBudget(Apply(s, p, step).db, p.maxAttempts)
  {
  }

  /**
   Without a user retry the limit on attempt numbers is kept by every step except
   an over-budget loss, and broken by exactly that one.
   */
  lemma BudgetKeptExactly(s: System, p: Params, step: Step)
    requires Tables(s.db) && WithinBudget(s.db, p.maxAttempts) && p.maxAttempts >= 1
    requires !step.DoUserRetry?
    ensures WithinBudget(Apply(s, p, step).db, p.maxAttempts) <==> !OverBudget(s, p, step)
  {
    if step.DoLose? { LoseBudget(s, p, step.exec); }
    else if step.DoCreate? || step.DoClone? { SubmitBudget(s, p, step); }
    else if step.DoPromote? { PromoteBudget(s.db, step.job, p.maxAttempts); }
    else if WorkerStep(step) { WorkerBudget(s, p, step); }
    else { OtherBudget(s, p, step); }
  }

  /** A worker step by a process whose execution the scheduler has not given up. */
  predicate Orderly(s: System, step: Step) {
    WorkerStep(step) && step.exec < |s.db.execs| ==> Active(s.db.execs[step.exec].status)
  }

  /** No user retry, and no worker writes after its execution was declared lost. */
  ghost predicate OrderlyRun(s: System, p: Params, steps: seq<Step>)
    decreases |steps|
  {
    steps == [] ||
    (!steps[0].DoUserRetry? && Orderly(s, steps[0]) && OrderlyRun(Apply(s, p, steps[0]), p, steps[1..]))
  }

  /** Only the latest execution of a job is unfinished, and none is once the job has failed. */
  ghost predicate OneLive(db: Db) {
    forall i :: 0 <= i < |db.execs| && !Finished(db.execs[i].status) ==>
      && (forall k :: i < k < |db.execs| ==> db.execs[k].jobId != db.execs[i].jobId)
      && db.execs[i].jobId < |db.jobs|
      && db.jobs[db.execs[i].jobId].status != Failed
  }

  lemma LatestIsLast(execs: seq<Execution>, e: ExecId)
    requires Numbered(execs) && e < |execs|
    requires forall k :: e < k < |execs| ==> execs[k].jobId != execs[e].jobId
    ensures MaxAttempt(execs, execs[e].jobId) == execs[e].attempt
  {
    var r := Latest(execs, execs[e].jobId);
    if r.value < e {
      AttemptsDistinct(execs, r.value, e);
    }
  }

  lemma OrderlyLossInBudget(s: System, p: Params, e: ExecId)
    requires Numbered(s.db.execs) && WithinBudget(s.db, p.maxAttempts) && OneLive(s.db)
    ensures !OverBudget(s, p, DoLose(e))
  {
    if e < |s.db.execs| && Active(s.db.execs[e].status) {
      LatestIsLast(s.db.execs, e);
    }
  }

  /** The lost execution was its job's only unfinished one; a new one for that job takes its place. */
  lemma OneLiveAfterLoss(db: Db, db': Db, e: ExecId)
    requires OneLive(db) && e < |db.execs| && !Finished(db.execs[e].status)
    requires |db.execs| <= |db'.execs| <= |db.execs| + 1 && |db'.jobs| == |db.jobs|
    requires forall i :: 0 <= i < |db.execs| ==> db'.execs[i] == PutExec(db, e, Lost).execs[i]
    requires forall k :: 0 <= k < |db.jobs| && k != db.execs[e].jobId ==> db'.jobs[k] == db.jobs[k]
    requires |db'.execs| > |db.execs| ==>
               db'.execs[|db.execs|].jobId == db.execs[e].jobId && db'.jobs[db.execs[e].jobId].status != Failed
    ensures OneLive(db')
  {
    assert forall i :: 0 <= i < |db.execs| && db'.execs[i].jobId == db.execs[e].jobId ==> Finished(db'.execs[i].status);
  }

  lemma OrderlyLoss(s: System, p: Params, e: ExecId)
    requires OneLive(s.db)
    ensures OneLive(Apply(s, p, DoLose(e)).db)
  {
    if s.candidates == {} && e < |s.db.execs| && Active(s.db.execs[e].status) {
      LoseShape(s.db, p, e);
      OneLiveAfterLoss(s.db, Lose(s.db, p, e), e);
    }
  }

  lemma OrderlySubmit(s: System, p: Params, step: Step)
    requires OneLive(s.db) && (step.DoCreate? || step.DoClone?)
    requires forall i :: 0 <= i < |s.db.execs| ==> s.db.execs[i].jobId < |s.db.jobs|
    ensures OneLive(Apply(s, p, step).db)
  {
    var db' := Apply(s, p, step).db;
    var n := |s.db.jobs|;
    assert forall k :: 0 <= k < n ==> db'.jobs[k] == s.db.jobs[k];
    assert forall k :: 0 <= k < |s.db.execs| ==> db'.execs[k] == s.db.execs[k];
  }

  lemma OrderlyWorker(s: System, p: Params, step: Step)
    requires OneLive(s.db) && Orderly(s, step) && WorkerStep(step) && Held(s, step.exec)
    ensures OneLive(Apply(s, p, step).db)
  {
    WorkerShape(s, p, step);
    WorkerJob(s, p, step);
    OneLiveAfter(s.db, Apply(s, p, step).db, step.exec);
  }

  /** Finishing an unfinished execution, and changing its job at most, leaves one live. */
  lemma OneLiveAfter(db: Db, db': Db, e: ExecId)
    requires OneLive(db) && e < |db.execs| && !Finished(db.execs[e].status)
    requires |db'.execs| == |db.execs| && |db'.jobs| == |db.jobs| && db.execs[e].jobId < |db.jobs|
    requires forall i :: 0 <= i < |db.execs| ==> db'.execs[i].jobId == db.execs[i].jobId && (i != e ==> db'.execs[i] == db.execs[i])
    requires forall k :: 0 <= k < |db.jobs| && k != db.execs[e].jobId ==> db'.jobs[k] == db.jobs[k]
    requires db'.execs[e] == db.execs[e] || Finished(db'.execs[e].status)
    requires db'.jobs[db.execs[e].jobId] == db.jobs[db.execs[e].jobId]
             || (db'.jobs[db.execs[e].jobId].status == Failed ==> Finished(db'.execs[e].status))
    ensures OneLive(db')
  {
    forall i | 0 <= i < |db'.execs| && !Finished(db'.execs[i].status)
      ensures db'.jobs[db'.execs[i].jobId].status != Failed
    {
      if db.execs[i].jobId == db.execs[e].jobId {
        assert !Finished(db.execs[i].status) && !Finished(db.execs[e].status);
        assert i == e;
      }
    }
  }

  lemma OrderlyErrorRetry(s: System, p: Params, j: JobId)
    requires OneLive(s.db)
    ensures OneLive(Apply(s, p, DoRetryFailed(j)).db)
  {
  }

  lemma OneLivePromoted(db: Db, j: JobId)
    requires OneLive(db) && j < |db.jobs| && forall i :: 0 <= i < |db.execs| ==> db.execs[i].jobId != j
    ensures OneLive(DependencyFailed(db, j)) && OneLive(Released(db, j))
  {
  }

  lemma OrderlyPromote(s: System, p: Params, j: JobId)
    requires OneLive(s.db) && WithinBudget(s.db, p.maxAttempts)
    ensures OneLive(Apply(s, p, DoPromote(j)).db)
  {
    PromoteIs(s.db, j);
    if Promote(s.db, j) != s.db {
      // A blocked job has no execution yet.
      assert forall i :: 0 <= i < |s.db.execs| ==> s.db.execs[i].jobId != j;
      OneLivePromoted(s.db, j);
    }
  }

  lemma OrderlyClaim(s: System, p: Params, e: ExecId, token: nat)
    requires OneLive(s.db)
    ensures OneLive(Apply(s, p, DoClaim(e, token)).db)
  {
    if Claimable(s.db, e, token) {
      OneLiveAfterClaim(s.db, e);
    }
  }

  lemma OneLiveAfterClaim(db: Db, e: ExecId)
    requires OneLive(db) && e < |db.execs| && db.execs[e].jobId < |db.jobs| && db.execs[e].status == Assigned
    ensures OneLive(Claim(db, e))
  {
  }

  lemma OrderlyStop(s: System, p: Params, j: JobId)
    requires OneLive(s.db)
    ensures OneLive(Apply(s, p, DoRequestStop(j)).db)
  {
  }

  lemma OrderlyOther(s: System, p: Params, step: Step)
    requires OneLive(s.db)
    requires step.DoSelectFailed? || step.DoEndRetryStage? || step.DoCrash? || step.DoWait? || (WorkerStep(step) && !Held(s, step.exec))
    ensures OneLive(Apply(s, p, step).db)
  {
    var db' := Apply(s, p, step).db;
    assert db' == s.db.(now := db'.now);
  }

  lemma OrderlyKeepsOneLive(s: System, p: Params, step: Step)
    requires Tables(s.db) && WithinBudget(s.db, p.maxAttempts) && OneLive(s.db)
    requires !step.DoUserRetry? && Orderly(s, step)
    ensures OneLive(Apply(s, p, step).db)
  {
    if WorkerStep(step) {
      if Held(s, step.exec) {
        OrderlyWorker(s, p, step);
      } else {
        OrderlyOther(s, p, step);
      }
    } else if step.DoCreate? || step.DoClone? {
      OrderlySubmit(s, p, step);
    } else if step.DoLose? {
      OrderlyLoss(s, p, step.exec);
    } else if step.DoRetryFailed? {
      OrderlyErrorRetry(s, p, step.job);
    } else if step.DoPromote? {
      OrderlyPromote(s, p, step.job);
    } else if step.DoClaim? {
      OrderlyClaim(s, p, step.exec, step.token);
    } else if step.DoRequestStop? {
      OrderlyStop(s, p, step.job);
    } else {
      OrderlyOther(s, p, step);
    }
  }

  lemma OrderlyStep(s: System, p: Params, step: Step)
    requires Tables(s.db) && WithinBudget(s.db, p.maxAttempts) && p.maxAttempts >= 1 && OneLive(s.db)
    requires !step.DoUserRetry? && Orderly(s, step)
    ensures WithinBudget(Apply(s, p, step).db, p.maxAttempts) && OneLive(Apply(s, p, step).db)
  {
    BudgetKeptExactly(s, p, step);
    OrderlyKeepsOneLive(s, p, step);
    if step.DoLose? {
      OrderlyLossInBudget(s, p, step.exec);
    }
  }

  lemma {:induction false} OrderlyRunKeeps(s: System, p: Params, steps: seq<Step>)
    requires Tables(s.db) && WithinBudget(s.db, p.maxAttempts) && p.maxAttempts >= 1 && OneLive(s.db)
    requires OrderlyRun(s, p, steps)
    ensures WithinBudget(Run(s, p, steps).db, p.maxAttempts) && OneLive(Run(s, p, steps).db)
    decreases |steps|
  {
    if steps != [] {
      OrderlyStep(s, p, steps[0]);
      StepKeepsTables(s, p, steps[0]);
      OrderlyRunKeeps(Apply(s, p, steps[0]), p, steps[1..]);
    }
  }

  /** In an orderly run no attempt number passes the limit and each job has at most one unfinished execution. */
  lemma OrderlyRunsStayWithinBudget(p: Params, steps: seq<Step>)
    requires p.maxAttempts >= 1 && OrderlyRun(INITIAL, p, steps)
    ensures var db := Run(INITIAL, p, steps).db;
            && (forall i :: 0 <= i < |db.execs| ==> db.execs[i].attempt <= p.maxAttempts)
            && (forall i, k :: 0 <= i < k < |db.execs| && db.execs[i].jobId == db.execs[k].jobId ==> Finished(db.execs[i].status))
  {
    OrderlyRunKeeps(INITIAL, p, steps);
  }

  // ----- Whole runs -------------------------------------------------------------------

  /** No step of the run is over budget. */
  ghost predicate NeverOverBudget(s: System, p: Params, steps: seq<Step>)
    decreases |steps|
  {
    steps == [] || (!OverBudget(s, p, steps[0]) && NeverOverBudget(Apply(s, p, steps[0]), p, steps[1..]))
  }

  ghost predicate PassesLimit(db: Db, max: nat) {
    exists i :: 0 <= i < |db.execs| && db.execs[i].attempt > max
  }

  lemma OverBudgetPassesLimit(s: System, p: Params, step: Step)
    requires OverBudget(s, p, step)
    ensures PassesLimit(Apply(s, p, step).db, p.maxAttempts)
  {
    LoseShape(s.db, p, step.exec);
    assert Apply(s, p, step).db.execs[|s.db.execs|].attempt > p.maxAttempts;
  }

  /** Attempt numbers stay. */
  ghost predicate AttemptsStay(db: Db, db': Db) {
    |db.execs| <= |db'.execs| && forall i :: 0 <= i < |db.execs| ==> db'.execs[i].attempt == db.execs[i].attempt
  }

  lemma LossKeepsAttempts(s: System, p: Params, e: ExecId)
    ensures AttemptsStay(s.db, Apply(s, p, DoLose(e)).db)
  {
  }

  lemma StepKeepsAttempts(s: System, p: Params, step: Step)
    ensures AttemptsStay(s.db, Apply(s, p, step).db)
  {
    if step.DoLose? {
      LossKeepsAttempts(s, p, step.exec);
    } else if WorkerStep(step) && Held(s, step.exec) {
      WorkerShape(s, p, step);
    }
  }

  lemma {:induction false} LimitStaysPassed(s: System, p: Params, steps: seq<Step>)
    requires PassesLimit(s.db, p.maxAttempts)
    ensures PassesLimit(Run(s, p, steps).db, p.maxAttempts)
    decreases |steps|
  {
    if steps != [] {
      var s' := Apply(s, p, steps[0]);
      StepKeepsAttempts(s, p, steps[0]);
      var i :| 0 <= i < |s.db.execs| && s.db.execs[i].attempt > p.maxAttempts;
      assert s'.db.execs[i].attempt > p.maxAttempts;
      LimitStaysPassed(s', p, steps[1..]);
    }
  }

  lemma {:induction false} BudgetOverRun(s: System, p: Params, steps: seq<Step>)
    requires Tables(s.db) && WithinBudget(s.db, p.maxAttempts) && p.maxAttempts >= 1
    requires forall i :: 0 <= i < |steps| ==> !steps[i].DoUserRetry?
    ensures PassesLimit(Run(s, p, steps).db, p.maxAttempts) <==> !NeverOverBudget(s, p, steps)
    decreases |steps|
  {
    if steps != [] {
      var s' := Apply(s, p, steps[0]);
      BudgetKeptExactly(s, p, steps[0]);
      if OverBudget(s, p, steps[0]) {
        OverBudgetPassesLimit(s, p, steps[0]);
        LimitStaysPassed(s', p, steps[1..]);
      } else {
        StepKeepsTables(s, p, steps[0]);
        BudgetOverRun(s', p, steps[1..]);
      }
    }
  }

  /**
   A run without user retries keeps all attempt numbers within the limit exactly when no
   step of it loses an older execution while the newest already has the last number.
   */
  lemma LimitKeptExactly(p: Params, steps: seq<Step>)
    requires p.maxAttempts >= 1 && forall i :: 0 <= i < |steps| ==> !steps[i].DoUserRetry?
    ensures (forall i :: 0 <= i < |Run(INITIAL, p, steps).db.execs| ==>
               Run(INITIAL, p, steps).db.execs[i].attempt <= p.maxAttempts)
            <==> NeverOverBudget(INITIAL, p, steps)
  {
    BudgetOverRun(INITIAL, p, steps);
  }

  // ----- What a user can retry ------------------------------------------------------

  lemma {:induction false} LatestIffCounted(execs: seq<Execution>, j: JobId)
    ensures Latest(execs, j).None? <==> Count(execs, j) == 0
  {
    if execs != [] {
      LatestIffCounted(execs[..|execs| - 1], j);
    }
  }

  /**
   In every reachable state a finished job whose inputs are still good can be retried
   exactly when it has an execution, that is, when it was ever written QUEUED; one that was
   only ever blocked is refused.
   */
  lemma RetryNeedsAFirstDispatch(p: Params, steps: seq<Step>, j: JobId, catalog: Catalog)
    requires var db := Run(INITIAL, p, steps).db;
             j < |db.jobs| && Terminal(db.jobs[j].status) && Admit(db.jobs[j].config, AsStored, catalog).Success?
    ensures var db := Run(INITIAL, p, steps).db;
            && (UserRetry(db, j, catalog).Success? <==> Latest(db.execs, j).Some?)
            && (Latest(db.execs, j).Some? <==> db.jobs[j].queuedWrites > 0)
            && (UserRetry(db, j, catalog).Failure? ==> UserRetry(db, j, catalog).error == NoExecution)
  {
    RunKeepsTables(INITIAL, p, steps);
    LatestIffCounted(Run(INITIAL, p, steps).db.execs, j);
  }

  // ----- Delays ------------------------------------------------------------------

  lemma BackoffGrows(p: Params, next: nat)
    requires next >= 2
    ensures BackoffS(p, next + 1) == Min(2 * BackoffS(p, next), BackoffCap(p))
  {
    var n := next - 2;
    assert Pow2(n + 1) == 2 * Pow2(n);
    assert p.backoffBaseS * Pow2(n + 1) == 2 * (p.backoffBaseS * Pow2(n));
  }

  /**
   The cap is meant to keep every delay below the stale timeout. It does, whatever the
   attempt, exactly when the timeout is above the five seconds the cap never goes below,
   or there is no delay at all.
   */
  lemma DelaysStayBelowTheTimeout(p: Params)
    ensures (forall next: nat :: BackoffS(p, next) < p.staleTimeoutS)
       <==> p.staleTimeoutS > 5 || (p.backoffBaseS == 0 && p.staleTimeoutS > 0)
  {
    if p.backoffBaseS == 0 {
      forall next: nat
        ensures BackoffS(p, next) == 0
      {
      }
      assert BackoffS(p, 0) == 0;
    } else if p.staleTimeoutS <= 5 {
      assert Pow2(3) == 8;
      assert p.backoffBaseS * Pow2(3) >= 8;
      assert BackoffS(p, 5) == 5;
    }
  }
}
