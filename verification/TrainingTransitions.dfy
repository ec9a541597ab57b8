/**
 Which status changes happen to a training job: exactly when a row is written QUEUED,
 when a change is outside the table of legal ones, when a finished job is reopened and
 when a job is released before its dependencies are done. All conditions are on the
 state before the step.
 */
module TrainingTransitions {
  import opened Wrappers
  import opened TrainingModel
  import opened TrainingTables

  // ----- The four ways a row of the table is written QUEUED ------------------------

  /** Losing this execution queues its job again. */
  predicate LossRequeues(s: System, p: Params, step: Step, j: JobId) {
    && step.DoLose? && s.candidates == {}
    && step.exec < |s.db.execs| && Active(s.db.execs[step.exec].status)
    && s.db.execs[step.exec].jobId == j < |s.db.jobs|
    && s.db.execs[step.exec].attempt < p.maxAttempts
    && !Terminal(s.db.jobs[j].status) && s.db.jobs[j].status != Stopping
  }

  predicate ErrorRequeues(s: System, p: Params, step: Step, j: JobId) {
    && step.DoRetryFailed? && step.job == j && j in s.candidates
    && j < |s.db.jobs| && s.db.jobs[j].status == Failed
    && Latest(s.db.execs, j).Some? && MaxAttempt(s.db.execs, j) < p.maxAttempts
  }

  predicate UserReopens(s: System, step: Step, j: JobId) {
    && step.DoUserRetry? && step.job == j
    && j < |s.db.jobs| && Terminal(s.db.jobs[j].status)
    && Admit(s.db.jobs[j].config, AsStored, step.catalog).Success? && Latest(s.db.execs, j).Some?
  }

  predicate Releases(s: System, step: Step, j: JobId) {
    && step.DoPromote? && step.job == j && s.candidates == {}
    && j < |s.db.jobs| && s.db.jobs[j].status == Blocked
    && !AnyDepFailed(s.db, j) && AllDepsCompleted(s.db, j)
  }

  predicate WritesQueued(s: System, p: Params, step: Step, j: JobId) {
    || LossRequeues(s, p, step, j)
    || ErrorRequeues(s, p, step, j)
    || (UserReopens(s, step, j) && AllDepsCompleted(s.db, j))
    || Releases(s, step, j)
  }

  ghost predicate QueuedExactly(s: System, p: Params, step: Step, j: JobId)
    requires j < |s.db.jobs|
  {
    var db' := Apply(s, p, step).db;
    && j < |db'.jobs|
    && db'.jobs[j].queuedWrites == s.db.jobs[j].queuedWrites + (if WritesQueued(s, p, step, j) then 1 else 0)
    && (WritesQueued(s, p, step, j) ==> db'.jobs[j].status == Queued)
    && (db'.jobs[j].status == Queued ==> WritesQueued(s, p, step, j) || s.db.jobs[j].status == Queued)
  }

  lemma LossQueues(s: System, p: Params, e: ExecId, j: JobId)
    requires j < |s.db.jobs|
    ensures QueuedExactly(s, p, DoLose(e), j)
  {
  }

  lemma SchedulerQueues(s: System, p: Params, step: Step, j: JobId)
    requires j < |s.db.jobs| && (step.DoRetryFailed? || step.DoPromote?)
    ensures QueuedExactly(s, p, step, j)
  {
  }

  lemma ApiQueues(s: System, p: Params, step: Step, j: JobId)
    requires j < |s.db.jobs| && (step.DoCreate? || step.DoClone? || step.DoUserRetry? || step.DoRequestStop?)
    ensures QueuedExactly(s, p, step, j)
  {
  }

  lemma WorkerQueues(s: System, p: Params, step: Step, j: JobId)
    requires j < |s.db.jobs| && (step.DoClaim? || WorkerStep(step))
    ensures QueuedExactly(s, p, step, j)
  {
  }

  /**
   A row's count of QUEUED writes goes up, by one, exactly when a step writes the row QUEUED;
   and that is exactly a loss retry, an error retry, a user's retry or a release.
   */
  lemma QueuedWritesAreCounted(s: System, p: Params, step: Step, j: JobId)
    requires j < |s.db.jobs|
    ensures QueuedExactly(s, p, step, j)
  {
    if step.DoLose? {
      LossQueues(s, p, step.exec, j);
    } else if step.DoRetryFailed? || step.DoPromote? {
      SchedulerQueues(s, p, step, j);
    } else if step.DoClaim? || WorkerStep(step) {
      WorkerQueues(s, p, step, j);
    } else if step.DoCreate? || step.DoClone? || step.DoUserRetry? || step.DoRequestStop? {
      ApiQueues(s, p, step, j);
    }
  }

  /** A new row starts with one such write if it is dispatched at once, with none if it is blocked. */
  lemma NewRowsAreCounted(s: System, p: Params, step: Step, j: JobId)
    requires |s.db.jobs| <= j < |Apply(s, p, step).db.jobs|
    ensures var job := Apply(s, p, step).db.jobs[j];
            && (job.status == Queued || job.status == Blocked)
            && job.queuedWrites == if job.status == Queued then 1 else 0
  {
  }

  // ----- The table of legal changes ------------------------------------------------------

  /** A loss retry takes a started job back to the queue, which the table does not have. */
  predicate LeavesTheTable(s: System, p: Params, step: Step, j: JobId) {
    LossRequeues(s, p, step, j) && (s.db.jobs[j].status == Preparing || s.db.jobs[j].status == Running)
  }

  ghost predicate FollowsExactly(s: System, p: Params, step: Step, j: JobId)
    requires j < |s.db.jobs|
  {
    var db' := Apply(s, p, step).db;
    && j < |db'.jobs| && db'.jobs[j].status != Scheduled
    && (db'.jobs[j].status == s.db.jobs[j].status || Legal(s.db.jobs[j].status, db'.jobs[j].status)
        <==> !LeavesTheTable(s, p, step, j))
  }

  lemma LossFollows(s: System, p: Params, e: ExecId, j: JobId)
    requires j < |s.db.jobs| && s.db.jobs[j].status != Scheduled
    ensures FollowsExactly(s, p, DoLose(e), j)
  {
  }

  lemma SchedulerFollows(s: System, p: Params, step: Step, j: JobId)
    requires j < |s.db.jobs| && s.db.jobs[j].status != Scheduled && (step.DoRetryFailed? || step.DoPromote?)
    ensures FollowsExactly(s, p, step, j)
  {
  }

  lemma ApiFollows(s: System, p: Params, step: Step, j: JobId)
    requires j < |s.db.jobs| && s.db.jobs[j].status != Scheduled
    requires step.DoCreate? || step.DoClone? || step.DoUserRetry? || step.DoRequestStop?
    ensures FollowsExactly(s, p, step, j)
  {
  }

  lemma WorkerFollows(s: System, p: Params, step: Step, j: JobId)
    requires j < |s.db.jobs| && s.db.jobs[j].status != Scheduled && (step.DoClaim? || WorkerStep(step))
    ensures FollowsExactly(s, p, step, j)
  {
  }

  lemma StepFollows(s: System, p: Params, step: Step, j: JobId)
    requires j < |s.db.jobs| && s.db.jobs[j].status != Scheduled
    ensures FollowsExactly(s, p, step, j)
  {
    if step.DoLose? {
      LossFollows(s, p, step.exec, j);
    } else if step.DoRetryFailed? || step.DoPromote? {
      SchedulerFollows(s, p, step, j);
    } else if step.DoClaim? || WorkerStep(step) {
      WorkerFollows(s, p, step, j);
    } else if step.DoCreate? || step.DoClone? || step.DoUserRetry? || step.DoRequestStop? {
      ApiFollows(s, p, step, j);
    }
  }

  ghost predicate NoneScheduled(db: Db) {
    forall k: JobId :: k < |db.jobs| ==> db.jobs[k].status != Scheduled
  }

  lemma {:induction false} NoneEverScheduled(s: System, p: Params, steps: seq<Step>)
    requires NoneScheduled(s.db)
    ensures NoneScheduled(Run(s, p, steps).db)
    decreases |steps|
  {
    if steps != [] {
      var s' := Apply(s, p, steps[0]);
      forall k: JobId | k < |s'.db.jobs|
        ensures s'.db.jobs[k].status != Scheduled
      {
        if k < |s.db.jobs| {
          StepFollows(s, p, steps[0], k);
        } else {
          NewRowsAreCounted(s, p, steps[0], k);
        }
      }
      NoneEverScheduled(s', p, steps[1..]);
    }
  }

  /**
   In every reachable state, whoever acts, a job's status stays or changes as the table
   allows, except exactly when the loss of an execution with attempts left takes a PREPARING
   or RUNNING job back to QUEUED. Most of these writes do not go through the guarded transition.
   */
  lemma StepsFollowTheTableExactly(p: Params, steps: seq<Step>, step: Step, j: JobId)
    requires j < |Run(INITIAL, p, steps).db.jobs|
    ensures FollowsExactly(Run(INITIAL, p, steps), p, step, j)
  {
    NoneEverScheduled(INITIAL, p, steps);
    StepFollows(Run(INITIAL, p, steps), p, step, j);
  }

  // ----- Finished jobs --------------------------------------------------------------------

  lemma WorkersReopenNothing(s: System, p: Params, step: Step, j: JobId)
    requires j < |s.db.jobs| && Terminal(s.db.jobs[j].status) && (step.DoClaim? || WorkerStep(step))
    ensures j < |Apply(s, p, step).db.jobs| && Terminal(Apply(s, p, step).db.jobs[j].status)
  {
  }

  lemma OnlyTheUserReopens(s: System, p: Params, step: Step, j: JobId)
    requires j < |s.db.jobs| && Terminal(s.db.jobs[j].status)
    requires step.DoCreate? || step.DoClone? || step.DoUserRetry? || step.DoRequestStop?
    ensures j < |Apply(s, p, step).db.jobs|
    ensures !Terminal(Apply(s, p, step).db.jobs[j].status) <==> UserReopens(s, step, j)
  {
  }

  /** A finished job is reopened exactly by its user's retry and by the scheduler's retry of a failed one. */
  lemma OnlyRetriesReopen(s: System, p: Params, step: Step, j: JobId)
    requires j < |s.db.jobs| && Terminal(s.db.jobs[j].status)
    ensures j < |Apply(s, p, step).db.jobs|
    ensures !Terminal(Apply(s, p, step).db.jobs[j].status) <==> UserReopens(s, step, j) || ErrorRequeues(s, p, step, j)
  {
    if step.DoClaim? || WorkerStep(step) {
      WorkersReopenNothing(s, p, step, j);
    } else if step.DoCreate? || step.DoClone? || step.DoUserRetry? || step.DoRequestStop? {
      OnlyTheUserReopens(s, p, step, j);
    }
  }

  // ----- Dependencies ------------------------------------------------------------------------

  /**
   A job whose dependencies are not all completed is written QUEUED exactly by the two
   automatic retries, which do not look at dependencies.
   */
  lemma OnlyAutomaticRetriesSkipDependencies(s: System, p: Params, step: Step, j: JobId)
    requires j < |s.db.jobs| && !AllDepsCompleted(s.db, j)
    ensures j < |Apply(s, p, step).db.jobs|
    ensures s.db.jobs[j].status != Queued ==>
              (Apply(s, p, step).db.jobs[j].status == Queued <==> LossRequeues(s, p, step, j) || ErrorRequeues(s, p, step, j))
  {
    QueuedWritesAreCounted(s, p, step, j);
  }

  // ----- Every entry of the table ---------------------------------------------------------------

  /** Some step takes some job from one status to the other. */
  ghost predicate Happens(from: JobStatus, to: JobStatus) {
    exists s: System, p: Params, step: Step, j: JobId ::
      && j < |s.db.jobs| && s.db.jobs[j].status == from
      && j < |Apply(s, p, step).db.jobs| && Apply(s, p, step).db.jobs[j].status == to
  }

  const SAMPLE := Config(0, None, "")
  const SAMPLE_DATA := Catalog(map[0 := DatasetRow(true, "DETECT", 0)], map[], true, true, true)

  function SampleJob(status: JobStatus): Job {
    Job(status, SAMPLE, Snapshot(SAMPLE, "DETECT", 0, AsWritten), None, None, 1)
  }

  /** A job with one execution, and a blocked job it may depend on. */
  function SampleSystem(from: JobStatus, exec: ExecStatus, open: bool): System {
    System(Db([SampleJob(from), SampleJob(Blocked)], if open then {(0, 1)} else {},
              [Execution(0, 1, exec, 0, SampleJob(from).snapshot, Submitted)], [Event(0, 0, 0, 1, 0)], 1, 0), {0}, {})
  }

  function SampleStep(from: JobStatus, to: JobStatus): Step {
    match to
    case Preparing => DoClaim(0, 0)
    case Running => DoStart(0)
    case Completed => DoComplete(0)
    case Failed => DoFail(0, "")
    case Stopped => DoStopped(0)
    case Queued =>
      if from == Blocked then DoPromote(0) else if Terminal(from) then DoUserRetry(0, SAMPLE_DATA) else DoLose(0)
    case Blocked => DoUserRetry(0, SAMPLE_DATA)
    case _ => DoRequestStop(0)
  }

  lemma LegalHappens(from: JobStatus, to: JobStatus)
    requires Legal(from, to) && from != Scheduled
    ensures Happens(from, to)
  {
    var s := SampleSystem(from, if to == Preparing then Assigned else ExecRunning, to == Blocked);
    var p := Params(2, 0, 0, 0);
    SampleMoves(s, p, from, to);
  }

  ghost predicate Moved(s: System, p: Params, from: JobStatus, to: JobStatus) {
    var db' := Apply(s, p, SampleStep(from, to)).db;
    |db'.jobs| == 2 && db'.jobs[0].status == to
  }

  lemma SampleRetries(s: System, p: Params, from: JobStatus, to: JobStatus)
    requires s == SampleSystem(from, ExecRunning, to == Blocked) && Terminal(from) && (to == Queued || to == Blocked)
    ensures Moved(s, p, from, to)
  {
    assert to == Blocked ==> (0, 1) in s.db.deps;
    assert Latest(s.db.execs, 0).Some?;
  }

  lemma SampleMoves(s: System, p: Params, from: JobStatus, to: JobStatus)
    requires s == SampleSystem(from, if to == Preparing then Assigned else ExecRunning, to == Blocked) && p.maxAttempts == 2
    requires (Legal(from, to) && from != Scheduled) || (to == Queued && (from == Preparing || from == Running))
    ensures Moved(s, p, from, to)
  {
    if Terminal(from) {
      SampleRetries(s, p, from, to);
    }
  }

  /** The table is exactly what happens to jobs, except for the two moves back to QUEUED after a loss. */
  lemma TableIsWhatHappens(from: JobStatus, to: JobStatus)
    requires from != Scheduled && from != to
    ensures Happens(from, to) <==> Legal(from, to) || (to == Queued && (from == Preparing || from == Running))
  {
    if to == Queued && (from == Preparing || from == Running) {
      SampleMoves(SampleSystem(from, ExecRunning, false), Params(2, 0, 0, 0), from, to);
    } else if Legal(from, to) {
      LegalHappens(from, to);
    }
    forall s: System, p: Params, step: Step, j: JobId |
      && j < |s.db.jobs| && s.db.jobs[j].status == from
      && j < |Apply(s, p, step).db.jobs| && Apply(s, p, step).db.jobs[j].status == to
      ensures Legal(from, to) || (to == Queued && (from == Preparing || from == Running))
    {
      StepFollows(s, p, step, j);
      QueuedWritesAreCounted(s, p, step, j);
    }
  }
}
