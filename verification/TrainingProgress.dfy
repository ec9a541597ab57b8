/**
 No training job is ever stranded: in every reachable state each queued job has an
 execution to claim and each started one an execution that can still end it, and the
 scheduler and the workers alone can bring all jobs to an end.
 */
module TrainingProgress {
  import opened Wrappers
  import opened TrainingModel
  import opened TrainingTables

  // ----- What an unfinished job goes on with -----------------------------------------

  predicate HasAssigned(db: Db, j: JobId) {
    exists e: ExecId :: e < |db.execs| && db.execs[e].jobId == j && db.execs[e].status == Assigned
  }

  predicate HasActive(db: Db, j: JobId) {
    exists e: ExecId :: e < |db.execs| && db.execs[e].jobId == j && Active(db.execs[e].status)
  }

  predicate Started(s: JobStatus) {
    s == Preparing || s == Running || s == Stopping
  }

  /** A queued job has an execution that can be claimed, a started one an execution that holds it. */
  predicate Driven(db: Db, j: JobId)
    requires j < |db.jobs|
  {
    && db.jobs[j].status != Scheduled
    && (db.jobs[j].status == Queued ==> HasAssigned(db, j))
    && (Started(db.jobs[j].status) ==> HasActive(db, j))
  }

  ghost predicate AllDriven(db: Db) {
    forall j: JobId :: j < |db.jobs| ==> Driven(db, j)
  }

  // ----- The ways a transaction changes a table ----------------------------------------

  lemma DispatchDrives(db: Db, j: JobId, job: Job, attempt: nat, snapshot: Snapshot, origin: Origin, delay: nat, k: JobId)
    requires j < |db.jobs| && k < |db.jobs| && job.status == Queued && (k != j ==> Driven(db, k))
    ensures Driven(Dispatch(PutJob(db, j, job), j, attempt, snapshot, origin, delay), k)
  {
    var db' := Dispatch(PutJob(db, j, job), j, attempt, snapshot, origin, delay);
    assert db'.execs[|db.execs|].jobId == j && db'.execs[|db.execs|].status == Assigned;
    if k != j {
      ExecsStay(db, db', k);
    }
  }

  /** A row that stays as it is keeps what drives it, as long as its own executions stay. */
  lemma ExecsStay(db: Db, db': Db, k: JobId)
    requires k < |db.jobs| && k < |db'.jobs| && Driven(db, k)
    requires db'.jobs[k].status == db.jobs[k].status || (Started(db.jobs[k].status) && Started(db'.jobs[k].status))
             || Terminal(db'.jobs[k].status) || db'.jobs[k].status == Blocked
    requires |db.execs| <= |db'.execs|
    requires forall e :: 0 <= e < |db.execs| && db.execs[e].jobId == k ==> db'.execs[e] == db.execs[e]
    ensures Driven(db', k)
  {
    if db.jobs[k].status == Queued {
      var e: ExecId :| e < |db.execs| && db.execs[e].jobId == k && db.execs[e].status == Assigned;
      assert db'.execs[e].status == Assigned;
    } else if Started(db.jobs[k].status) {
      var e: ExecId :| e < |db.execs| && db.execs[e].jobId == k && Active(db.execs[e].status);
      assert Active(db'.execs[e].status);
    }
  }

  /** A finished or blocked row needs nothing to drive it. */
  lemma RestIsDriven(db: Db, k: JobId)
    requires k < |db.jobs| && (Terminal(db.jobs[k].status) || db.jobs[k].status == Blocked)
    ensures Driven(db, k)
  {
  }

  // ----- Every step ---------------------------------------------------------------------

  lemma InitialDrives(db: Db, config: Config, snapshot: Snapshot, deps: set<JobId>, k: JobId)
    requires k <= |db.jobs| && (k < |db.jobs| ==> Driven(db, k))
    ensures Driven(DispatchInitial(Inserted(db, config, snapshot, deps), |db.jobs|, snapshot), k)
  {
    var db1, j := Inserted(db, config, snapshot, deps), |db.jobs|;
    if k < j {
      ExecsStay(db, db1, k);
      ExecsStay(db1, DispatchInitial(db1, j, snapshot), k);
    } else if AllDepsCompleted(db1, j) {
      var job := db1.jobs[j].(snapshot := snapshot, status := Queued, queuedWrites := db1.jobs[j].queuedWrites + 1);
      DispatchDrives(db1, j, job, 1, snapshot, Submitted, 0, k);
    }
  }

  lemma RetryDrives(db: Db, j: JobId, snapshot: Snapshot, db': Db, k: JobId)
    requires j < |db.jobs| && k < |db.jobs| && Driven(db, k) && RetryWith(db, j, snapshot).Success?
    requires db' == RetryWith(db, j, snapshot).value
    ensures Driven(db', k)
  {
    var job := db.jobs[j].(failureCode := None, finishedAt := None, snapshot := snapshot);
    if AllDepsCompleted(db, j) {
      DispatchDrives(db, j, job.(status := Queued, queuedWrites := job.queuedWrites + 1), MaxAttempt(db.execs, j) + 1,
                     snapshot, UserRetried, 0, k);
    } else {
      ExecsStay(db, db', k);
    }
  }

  lemma StopDrives(db: Db, j: JobId, k: JobId)
    requires k < |db.jobs| && Driven(db, k)
    ensures Driven(Committed(db, RequestStop(db, j)), k)
  {
    ExecsStay(db, Committed(db, RequestStop(db, j)), k);
  }

  lemma ApiDrives(s: System, p: Params, step: Step, k: JobId)
    requires step.DoCreate? || step.DoClone? || step.DoUserRetry? || step.DoRequestStop?
    requires AllDriven(s.db) && k < |Apply(s, p, step).db.jobs|
    ensures Driven(Apply(s, p, step).db, k)
  {
    match step
    case DoCreate(config, dependsOn, catalog) =>
      if Create(s.db, config, dependsOn, catalog).Success? {
        InitialDrives(s.db, config, Admit(config, AsWritten, catalog).value, Wanted(|s.db.jobs|, dependsOn), k);
      }
    case DoClone(source, catalog) =>
      if Clone(s.db, source, catalog).Success? {
        InitialDrives(s.db, s.db.jobs[source].config, Admit(s.db.jobs[source].config, AsStored, catalog).value, {}, k);
      }
    case DoUserRetry(j, catalog) =>
      if UserRetry(s.db, j, catalog).Success? {
        RetryDrives(s.db, j, Admit(s.db.jobs[j].config, AsStored, catalog).value, UserRetry(s.db, j, catalog).value, k);
      }
    case DoRequestStop(j) => StopDrives(s.db, j, k);
  }

  lemma LossDrives(db: Db, p: Params, e: ExecId, k: JobId)
    requires k < |db.jobs| && Driven(db, k)
    ensures k < |Lose(db, p, e).jobs| && Driven(Lose(db, p, e), k)
  {
    if e < |db.execs| && Active(db.execs[e].status) {
      var j, lost := db.execs[e].jobId, PutExec(db, e, Lost);
      if k != j {
        ExecsStay(db, Lose(db, p, e), k);
      } else if !Terminal(db.jobs[j].status) && db.jobs[j].status != Stopping && db.execs[e].attempt < p.maxAttempts {
        assert lost.execs[e].jobId == j;
        var latest := lost.execs[Latest(lost.execs, j).value];
        DispatchDrives(lost, j, Requeued(db.jobs[j]), latest.attempt + 1, latest.snapshot, LossRetry(e),
                       BackoffS(p, latest.attempt + 1), k);
      } else {
        RestIsDriven(Lose(db, p, e), k);
      }
    }
  }

  lemma ErrorRetryDrives(db: Db, p: Params, j: JobId, k: JobId)
    requires k < |db.jobs| && Driven(db, k)
    ensures k < |RetryFailed(db, p, j).jobs| && Driven(RetryFailed(db, p, j), k)
  {
    if RetryFailed(db, p, j) != db {
      var latest := db.execs[Latest(db.execs, j).value];
      DispatchDrives(db, j, Requeued(db.jobs[j]), latest.attempt + 1, latest.snapshot, ErrorRetry,
                     BackoffS(p, latest.attempt + 1), k);
    }
  }

  lemma PromoteDrives(db: Db, j: JobId, k: JobId)
    requires k < |db.jobs| && Driven(db, k)
    ensures k < |Promote(db, j).jobs| && Driven(Promote(db, j), k)
  {
    PromoteIs(db, j);
    if j < |db.jobs| && Promote(db, j) == Released(db, j) {
      DispatchDrives(db, j, ReleasedJob(db.jobs[j]), MaxAttempt(db.execs, j) + 1, db.jobs[j].snapshot, Unblocked, 0, k);
    } else {
      ExecsStay(db, Promote(db, j), k);
    }
  }

  lemma ClaimDrives(db: Db, e: ExecId, k: JobId)
    requires e < |db.execs| && db.execs[e].jobId < |db.jobs| && db.execs[e].status == Assigned
    requires k < |db.jobs| && Driven(db, k)
    ensures k < |Claim(db, e).jobs| && Driven(Claim(db, e), k)
  {
    var db' := Claim(db, e);
    if k != db.execs[e].jobId {
      ExecsStay(db, db', k);
    } else if db.jobs[k].status == Queued {
      assert Active(db'.execs[e].status);
    } else if Started(db.jobs[k].status) {
      var f: ExecId :| f < |db.execs| && db.execs[f].jobId == k && Active(db.execs[f].status);
      assert db'.execs[f] == db.execs[f];
    }
  }

  /** A worker step leaves its own job running with its executions, or finished. */
  lemma WorkerDrives(s: System, p: Params, step: Step, k: JobId)
    requires WorkerStep(step) && Held(s, step.exec) && k < |s.db.jobs| && Driven(s.db, k)
    ensures k < |Apply(s, p, step).db.jobs| && Driven(Apply(s, p, step).db, k)
  {
    var db' := Apply(s, p, step).db;
    WorkerShape(s, p, step);
    if k != s.db.execs[step.exec].jobId {
      ExecsStay(s.db, db', k);
    } else {
      WorkerEnds(s, p, step);
      if !Terminal(db'.jobs[k].status) {
        ExecsStay(s.db, db', k);
      }
    }
  }

  lemma WorkerEnds(s: System, p: Params, step: Step)
    requires WorkerStep(step) && Held(s, step.exec)
    ensures var db', j := Apply(s, p, step).db, s.db.execs[step.exec].jobId;
            || Terminal(db'.jobs[j].status)
            || (db'.execs == s.db.execs && db'.jobs[j].status == s.db.jobs[j].status)
            || (db'.execs == s.db.execs && Started(s.db.jobs[j].status) && Started(db'.jobs[j].status))
  {
  }

  lemma SchedulerDrives(s: System, p: Params, step: Step, k: JobId)
    requires step.DoLose? || step.DoRetryFailed? || step.DoPromote?
    requires k < |s.db.jobs| && Driven(s.db, k)
    ensures k < |Apply(s, p, step).db.jobs| && Driven(Apply(s, p, step).db, k)
  {
    match step
    case DoLose(e) => LossDrives(s.db, p, e, k);
    case DoRetryFailed(j) => ErrorRetryDrives(s.db, p, j, k);
    case DoPromote(j) => PromoteDrives(s.db, j, k);
  }

  lemma StepDrives(s: System, p: Params, step: Step, k: JobId)
    requires AllDriven(s.db) && k < |Apply(s, p, step).db.jobs|
    ensures Driven(Apply(s, p, step).db, k)
  {
    if step.DoCreate? || step.DoClone? || step.DoUserRetry? || step.DoRequestStop? {
      ApiDrives(s, p, step, k);
    } else if step.DoLose? || step.DoRetryFailed? || step.DoPromote? {
      assert k < |s.db.jobs|;
      SchedulerDrives(s, p, step, k);
    } else if step.DoClaim? && Claimable(s.db, step.exec, step.token) {
      ClaimDrives(s.db, step.exec, k);
    } else if WorkerStep(step) && Held(s, step.exec) {
      WorkerDrives(s, p, step, k);
    } else {
      ExecsStay(s.db, Apply(s, p, step).db, k);
    }
  }

  lemma {:induction false} RunDrives(s: System, p: Params, steps: seq<Step>)
    requires AllDriven(s.db)
    ensures AllDriven(Run(s, p, steps).db)
    decreases |steps|
  {
    if steps != [] {
      var s' := Apply(s, p, steps[0]);
      forall k: JobId | k < |s'.db.jobs|
        ensures Driven(s'.db, k)
      {
        StepDrives(s, p, steps[0], k);
      }
      RunDrives(s', p, steps[1..]);
    }
  }

  /**
   In every reachable state, whatever users, workers and the scheduler have done: a queued
   job has an execution waiting to be claimed, and a started one an execution that still
   holds it or can be declared lost.
   */
  lemma NoJobIsStranded(p: Params, steps: seq<Step>, j: JobId)
    requires j < |Run(INITIAL, p, steps).db.jobs|
    ensures var db := Run(INITIAL, p, steps).db;
            && (db.jobs[j].status == Queued ==> HasAssigned(db, j))
            && (Started(db.jobs[j].status) ==> HasActive(db, j))
  {
    RunDrives(INITIAL, p, steps);
    assert Driven(Run(INITIAL, p, steps).db, j);
  }

  // ----- Every job can be brought to an end ----------------------------------------------

  /** A step of the scheduler, a worker or time. */
  predicate Unattended(step: Step) {
    !step.DoCreate? && !step.DoClone? && !step.DoUserRetry? && !step.DoRequestStop?
  }

  predicate AllUnattended(steps: seq<Step>) {
    forall i :: 0 <= i < |steps| ==> Unattended(steps[i])
  }

  /** Between two error-retry stages; at most job j's row differs. */
  ghost predicate OnlyJob(s: System, s': System, j: JobId) {
    && s'.candidates == {} && |s'.db.jobs| == |s.db.jobs|
    && forall k: JobId :: k < |s.db.jobs| && k != j ==> s'.db.jobs[k] == s.db.jobs[k]
  }

  /** Only job j's row differs, and it is finished. */
  ghost predicate Ended(s: System, s': System, j: JobId) {
    OnlyJob(s, s', j) && j < |s'.db.jobs| && Terminal(s'.db.jobs[j].status)
  }

  lemma ClaimPrepares(s: System, p: Params, e: ExecId)
    requires s.candidates == {} && e < |s.db.execs| && Claimable(s.db, e, s.db.execs[e].token) && s.db.jobs[s.db.execs[e].jobId].status == Queued
    ensures var s', j := Apply(s, p, DoClaim(e, s.db.execs[e].token)), s.db.execs[e].jobId;
            OnlyJob(s, s', j) && Held(s', e) && s'.db.execs[e].jobId == j && s'.db.jobs[j].status == Preparing
  {
  }

  lemma StartRuns(s: System, p: Params, e: ExecId)
    requires s.candidates == {} && Held(s, e) && s.db.jobs[s.db.execs[e].jobId].status == Preparing
    ensures var s', j := Apply(s, p, DoStart(e)), s.db.execs[e].jobId;
            OnlyJob(s, s', j) && Held(s', e) && s'.db.execs[e].jobId == j && s'.db.jobs[j].status == Running
  {
  }

  lemma CompleteEnds(s: System, p: Params, e: ExecId)
    requires s.candidates == {} && Held(s, e) && s.db.jobs[s.db.execs[e].jobId].status == Running
    ensures Ended(s, Apply(s, p, DoComplete(e)), s.db.execs[e].jobId)
  {
  }

  /** A queued job is claimed, started and completed. */
  lemma FinishQueued(s: System, p: Params, j: JobId) returns (steps: seq<Step>)
    requires s.candidates == {} && j < |s.db.jobs| && s.db.jobs[j].status == Queued && HasAssigned(s.db, j)
    ensures AllUnattended(steps) && Ended(s, Run(s, p, steps), j)
  {
    var e: ExecId :| e < |s.db.execs| && s.db.execs[e].jobId == j && s.db.execs[e].status == Assigned;
    steps := [DoClaim(e, s.db.execs[e].token), DoStart(e), DoComplete(e)];
    RunThree(s, p, steps);
    ClaimPrepares(s, p, e);
    var s1 := Apply(s, p, steps[0]);
    StartRuns(s1, p, e);
    CompleteEnds(Apply(s1, p, steps[1]), p, e);
  }

  /** After a step that leaves j finished or queued, it is finished or can be. */
  lemma FinishAfter(s: System, p: Params, step: Step, j: JobId) returns (steps: seq<Step>)
    requires AllDriven(s.db) && Unattended(step) && OnlyJob(s, Apply(s, p, step), j) && j < |s.db.jobs|
    requires var status := Apply(s, p, step).db.jobs[j].status; Terminal(status) || status == Queued
    ensures AllUnattended(steps) && Ended(s, Run(s, p, steps), j)
  {
    var s' := Apply(s, p, step);
    var more: seq<Step> := [];
    if s'.db.jobs[j].status == Queued {
      StepDrives(s, p, step, j);
      more := FinishQueued(s', p, j);
    }
    steps := [step] + more;
    RunOne(s, p, steps);
    assert steps[1..] == more;
  }

  lemma LossEnds(s: System, p: Params, e: ExecId)
    requires s.candidates == {} && e < |s.db.execs| && Active(s.db.execs[e].status)
    requires s.db.execs[e].jobId < |s.db.jobs| && Started(s.db.jobs[s.db.execs[e].jobId].status)
    ensures var s', j := Apply(s, p, DoLose(e)), s.db.execs[e].jobId;
            OnlyJob(s, s', j) && (Terminal(s'.db.jobs[j].status) || s'.db.jobs[j].status == Queued)
  {
  }

  lemma PromoteReleases(s: System, p: Params, j: JobId)
    requires s.candidates == {} && DepsPointBack(s.db) && j < |s.db.jobs| && s.db.jobs[j].status == Blocked
    requires forall k: JobId :: k < j ==> Terminal(s.db.jobs[k].status)
    ensures var s' := Apply(s, p, DoPromote(j));
            OnlyJob(s, s', j) && (Terminal(s'.db.jobs[j].status) || s'.db.jobs[j].status == Queued)
  {
    if !AllDepsCompleted(s.db, j) {
      var d :| d in s.db.deps && d.0 == j && d.1 < |s.db.jobs| && s.db.jobs[d.1].status != Completed;
      assert Terminal(s.db.jobs[d.1].status);
      assert AnyDepFailed(s.db, j);
    }
  }

  /** Any job whose predecessors are finished can be finished. */
  lemma FinishJob(s: System, p: Params, j: JobId) returns (steps: seq<Step>)
    requires s.candidates == {} && AllDriven(s.db) && DepsPointBack(s.db) && j < |s.db.jobs|
    requires forall k: JobId :: k < j ==> Terminal(s.db.jobs[k].status)
    ensures AllUnattended(steps) && Ended(s, Run(s, p, steps), j)
  {
    assert Driven(s.db, j);
    if Terminal(s.db.jobs[j].status) {
      steps := [];
    } else if s.db.jobs[j].status == Queued {
      steps := FinishQueued(s, p, j);
    } else if s.db.jobs[j].status == Blocked {
      PromoteReleases(s, p, j);
      steps := FinishAfter(s, p, DoPromote(j), j);
    } else {
      var e: ExecId :| e < |s.db.execs| && s.db.execs[e].jobId == j && Active(s.db.execs[e].status);
      LossEnds(s, p, e);
      steps := FinishAfter(s, p, DoLose(e), j);
    }
  }

  ghost predicate AllEnded(s: System, n: nat) {
    n <= |s.db.jobs| && forall k: JobId :: k < n ==> Terminal(s.db.jobs[k].status)
  }

  lemma TablesPointBack(db: Db)
    requires Tables(db)
    ensures DepsPointBack(db)
  {
  }

  lemma {:induction false} FinishFirst(s: System, p: Params, n: nat) returns (steps: seq<Step>)
    requires s.candidates == {} && AllDriven(s.db) && Tables(s.db) && n <= |s.db.jobs|
    ensures AllUnattended(steps) && Run(s, p, steps).candidates == {}
    ensures |Run(s, p, steps).db.jobs| == |s.db.jobs| && AllEnded(Run(s, p, steps), n)
  {
    if n == 0 {
      steps := [];
    } else {
      var before := FinishFirst(s, p, n - 1);
      var s1 := Run(s, p, before);
      RunDrives(s, p, before);
      RunKeepsTables(s, p, before);
      TablesPointBack(s1.db);
      var last := FinishJob(s1, p, n - 1);
      RunAppend(s, p, before, last);
      steps := before + last;
    }
  }

  /**
   From every reachable state, however it came about, the scheduler and the workers can bring
   every job to an end without any user.
   */
  lemma EveryJobCanFinish(p: Params, steps: seq<Step>) returns (more: seq<Step>)
    ensures AllUnattended(more)
    ensures var s, s' := Run(INITIAL, p, steps), Run(INITIAL, p, steps + more);
            |s'.db.jobs| == |s.db.jobs| && AllEnded(s', |s.db.jobs|)
  {
    var s := Run(INITIAL, p, steps);
    RunDrives(INITIAL, p, steps);
    RunKeepsTables(INITIAL, p, steps);
    var s1 := Apply(s, p, DoEndRetryStage);
    var rest := FinishFirst(s1, p, |s.db.jobs|);
    more := [DoEndRetryStage] + rest;
    RunOne(s, p, more);
    assert more[1..] == rest;
    RunAppend(INITIAL, p, steps, more);
  }
}
