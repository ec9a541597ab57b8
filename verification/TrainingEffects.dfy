/**
 What each transaction on training jobs does to the rows, said without the functions
 the transactions are built from: which row gets which status, what stays, when a
 request is refused, and which execution and dispatch row are new.
 */
module TrainingEffects {
  import opened Wrappers
  import opened TrainingModel
  import opened TrainingTables

  /** At most job j's row differs. */
  ghost predicate OneRow(db: Db, db': Db, j: JobId) {
    && |db'.jobs| == |db.jobs| && db'.deps == db.deps && db'.now == db.now
    && forall k: JobId :: k < |db.jobs| && k != j ==> db'.jobs[k] == db.jobs[k]
  }

  ghost predicate NothingDispatched(db: Db, db': Db) {
    db'.execs == db.execs && db'.outbox == db.outbox && db'.nextToken == db.nextToken
  }

  /** One waiting execution of j more, with its message, which is due after the delay. */
  ghost predicate Dispatched(before: seq<Execution>, db: Db, db': Db, j: JobId, snapshot: Snapshot, delay: nat) {
    && |db'.execs| == |before| + 1 && db'.execs[..|before|] == before
    && |db'.outbox| == |db.outbox| + 1 && db'.outbox[..|db.outbox|] == db.outbox
    && var x, event := db'.execs[|before|], db'.outbox[|db.outbox|];
       && x.jobId == j && x.status == Assigned && x.snapshot == snapshot
       && event.execId == |before| && event.token == x.token && event.jobId == j && event.attempt == x.attempt
       && event.availableAt == db.now + delay
  }

  /** The last execution's attempt is one above all others of its job. */
  ghost predicate NextAttempt(before: seq<Execution>, x: Execution) {
    && (forall e :: 0 <= e < |before| && before[e].jobId == x.jobId ==> before[e].attempt < x.attempt)
    && (exists e :: 0 <= e < |before| && before[e].jobId == x.jobId && before[e].attempt + 1 == x.attempt)
  }

  /** The snapshot of an execution of j that no other one of j comes after. */
  ghost predicate LatestSnapshot(execs: seq<Execution>, j: JobId, snapshot: Snapshot) {
    exists e :: 0 <= e < |execs| && execs[e].jobId == j && execs[e].snapshot == snapshot
      && forall k :: 0 <= k < |execs| && execs[k].jobId == j ==> execs[k].attempt <= execs[e].attempt
  }

  ghost predicate SomeDependencyOpen(db: Db, j: JobId) {
    exists d: JobId :: d < |db.jobs| && (j, d) in db.deps && db.jobs[d].status != Completed
  }

  lemma OpenIsUnfinished(db: Db, j: JobId)
    ensures SomeDependencyOpen(db, j) <==> !AllDepsCompleted(db, j)
  {
    if !AllDepsCompleted(db, j) {
      var p :| p in db.deps && p.0 == j && p.1 < |db.jobs| && db.jobs[p.1].status != Completed;
      assert (j, p.1) in db.deps;
    }
  }

  // ----- Admission -----------------------------------------------------------------------

  /** The inputs can be trained on now. */
  ghost predicate Usable(config: Config, catalog: Catalog) {
    && config.datasetId in catalog.datasets && catalog.datasets[config.datasetId].ready
    && match config.baseModelId
       case None => catalog.weightsExist
       case Some(m) =>
         && m in catalog.models && catalog.models[m].available
         && catalog.models[m].taskType == catalog.datasets[config.datasetId].taskType
  }

  /** Inputs are admitted exactly if they are usable, with the dataset's task and type; else the first reason is named. */
  lemma AdmittedExactly(config: Config, order: KeyOrder, catalog: Catalog)
    ensures var r := Admit(config, order, catalog);
            && (r.Success? <==> Usable(config, catalog))
            && (r.Success? ==>
                  && r.value.config == config && r.value.order == order
                  && r.value.taskType == catalog.datasets[config.datasetId].taskType
                  && r.value.datasetTypeId == catalog.datasets[config.datasetId].datasetTypeId)
            && (r == Failure(DatasetNotFound) <==> config.datasetId !in catalog.datasets)
            && (r == Failure(DatasetNotReady) <==>
                  config.datasetId in catalog.datasets && !catalog.datasets[config.datasetId].ready)
            && (r == Failure(ModelNotFound) ==> config.baseModelId.Some? && config.baseModelId.value !in catalog.models)
            && (r == Failure(ModelNotAvailable) ==>
                  && config.baseModelId.Some? && config.baseModelId.value in catalog.models
                  && !catalog.models[config.baseModelId.value].available)
            && (r == Failure(TaskMismatch) ==>
                  && config.baseModelId.Some? && config.baseModelId.value in catalog.models
                  && catalog.models[config.baseModelId.value].taskType != catalog.datasets[config.datasetId].taskType)
            && (r == Failure(WeightsNotFound) ==> config.baseModelId.None? && !catalog.weightsExist)
  {
  }

  // ----- Submitting ------------------------------------------------------------------------

  /** The new row: waiting with nothing dispatched while a dependency is open, else queued with attempt 1. */
  ghost predicate Added(db: Db, db': Db, config: Config, snapshot: Snapshot) {
    var id := |db.jobs|;
    && |db'.jobs| == id + 1 && db'.jobs[..id] == db.jobs && db'.now == db.now
    && db'.jobs[id].config == config && db'.jobs[id].snapshot == snapshot
    && db'.jobs[id].failureCode == None && db'.jobs[id].finishedAt == None
    && db'.jobs[id].status == (if SomeDependencyOpen(db', id) then Blocked else Queued)
    && (if db'.jobs[id].status == Blocked then NothingDispatched(db, db')
        else Dispatched(db.execs, db, db', id, snapshot, 0) && db'.execs[|db.execs|].attempt == 1)
  }

  lemma InitialAdds(db: Db, config: Config, snapshot: Snapshot, deps: set<JobId>)
    ensures Added(db, DispatchInitial(Inserted(db, config, snapshot, deps), |db.jobs|, snapshot), config, snapshot)
  {
    var db1 := Inserted(db, config, snapshot, deps);
    var db' := DispatchInitial(db1, |db.jobs|, snapshot);
    OpenIsUnfinished(db1, |db.jobs|);
    assert db1.jobs[..|db.jobs|] == db.jobs;
    assert SomeDependencyOpen(db1, |db.jobs|) || db1.jobs[|db.jobs|].status == Queued;
  }

  /**
   A submission is accepted exactly if the request is valid, its inputs usable, its name free
   and every job it names, its own id apart, exists. It then records exactly the named
   dependencies, and its job waits exactly while one of them is not completed.
   */
  lemma SubmissionsRecordTheirDependencies(db: Db, config: Config, dependsOn: seq<JobId>, catalog: Catalog)
    ensures var r, id := Create(db, config, dependsOn, catalog), |db.jobs|;
            var fine := catalog.requestValid && Usable(config, catalog);
            && (r == Failure(InvalidRequest) <==> !catalog.requestValid)
            && (r == Failure(NameTaken) <==> fine && !catalog.nameFree)
            && (r == Failure(DependencyNotFound) <==>
                  fine && catalog.nameFree && exists d :: d in dependsOn && d != id && d >= |db.jobs|)
            && (r.Success? <==> fine && catalog.nameFree && forall d :: d in dependsOn && d != id ==> d < |db.jobs|)
    ensures Create(db, config, dependsOn, catalog).Success? ==> Recorded(db, config, dependsOn, catalog, Create(db, config, dependsOn, catalog).value)
  {
    AdmittedExactly(config, AsWritten, catalog);
    assert forall d :: d in Wanted(|db.jobs|, dependsOn) <==> d in dependsOn && d != |db.jobs|;
    if Create(db, config, dependsOn, catalog).Success? {
      InitialAdds(db, config, Admit(config, AsWritten, catalog).value, Wanted(|db.jobs|, dependsOn));
    }
  }

  ghost predicate Recorded(db: Db, config: Config, dependsOn: seq<JobId>, catalog: Catalog, db': Db) {
    var id := |db.jobs|;
    && config.datasetId in catalog.datasets
    && Added(db, db', config, Snapshot(config, catalog.datasets[config.datasetId].taskType,
                                       catalog.datasets[config.datasetId].datasetTypeId, AsWritten))
    && (forall q: (JobId, JobId) :: q in db'.deps <==> q in db.deps || (q.0 == id && q.1 in dependsOn && q.1 != id))
  }

  /** In tables whose edges point back, as all reachable ones do: the new job is blocked exactly if a named one is not completed. */
  lemma BlockedByNamedJobsExactly(db: Db, config: Config, dependsOn: seq<JobId>, catalog: Catalog, db': Db)
    requires DepsPointBack(db) && Create(db, config, dependsOn, catalog) == Success(db')
    ensures |db'.jobs| == |db.jobs| + 1
    ensures forall d: JobId :: (|db.jobs|, d) in db'.deps <==> d in dependsOn && d != |db.jobs|
    ensures db'.jobs[|db.jobs|].status == Blocked <==>
              exists d: JobId :: d in dependsOn && d < |db.jobs| && db.jobs[d].status != Completed
  {
    var id := |db.jobs|;
    SubmissionsRecordTheirDependencies(db, config, dependsOn, catalog);
    forall d: JobId
      ensures (id, d) in db'.deps <==> d in dependsOn && d != id
    {
      assert (id, d) in db.deps ==> false;
    }
    if d: JobId :| d in dependsOn && d < id && db.jobs[d].status != Completed {
      assert db'.jobs[..id][d] == db'.jobs[d] && (id, d) in db'.deps;
    }
    if SomeDependencyOpen(db', id) {
      var d: JobId :| d < |db'.jobs| && (id, d) in db'.deps && db'.jobs[d].status != Completed;
      assert d < id && db'.jobs[..id][d] == db.jobs[d];
    }
  }

  /** A clone has its source's configuration and no dependencies, so it is dispatched at once. */
  lemma ClonesAreDispatched(db: Db, source: JobId, catalog: Catalog)
    requires DepsPointBack(db)
    ensures var r := Clone(db, source, catalog);
            && (r == Failure(NotFound) <==> source >= |db.jobs|)
            && (r.Success? <==> source < |db.jobs| && Usable(db.jobs[source].config, catalog) && catalog.nameFree)
            && (r.Success? ==>
                  && r.value.deps == db.deps
                  && Added(db, r.value, db.jobs[source].config, Snapshot(db.jobs[source].config,
                       catalog.datasets[db.jobs[source].config.datasetId].taskType,
                       catalog.datasets[db.jobs[source].config.datasetId].datasetTypeId, AsStored))
                  && r.value.jobs[|db.jobs|].status == Queued)
  {
    var r := Clone(db, source, catalog);
    if source < |db.jobs| {
      var config := db.jobs[source].config;
      AdmittedExactly(config, AsStored, catalog);
      if r.Success? {
        InitialAdds(db, config, Admit(config, AsStored, catalog).value, {});
        assert r.value.deps == db.deps;
        assert !SomeDependencyOpen(r.value, |db.jobs|);
      }
    }
  }

  // ----- Stopping and retrying ---------------------------------------------------------------

  /** What a stop leads to. */
  ghost predicate StopsRow(before: Job, after: Job) {
    match before.status
    case Running => after == before.(status := Stopping)
    case Queued | Preparing | Scheduled | Blocked => after == before.(status := Cancelled)
    case _ => false
  }

  /** Only a missing, finished or stopping job cannot be stopped; otherwise only its status changes. */
  lemma StopsExactly(db: Db, j: JobId)
    ensures var r := RequestStop(db, j);
            && (r.Failure? <==>
                  j >= |db.jobs| || db.jobs[j].status in {Completed, Failed, Cancelled, Stopped, Stopping})
            && (r == Failure(NotFound) <==> j >= |db.jobs|)
            && (r.Success? ==>
                  && OneRow(db, r.value, j) && NothingDispatched(db, r.value) && StopsRow(db.jobs[j], r.value.jobs[j]))
  {
  }

  /** The row of a retried job: failure and end forgotten, its snapshot new. */
  ghost predicate Reopened(before: Job, after: Job, snapshot: Snapshot, open: bool) {
    && after.status == (if open then Blocked else Queued)
    && after.config == before.config && after.snapshot == snapshot
    && after.failureCode == None && after.finishedAt == None
  }

  /** A retry takes a finished job that has an execution, and either blocks it or dispatches its next attempt. */
  lemma RetriesReopen(db: Db, j: JobId, catalog: Catalog)
    ensures var r := UserRetry(db, j, catalog);
            && (r == Failure(NotFound) <==> j >= |db.jobs|)
            && (r == Failure(NotRetryable) <==>
                  j < |db.jobs| && db.jobs[j].status !in {Completed, Failed, Cancelled, Stopped})
            && (r.Success? <==>
                  && j < |db.jobs| && db.jobs[j].status in {Completed, Failed, Cancelled, Stopped}
                  && Usable(db.jobs[j].config, catalog)
                  && exists e :: 0 <= e < |db.execs| && db.execs[e].jobId == j)
    ensures UserRetry(db, j, catalog).Success? ==> Restarted(db, j, catalog, UserRetry(db, j, catalog).value)
  {
    if j < |db.jobs| {
      AdmittedExactly(db.jobs[j].config, AsStored, catalog);
      OpenIsUnfinished(db, j);
      if UserRetry(db, j, catalog).Success? {
        RestartWith(db, j, Admit(db.jobs[j].config, AsStored, catalog).value, UserRetry(db, j, catalog).value);
      }
    }
  }

  ghost predicate Restarted(db: Db, j: JobId, catalog: Catalog, db': Db) {
    && j < |db.jobs| && db.jobs[j].config.datasetId in catalog.datasets
    && var data := catalog.datasets[db.jobs[j].config.datasetId];
       RestartedAs(db, j, Snapshot(db.jobs[j].config, data.taskType, data.datasetTypeId, AsStored), db')
  }

  ghost predicate RestartedAs(db: Db, j: JobId, snapshot: Snapshot, db': Db) {
    && j < |db.jobs| && OneRow(db, db', j) && Reopened(db.jobs[j], db'.jobs[j], snapshot, SomeDependencyOpen(db, j))
    && (if SomeDependencyOpen(db, j) then NothingDispatched(db, db')
        else Dispatched(db.execs, db, db', j, snapshot, 0) && NextAttempt(db.execs, db'.execs[|db.execs|]))
  }

  lemma RestartWith(db: Db, j: JobId, snapshot: Snapshot, db': Db)
    requires j < |db.jobs| && RetryWith(db, j, snapshot) == Success(db')
    ensures RestartedAs(db, j, snapshot, db')
  {
    OpenIsUnfinished(db, j);
  }

  // ----- The scheduler -----------------------------------------------------------------------

  /** The row of a job the scheduler queues again. */
  ghost predicate QueuedAgain(before: Job, after: Job) {
    && after.status == Queued && after.config == before.config && after.snapshot == before.snapshot
    && after.failureCode == None && after.finishedAt == None
  }

  /** A new attempt with the configuration of the latest one, delayed by its backoff. */
  ghost predicate Retried(before: seq<Execution>, db: Db, p: Params, j: JobId, db': Db) {
    && |db'.execs| == |before| + 1
    && var x := db'.execs[|before|];
       Dispatched(before, db, db', j, x.snapshot, BackoffS(p, x.attempt)) && NextAttempt(before, x) && LatestSnapshot(before, j, x.snapshot)
  }

  /** The delay doubles from its base with every attempt after the second, up to 30 seconds below the timeout, or 5. */
  lemma BackoffIs(p: Params, n: nat)
    ensures var cap := if p.staleTimeoutS - 30 > 5 then p.staleTimeoutS - 30 else 5;
            BackoffS(p, n + 2) == if p.backoffBaseS * Pow2(n) <= cap then p.backoffBaseS * Pow2(n) else cap
    ensures Pow2(0) == 1 && Pow2(n + 1) == 2 * Pow2(n)
  {
  }

  /** What losing an active execution does to its job. */
  ghost predicate LossMoves(db: Db, p: Params, e: ExecId, db': Db)
    requires e < |db.execs| && db.execs[e].jobId < |db.jobs|
  {
    var j, lost := db.execs[e].jobId, db.execs[e := db.execs[e].(status := Lost)];
    var before := db.jobs[j];
    && OneRow(db, db', j)
    && if before.status == Stopping then
         db'.execs == lost && db'.outbox == db.outbox && db'.jobs[j] == before.(status := Stopped, finishedAt := Some(db.now))
       else if before.status in {Completed, Failed, Cancelled, Stopped} then
         db'.execs == lost && db'.outbox == db.outbox && db'.jobs[j] == before
       else if db.execs[e].attempt >= p.maxAttempts then
         && db'.execs == lost && db'.outbox == db.outbox
         && db'.jobs[j] == before.(status := Failed, failureCode := Some("EXECUTION_LOST"), finishedAt := Some(db.now))
       else QueuedAgain(before, db'.jobs[j]) && Retried(lost, db, p, j, db')
  }

  lemma LossesMoveTheirJob(db: Db, p: Params, e: ExecId)
    requires e < |db.execs| ==> db.execs[e].jobId < |db.jobs|
    ensures if e < |db.execs| && db.execs[e].status in {Claimed, ExecPreparing, ExecRunning}
            then LossMoves(db, p, e, Lose(db, p, e)) else Lose(db, p, e) == db
  {
    if e < |db.execs| && Active(db.execs[e].status) {
      var lost := PutExec(db, e, Lost);
      assert lost.execs[e].jobId == db.execs[e].jobId;
    }
  }

  /** The error-retry stage considers exactly the jobs that failed with one of four codes within the window. */
  lemma CandidatesAre(s: System, p: Params, j: JobId)
    requires s.candidates == {}
    ensures j in Apply(s, p, DoSelectFailed).candidates <==>
              && j < |s.db.jobs| && s.db.jobs[j].status == Failed
              && s.db.jobs[j].failureCode.Some?
              && s.db.jobs[j].failureCode.value in
                   ["STORAGE_TEMPORARY_FAILURE", "DATABASE_CONNECTION_FAILURE", "NETWORK_TIMEOUT", "REDIS_TIMEOUT"]
              && s.db.jobs[j].finishedAt.Some? && s.db.now < s.db.jobs[j].finishedAt.value + p.windowS
  {
  }

  /** A candidate is queued again exactly if it is still failed and some attempt, but not the last one, was made. */
  lemma ErrorRetriesRequeue(db: Db, p: Params, j: JobId)
    ensures if && j < |db.jobs| && db.jobs[j].status == Failed
               && (exists e :: 0 <= e < |db.execs| && db.execs[e].jobId == j)
               && (forall e :: 0 <= e < |db.execs| && db.execs[e].jobId == j ==> db.execs[e].attempt < p.maxAttempts)
            then OneRow(db, RetryFailed(db, p, j), j) && QueuedAgain(db.jobs[j], RetryFailed(db, p, j).jobs[j])
                 && Retried(db.execs, db, p, j, RetryFailed(db, p, j))
            else RetryFailed(db, p, j) == db
  {
  }

  ghost predicate SomeDependencyFailed(db: Db, j: JobId) {
    exists d: JobId :: d < |db.jobs| && (j, d) in db.deps && db.jobs[d].status in {Failed, Cancelled, Stopped}
  }

  /** A blocked job fails with a dependency, is queued once all are completed, and stays otherwise. */
  ghost predicate PromoteMoves(db: Db, j: JobId, db': Db)
    requires j < |db.jobs|
  {
    && OneRow(db, db', j)
    && if SomeDependencyFailed(db, j) then
         && NothingDispatched(db, db')
         && db'.jobs[j] == db.jobs[j].(status := Failed, failureCode := Some("DEPENDENCY_FAILED"), finishedAt := Some(db.now))
       else if SomeDependencyOpen(db, j) then db' == db
       else
         && db'.jobs[j].status == Queued && db'.jobs[j] == db.jobs[j].(status := Queued, queuedWrites := db'.jobs[j].queuedWrites)
         && Dispatched(db.execs, db, db', j, db.jobs[j].snapshot, 0)
         && (NextAttempt(db.execs, db'.execs[|db.execs|]) || db'.execs[|db.execs|].attempt == 1)
  }

  lemma PromotionsMoveBlockedJobs(db: Db, j: JobId)
    ensures if j < |db.jobs| && db.jobs[j].status == Blocked then PromoteMoves(db, j, Promote(db, j)) else Promote(db, j) == db
  {
    OpenIsUnfinished(db, j);
    if AnyDepFailed(db, j) {
      var p :| p in db.deps && p.0 == j && p.1 < |db.jobs| &&
        (db.jobs[p.1].status == Failed || db.jobs[p.1].status == Cancelled || db.jobs[p.1].status == Stopped);
      assert (j, p.1) in db.deps;
    }
  }

  // ----- The workers ---------------------------------------------------------------------------

  /** Execution e, its job and nothing else; its message is not sent again. */
  ghost predicate OwnRows(db: Db, db': Db, e: ExecId, status: ExecStatus)
    requires e < |db.execs|
  {
    && OneRow(db, db', db.execs[e].jobId) && db'.outbox == db.outbox && db'.nextToken == db.nextToken
    && db'.execs == db.execs[e := db.execs[e].(status := status)]
  }

  /** A message is taken with the execution's own token; a job no longer queued cancels its execution instead. */
  lemma ClaimsExactly(s: System, p: Params, e: ExecId, token: nat)
    requires e < |s.db.execs| ==> s.db.execs[e].jobId < |s.db.jobs|
    ensures var s' := Apply(s, p, DoClaim(e, token));
            if e < |s.db.execs| && s.db.execs[e].token == token && s.db.execs[e].status == Assigned then
              var job := s.db.jobs[s.db.execs[e].jobId];
              if job.status == Queued then
                && OwnRows(s.db, s'.db, e, ExecRunning) && s'.alive == s.alive + {e}
                && s'.db.jobs[s.db.execs[e].jobId] == job.(status := Preparing)
              else OwnRows(s.db, s'.db, e, ExecCancelled) && s'.db.jobs == s.db.jobs && s'.alive == s.alive
            else s' == s
  {
  }

  /** Failing an execution fails its job, unless that was completed, cancelled or stopped meanwhile. */
  ghost predicate FailsOwn(db: Db, db': Db, e: ExecId, code: string)
    requires e < |db.execs| && db.execs[e].jobId < |db.jobs|
  {
    var job := db.jobs[db.execs[e].jobId];
    && OwnRows(db, db', e, ExecFailed)
    && db'.jobs[db.execs[e].jobId] ==
         if job.status in {Completed, Cancelled, Stopped} then job
         else job.(status := Failed, failureCode := Some(code), finishedAt := Some(db.now))
  }

  /** Starting, completing and stopping need the status that comes before; without it start and completion fail, a stop does nothing. */
  lemma WorkersMoveTheirJob(s: System, p: Params, e: ExecId, code: string)
    requires Held(s, e)
    ensures var db, j := s.db, s.db.execs[e].jobId;
            var job := db.jobs[j];
            var started, completed := Apply(s, p, DoStart(e)).db, Apply(s, p, DoComplete(e)).db;
            var failed, stopped := Apply(s, p, DoFail(e, code)).db, Apply(s, p, DoStopped(e)).db;
            && (if job.status == Preparing then
                  OneRow(db, started, j) && NothingDispatched(db, started) && started.jobs[j] == job.(status := Running)
                else FailsOwn(db, started, e, "TRAINING_STATE_LOST"))
            && (if job.status == Running then
                  && OwnRows(db, completed, e, Succeeded)
                  && completed.jobs[j] == job.(status := Completed, finishedAt := Some(db.now))
                else FailsOwn(db, completed, e, "TRAINING_STATE_LOST"))
            && FailsOwn(db, failed, e, code)
            && (if job.status == Stopping then
                  OwnRows(db, stopped, e, ExecStopped) && stopped.jobs[j] == job.(status := Stopped, finishedAt := Some(db.now))
                else stopped == db)
  {
  }
}
