/**
 What an automatic retry records: it copies configuration and hash of the latest
 execution. The configuration is always the job's own. The hash is taken over the key
 order of the hyperparameters, which a user's retry changes; so it can be an older one if
 such a retry blocked the job.
 */
module TrainingSnapshots {
  import opened Wrappers
  import opened TrainingModel
  import opened StringOrder
  import opened TrainingTables
  import opened TrainingTransitions

  /** The job was restamped after its latest execution was created. */
  predicate Behind(db: Db, j: JobId) {
    && j < |db.jobs|
    && Latest(db.execs, j).Some?
    && db.execs[Latest(db.execs, j).value].snapshot != db.jobs[j].snapshot
  }

  /** No execution of j is active and no worker process is still working on one. */
  ghost predicate Idle(s: System, j: JobId) {
    forall e :: 0 <= e < |s.db.execs| && s.db.execs[e].jobId == j ==> !Active(s.db.execs[e].status) && e !in s.alive
  }

  ghost predicate Guarded(s: System) {
    forall j: JobId :: Behind(s.db, j) ==>
      && Idle(s, j)
      && match s.db.jobs[j].status
         case Blocked | Cancelled => true
         case Failed => s.db.jobs[j].failureCode == Some(DEPENDENCY_FAILED) && j !in s.candidates
         case _ => false
  }

  /** A user retry blocks a job only when nothing of its earlier attempts is in progress. */
  ghost predicate Calm(s: System, step: Step) {
    step.DoUserRetry? && UserRetry(s.db, step.job, step.catalog).Success? && !AllDepsCompleted(s.db, step.job) ==>
      Idle(s, step.job)
  }

  ghost predicate CalmRun(s: System, p: Params, steps: seq<Step>)
    decreases |steps|
  {
    steps == [] || (Calm(s, steps[0]) && CalmRun(Apply(s, p, steps[0]), p, steps[1..]))
  }

  // ----- The two key orders ------------------------------------------------------

  /** How `jsonb` orders object keys: shorter ones first. */
  predicate StoredBefore(a: string, b: string) {
    |a| < |b| || (|a| == |b| && Less(a, b))
  }

  /** A submission puts `epochs`, `imgsz` and `batch` first; the database never gives keys back like that. */
  lemma WrittenIsNotStored(written: seq<string>, stored: seq<string>)
    requires ["epochs", "imgsz", "batch"] <= written && forall k :: k in written ==> k in stored
    requires forall i, k :: 0 <= i < k < |stored| ==> StoredBefore(stored[i], stored[k])
    ensures stored != [] && written[0] != stored[0]
  {
    assert written[..3] == ["epochs", "imgsz", "batch"];
    assert written[0] == "epochs" && written[2] == "batch" && written[2] in written;
    var i :| 0 <= i < |stored| && stored[i] == written[2];
    assert i == 0 || StoredBefore(stored[0], stored[i]);
  }

  // ----- The configuration ---------------------------------------------------------

  /** Task and type of each dataset. Nothing in the system changes them once the dataset exists. */
  type Types = map<nat, (string, nat)>

  predicate AgreesWith(types: Types, catalog: Catalog) {
    forall d :: d in catalog.datasets ==>
      d in types && types[d] == (catalog.datasets[d].taskType, catalog.datasets[d].datasetTypeId)
  }

  predicate Stable(types: Types, step: Step) {
    step.DoCreate? || step.DoClone? || step.DoUserRetry? ==> AgreesWith(types, step.catalog)
  }

  /** The snapshot of a configuration, in either key order. */
  predicate Describes(types: Types, snapshot: Snapshot, config: Config) {
    && snapshot.config == config && config.datasetId in types
    && (snapshot.taskType, snapshot.datasetTypeId) == types[config.datasetId]
  }

  ghost predicate Described(types: Types, db: Db) {
    && (forall k: JobId :: k < |db.jobs| ==> Describes(types, db.jobs[k].snapshot, db.jobs[k].config))
    && forall i: ExecId :: i < |db.execs| ==>
         db.execs[i].jobId < |db.jobs| && Describes(types, db.execs[i].snapshot, db.jobs[db.execs[i].jobId].config)
  }

  lemma AdmitDescribes(types: Types, config: Config, order: KeyOrder, catalog: Catalog)
    requires AgreesWith(types, catalog) && Admit(config, order, catalog).Success?
    ensures Describes(types, Admit(config, order, catalog).value, config)
    ensures Admit(config, order, catalog).value.order == order
  {
  }

  lemma PutJobDescribed(types: Types, db: Db, j: JobId, job: Job)
    requires Described(types, db) && j < |db.jobs| && job.config == db.jobs[j].config && Describes(types, job.snapshot, job.config)
    ensures Described(types, PutJob(db, j, job))
  {
  }

  lemma DispatchDescribed(types: Types, db: Db, j: JobId, attempt: nat, snapshot: Snapshot, origin: Origin, delay: nat)
    requires Described(types, db) && j < |db.jobs| && Describes(types, snapshot, db.jobs[j].config)
    ensures Described(types, Dispatch(db, j, attempt, snapshot, origin, delay))
  {
  }

  lemma SubmitDescribed(types: Types, db: Db, config: Config, snapshot: Snapshot, deps: set<JobId>)
    requires Described(types, db) && Describes(types, snapshot, config)
    ensures Described(types, DispatchInitial(Inserted(db, config, snapshot, deps), |db.jobs|, snapshot))
  {
    var j, ins := |db.jobs|, Inserted(db, config, snapshot, deps);
    assert Described(types, ins);
    var job := ins.jobs[j].(snapshot := snapshot);
    PutJobDescribed(types, ins, j, job.(status := Blocked));
    var queued := PutJob(ins, j, job.(status := Queued, queuedWrites := job.queuedWrites + 1));
    PutJobDescribed(types, ins, j, job.(status := Queued, queuedWrites := job.queuedWrites + 1));
    DispatchDescribed(types, queued, j, 1, snapshot, Submitted, 0);
  }

  lemma UserRetryDescribed(types: Types, db: Db, j: JobId, catalog: Catalog)
    requires Described(types, db) && AgreesWith(types, catalog)
    ensures Described(types, Committed(db, UserRetry(db, j, catalog)))
  {
    if UserRetry(db, j, catalog).Success? {
      AdmitDescribes(types, db.jobs[j].config, AsStored, catalog);
      var snapshot := Admit(db.jobs[j].config, AsStored, catalog).value;
      var job := db.jobs[j].(failureCode := None, finishedAt := None, snapshot := snapshot);
      var queued := job.(status := Queued, queuedWrites := job.queuedWrites + 1);
      PutJobDescribed(types, db, j, job.(status := Blocked));
      PutJobDescribed(types, db, j, queued);
      DispatchDescribed(types, PutJob(db, j, queued), j, MaxAttempt(db.execs, j) + 1, snapshot, UserRetried, 0);
    }
  }

  lemma DispatchRetryDescribed(types: Types, db: Db, p: Params, j: JobId, origin: Origin)
    requires Described(types, db) && j < |db.jobs| && Latest(db.execs, j).Some?
    ensures Described(types, DispatchRetry(PutJob(db, j, Requeued(db.jobs[j])), p, j, origin))
  {
    var latest := db.execs[Latest(db.execs, j).value];
    PutJobDescribed(types, db, j, Requeued(db.jobs[j]));
    DispatchDescribed(types, PutJob(db, j, Requeued(db.jobs[j])), j, latest.attempt + 1, latest.snapshot, origin,
                      BackoffS(p, latest.attempt + 1));
  }

  lemma LoseDescribed(types: Types, db: Db, p: Params, e: ExecId)
    requires Described(types, db)
    ensures Described(types, Lose(db, p, e))
  {
    if e < |db.execs| && Active(db.execs[e].status) {
      var lost := PutExec(db, e, Lost);
      var j := db.execs[e].jobId;
      assert Described(types, lost);
      assert lost.execs[e].jobId == j;
      DispatchRetryDescribed(types, lost, p, j, LossRetry(e));
    }
  }

  lemma PromoteDescribed(types: Types, db: Db, j: JobId)
    requires Described(types, db)
    ensures Described(types, Promote(db, j))
  {
    if j < |db.jobs| && db.jobs[j].status == Blocked {
      var queued := db.jobs[j].(status := Queued, queuedWrites := db.jobs[j].queuedWrites + 1);
      PutJobDescribed(types, db, j, queued);
      DispatchDescribed(types, PutJob(db, j, queued), j, MaxAttempt(db.execs, j) + 1, queued.snapshot, Unblocked, 0);
    }
  }

  lemma PutBothDescribed(types: Types, db: Db, e: ExecId, status: ExecStatus, job: Job)
    requires Described(types, db) && e < |db.execs|
    requires job.config == db.jobs[db.execs[e].jobId].config && job.snapshot == db.jobs[db.execs[e].jobId].snapshot
    ensures Described(types, PutJob(PutExec(db, e, status), db.execs[e].jobId, job))
  {
    PutJobDescribed(types, db, db.execs[e].jobId, job);
  }

  lemma ClaimDescribed(types: Types, db: Db, e: ExecId)
    requires Described(types, db) && e < |db.execs|
    ensures Described(types, Claim(db, e))
  {
    var job := db.jobs[db.execs[e].jobId];
    PutBothDescribed(types, db, e, ExecRunning, job.(status := Preparing));
    PutBothDescribed(types, db, e, ExecCancelled, job);
  }

  lemma FailDescribed(types: Types, db: Db, e: ExecId, code: string)
    requires Described(types, db) && e < |db.execs|
    ensures Described(types, WorkerFail(db, e, code))
  {
    var job := db.jobs[db.execs[e].jobId];
    PutBothDescribed(types, db, e, ExecFailed, job);
    PutBothDescribed(types, db, e, ExecFailed, job.(status := Failed, failureCode := Some(code), finishedAt := Some(db.now)));
  }

  lemma WorkerDescribed(types: Types, s: System, p: Params, step: Step)
    requires Described(types, s.db) && WorkerStep(step) && Held(s, step.exec)
    ensures Described(types, Apply(s, p, step).db)
  {
    var db, e := s.db, step.exec;
    var job := db.jobs[db.execs[e].jobId];
    match step
    case DoStart(_) =>
      FailDescribed(types, db, e, TRAINING_STATE_LOST);
      PutJobDescribed(types, db, db.execs[e].jobId, job.(status := Running));
    case DoComplete(_) =>
      FailDescribed(types, db, e, TRAINING_STATE_LOST);
      PutBothDescribed(types, db, e, Succeeded, job.(status := Completed, finishedAt := Some(db.now)));
    case DoFail(_, code) => FailDescribed(types, db, e, code);
    case DoStopped(_) => PutBothDescribed(types, db, e, ExecStopped, job.(status := Stopped, finishedAt := Some(db.now)));
  }

  lemma ApiDescribed(types: Types, s: System, p: Params, step: Step)
    requires Described(types, s.db) && Stable(types, step)
    requires step.DoCreate? || step.DoClone? || step.DoUserRetry? || step.DoRequestStop?
    ensures Described(types, Apply(s, p, step).db)
  {
    match step
    case DoCreate(config, dependsOn, catalog) =>
      if Create(s.db, config, dependsOn, catalog).Success? {
        AdmitDescribes(types, config, AsWritten, catalog);
        SubmitDescribed(types, s.db, config, Admit(config, AsWritten, catalog).value, Wanted(|s.db.jobs|, dependsOn));
      }
    case DoClone(source, catalog) =>
      if Clone(s.db, source, catalog).Success? {
        AdmitDescribes(types, s.db.jobs[source].config, AsStored, catalog);
        SubmitDescribed(types, s.db, s.db.jobs[source].config, Admit(s.db.jobs[source].config, AsStored, catalog).value, {});
      }
    case DoUserRetry(j, catalog) => UserRetryDescribed(types, s.db, j, catalog);
    case DoRequestStop(j) =>
  }

  lemma SchedulerDescribed(types: Types, s: System, p: Params, step: Step)
    requires Described(types, s.db) && (step.DoLose? || step.DoRetryFailed? || step.DoPromote?)
    ensures Described(types, Apply(s, p, step).db)
  {
    match step
    case DoLose(e) => LoseDescribed(types, s.db, p, e);
    case DoRetryFailed(j) =>
      if j < |s.db.jobs| && Latest(s.db.execs, j).Some? { DispatchRetryDescribed(types, s.db, p, j, ErrorRetry); }
    case DoPromote(j) => PromoteDescribed(types, s.db, j);
  }

  lemma ClaimStepDescribed(types: Types, s: System, p: Params, e: ExecId, token: nat)
    requires Described(types, s.db)
    ensures Described(types, Apply(s, p, DoClaim(e, token)).db)
  {
    if Claimable(s.db, e, token) {
      ClaimDescribed(types, s.db, e);
    }
  }

  lemma StepDescribed(types: Types, s: System, p: Params, step: Step)
    requires Described(types, s.db) && Stable(types, step)
    ensures Described(types, Apply(s, p, step).db)
  {
    if step.DoCreate? || step.DoClone? || step.DoUserRetry? || step.DoRequestStop? {
      ApiDescribed(types, s, p, step);
    } else if step.DoLose? || step.DoRetryFailed? || step.DoPromote? {
      SchedulerDescribed(types, s, p, step);
    } else if step.DoClaim? {
      ClaimStepDescribed(types, s, p, step.exec, step.token);
    } else if WorkerStep(step) && Held(s, step.exec) {
      WorkerDescribed(types, s, p, step);
    }
  }

  lemma {:induction false} RunDescribed(types: Types, s: System, p: Params, steps: seq<Step>)
    requires Described(types, s.db) && forall i :: 0 <= i < |steps| ==> Stable(types, steps[i])
    ensures Described(types, Run(s, p, steps).db)
    decreases |steps|
  {
    if steps != [] {
      StepDescribed(types, s, p, steps[0]);
      RunDescribed(types, Apply(s, p, steps[0]), p, steps[1..]);
    }
  }

  /**
   In every run, with any retries, losses and lingering workers, each execution carries its
   own job's configuration.
   */
  lemma ConfigurationNeverDrifts(types: Types, p: Params, steps: seq<Step>, e: ExecId)
    requires forall i :: 0 <= i < |steps| ==> Stable(types, steps[i])
    requires e < |Run(INITIAL, p, steps).db.execs|
    ensures var db := Run(INITIAL, p, steps).db;
            && db.execs[e].jobId < |db.jobs|
            && Configuration(db.execs[e].snapshot) == Configuration(db.jobs[db.execs[e].jobId].snapshot)
  {
    RunDescribed(types, INITIAL, p, steps);
  }

  // ----- How each kind of change affects Behind ---------------------------------

  lemma LatestAppend(xs: seq<Execution>, x: Execution, j: JobId)
    ensures x.jobId != j ==> Latest(xs + [x], j) == Latest(xs, j)
    ensures x.jobId == j && x.attempt > MaxAttempt(xs, j) ==> Latest(xs + [x], j) == Some(|xs|)
  {
    assert (xs + [x])[..|xs|] == xs;
  }

  /** A new execution with the job's own snapshot brings the job up to date and leaves the others alone. */
  lemma DispatchBehind(db: Db, j: JobId, job: Job, attempt: nat, snapshot: Snapshot, origin: Origin, delay: nat, k: JobId)
    requires j < |db.jobs| && attempt > MaxAttempt(db.execs, j) && snapshot == job.snapshot
    ensures Behind(Dispatch(PutJob(db, j, job), j, attempt, snapshot, origin, delay), k) <==> k != j && Behind(db, k)
  {
    var db' := Dispatch(PutJob(db, j, job), j, attempt, snapshot, origin, delay);
    LatestAppend(db.execs, db'.execs[|db.execs|], k);
  }

  lemma PutExecBehind(db: Db, e: ExecId, status: ExecStatus, k: JobId)
    requires e < |db.execs|
    ensures Behind(PutExec(db, e, status), k) <==> Behind(db, k)
  {
    LatestIgnoresStatus(db.execs, PutExec(db, e, status).execs, k);
  }

  // ----- Every step -------------------------------------------------------------

  lemma SubmitGuarded(s: System, config: Config, snapshot: Snapshot, deps: set<JobId>)
    requires Guarded(s)
    requires forall i :: 0 <= i < |s.db.execs| ==> s.db.execs[i].jobId < |s.db.jobs|
    ensures Guarded(s.(db := DispatchInitial(Inserted(s.db, config, snapshot, deps), |s.db.jobs|, snapshot)))
  {
    var n := |s.db.jobs|;
    var ins := Inserted(s.db, config, snapshot, deps);
    var s' := s.(db := DispatchInitial(ins, n, snapshot));
    assert Latest(ins.execs, n).None?;
    forall k: JobId | Behind(s'.db, k)
      ensures Behind(s.db, k) && s'.db.jobs[k] == s.db.jobs[k] && Idle(s', k)
    {
      if AllDepsCompleted(ins, n) {
        var job := ins.jobs[n].(snapshot := snapshot, status := Queued, queuedWrites := ins.jobs[n].queuedWrites + 1);
        DispatchBehind(ins, n, job, 1, snapshot, Submitted, 0, k);
      }
      assert k != n;
      assert Behind(s.db, k);
      assert Idle(s, k);
      forall e | 0 <= e < |s'.db.execs| && s'.db.execs[e].jobId == k
        ensures !Active(s'.db.execs[e].status) && e !in s'.alive
      {
        assert e < |s.db.execs| && s'.db.execs[e] == s.db.execs[e];
      }
    }
  }

  lemma UserRetryGuarded(s: System, j: JobId, catalog: Catalog)
    requires Guarded(s) && Calm(s, DoUserRetry(j, catalog))
    ensures Guarded(s.(db := Committed(s.db, UserRetry(s.db, j, catalog))))
  {
    if UserRetry(s.db, j, catalog).Success? {
      var s' := s.(db := UserRetry(s.db, j, catalog).value);
      var snapshot := Admit(s.db.jobs[j].config, AsStored, catalog).value;
      var job := s.db.jobs[j].(failureCode := None, finishedAt := None, snapshot := snapshot);
      if AllDepsCompleted(s.db, j) {
        forall k: JobId | Behind(s'.db, k)
          ensures k != j && Behind(s.db, k)
        {
          DispatchBehind(s.db, j, job.(status := Queued, queuedWrites := job.queuedWrites + 1),
                         MaxAttempt(s.db.execs, j) + 1, snapshot, UserRetried, 0, k);
        }
        OthersStayIdle(s, s', j);
      } else {
        forall k: JobId | Behind(s'.db, k)
          ensures Idle(s', k)
        {
          assert k == j || Behind(s.db, k);
          assert Idle(s, k);
        }
      }
    }
  }

  /** A dispatch for j gives no other job an active execution. */
  lemma OthersStayIdle(s: System, s': System, j: JobId)
    requires s'.alive == s.alive && |s'.db.execs| == |s.db.execs| + 1 && s'.db.execs[|s.db.execs|].jobId == j
    requires forall e :: 0 <= e < |s.db.execs| ==>
               s'.db.execs[e].jobId == s.db.execs[e].jobId && (Active(s'.db.execs[e].status) ==> Active(s.db.execs[e].status))
    ensures forall k: JobId :: k != j && Idle(s, k) ==> Idle(s', k)
  {
  }

  /** After a loss the job is up to date if it was, and the other jobs are as before. */
  lemma LoseBehind(db: Db, p: Params, e: ExecId, k: JobId)
    requires e < |db.execs| && Active(db.execs[e].status) && db.execs[e].jobId < |db.jobs|
    requires !Behind(db, db.execs[e].jobId)
    ensures Behind(Lose(db, p, e), k) ==> k != db.execs[e].jobId && Behind(db, k)
    ensures var db' := Lose(db, p, e);
            |db'.execs| > |db.execs| ==>
              && db'.execs[|db.execs|].jobId == db.execs[e].jobId
              && db'.execs[|db.execs|].snapshot == db'.jobs[db.execs[e].jobId].snapshot
  {
    var j := db.execs[e].jobId;
    var lost := PutExec(db, e, Lost);
    assert lost.execs[e].jobId == j;
    PutExecBehind(db, e, Lost, k);
    PutExecBehind(db, e, Lost, j);
    if |Lose(db, p, e).execs| > |db.execs| {
      var latest := lost.execs[Latest(lost.execs, j).value];
      DispatchBehind(lost, j, Requeued(db.jobs[j]), latest.attempt + 1, latest.snapshot, LossRetry(e), BackoffS(p, latest.attempt + 1), k);
    }
  }

  /** A loss marks one execution, changes its job at most, and adds at most one execution, which is unclaimed. */
  lemma LoseLeaves(db: Db, p: Params, e: ExecId)
    requires e < |db.execs| && Active(db.execs[e].status) && db.execs[e].jobId < |db.jobs|
    ensures var db' := Lose(db, p, e);
            && |db'.jobs| == |db.jobs| && |db.execs| <= |db'.execs|
            && (forall k :: 0 <= k < |db.jobs| && k != db.execs[e].jobId ==> db'.jobs[k] == db.jobs[k])
            && (forall i :: 0 <= i < |db.execs| ==>
                  db'.execs[i].jobId == db.execs[i].jobId && (Active(db'.execs[i].status) ==> Active(db.execs[i].status)))
            && (forall i :: |db.execs| <= i < |db'.execs| ==> db'.execs[i].jobId == db.execs[e].jobId)
  {
  }

  lemma LoseGuarded(s: System, p: Params, e: ExecId)
    requires Guarded(s) && forall i :: 0 <= i < |s.db.execs| ==> s.db.execs[i].jobId < |s.db.jobs|
    ensures Guarded(s.(db := Lose(s.db, p, e)))
    ensures var db' := Lose(s.db, p, e);
            |db'.execs| > |s.db.execs| ==> db'.execs[|s.db.execs|].snapshot == db'.jobs[db'.execs[|s.db.execs|].jobId].snapshot
  {
    if e < |s.db.execs| && Active(s.db.execs[e].status) {
      var j := s.db.execs[e].jobId;
      var s' := s.(db := Lose(s.db, p, e));
      assert !Idle(s, j);
      LoseBehind(s.db, p, e, j);
      LoseLeaves(s.db, p, e);
      forall k: JobId | Behind(s'.db, k)
        ensures Behind(s.db, k) && Idle(s', k) && s'.db.jobs[k] == s.db.jobs[k]
      {
        LoseBehind(s.db, p, e, k);
        assert Idle(s, k);
      }
    }
  }

  lemma RetryFailedGuarded(s: System, p: Params, j: JobId)
    requires Guarded(s) && j in s.candidates
    ensures Guarded(s.(db := RetryFailed(s.db, p, j), candidates := s.candidates - {j}))
    ensures var db' := RetryFailed(s.db, p, j);
            |db'.execs| > |s.db.execs| ==> db'.execs[|s.db.execs|].snapshot == db'.jobs[db'.execs[|s.db.execs|].jobId].snapshot
  {
    var db' := RetryFailed(s.db, p, j);
    var s' := s.(db := db', candidates := s.candidates - {j});
    if db' != s.db {
      assert !Behind(s.db, j);
      var latest := s.db.execs[Latest(s.db.execs, j).value];
      forall k: JobId | Behind(db', k)
        ensures k != j && Behind(s.db, k)
      {
        DispatchBehind(s.db, j, Requeued(s.db.jobs[j]), latest.attempt + 1, latest.snapshot, ErrorRetry, BackoffS(p, latest.attempt + 1), k);
      }
      OthersStayIdle(s, s.(db := db'), j);
      forall k: JobId | Behind(db', k)
        ensures Idle(s', k)
      {
        assert Idle(s.(db := db'), k);
      }
    } else {
      forall k: JobId | Behind(db', k)
        ensures Idle(s', k)
      {
        assert Idle(s, k);
      }
    }
  }

  lemma PromoteGuarded(s: System, j: JobId)
    requires Guarded(s) && s.candidates == {}
    ensures Guarded(s.(db := Promote(s.db, j)))
  {
    var s' := s.(db := Promote(s.db, j));
    if s' != s {
      if AnyDepFailed(s.db, j) {
        forall k: JobId | Behind(s'.db, k)
          ensures Idle(s', k) && Behind(s.db, k)
        {
          assert Behind(s.db, k) && Idle(s, k);
        }
      } else {
        var job := s.db.jobs[j];
        forall k: JobId | Behind(s'.db, k)
          ensures k != j && Behind(s.db, k)
        {
          DispatchBehind(s.db, j, job.(status := Queued, queuedWrites := job.queuedWrites + 1),
                         MaxAttempt(s.db.execs, j) + 1, job.snapshot, Unblocked, 0, k);
        }
        OthersStayIdle(s, s', j);
      }
    }
  }

  lemma ClaimGuarded(s: System, p: Params, e: ExecId, token: nat)
    requires Guarded(s)
    ensures Guarded(Apply(s, p, DoClaim(e, token)))
  {
    if Claimable(s.db, e, token) {
      var s' := Apply(s, p, DoClaim(e, token));
      forall k: JobId | Behind(s'.db, k)
        ensures Behind(s.db, k) && Idle(s', k) && s'.db.jobs[k] == s.db.jobs[k]
      {
        PutExecBehind(s.db, e, ExecRunning, k);
        PutExecBehind(s.db, e, ExecCancelled, k);
        assert Idle(s, k);
        assert s.db.jobs[s.db.execs[e].jobId].status == Queued ==> k != s.db.execs[e].jobId;
      }
    }
  }

  lemma WorkerGuarded(s: System, p: Params, step: Step)
    requires Guarded(s) && WorkerStep(step) && Held(s, step.exec)
    ensures Guarded(Apply(s, p, step))
  {
    var s' := Apply(s, p, step);
    WorkerShape(s, p, step);
    WorkerLeavesIdle(s, s', step.exec);
    assert !Idle(s, s.db.execs[step.exec].jobId);
    forall k: JobId | Behind(s'.db, k)
      ensures Behind(s.db, k) && Idle(s', k) && s'.db.jobs[k] == s.db.jobs[k]
    {
      if !Behind(s.db, k) {
        WorkerBehind(s, p, step, k);
      }
      assert Idle(s, k);
    }
  }

  /** No execution becomes active and no worker appears. */
  lemma WorkerLeavesIdle(s: System, s': System, e: ExecId)
    requires e < |s.db.execs| && |s'.db.execs| == |s.db.execs| && s'.alive <= s.alive
    requires forall i :: 0 <= i < |s.db.execs| ==> s'.db.execs[i].jobId == s.db.execs[i].jobId
    requires forall i :: 0 <= i < |s.db.execs| && i != e ==> s'.db.execs[i] == s.db.execs[i]
    requires s'.db.execs[e] == s.db.execs[e] || Finished(s'.db.execs[e].status)
    ensures forall k: JobId :: Idle(s, k) ==> Idle(s', k)
  {
  }

  lemma StopGuarded(s: System, p: Params, j: JobId)
    requires Guarded(s)
    ensures Guarded(Apply(s, p, DoRequestStop(j)))
  {
    var s' := Apply(s, p, DoRequestStop(j));
    forall k: JobId | Behind(s'.db, k)
      ensures Behind(s.db, k) && Idle(s', k)
    {
      assert Behind(s.db, k) && Idle(s, k);
    }
  }

  lemma OtherGuarded(s: System, p: Params, step: Step)
    requires Guarded(s)
    requires step.DoSelectFailed? || step.DoEndRetryStage? || step.DoCrash? || step.DoWait? || (WorkerStep(step) && !Held(s, step.exec))
    ensures Guarded(Apply(s, p, step))
  {
    var s' := Apply(s, p, step);
    assert s'.db.jobs == s.db.jobs && s'.db.execs == s.db.execs;
    forall k: JobId | Behind(s'.db, k)
      ensures Behind(s.db, k) && Idle(s', k)
    {
      assert Behind(s.db, k) && Idle(s, k);
    }
  }

  lemma ApiGuarded(s: System, p: Params, step: Step)
    requires Guarded(s) && Calm(s, step) && (step.DoCreate? || step.DoClone? || step.DoUserRetry? || step.DoRequestStop?)
    requires forall i :: 0 <= i < |s.db.execs| ==> s.db.execs[i].jobId < |s.db.jobs|
    ensures Guarded(Apply(s, p, step))
  {
    match step
    case DoCreate(config, dependsOn, catalog) =>
      if Create(s.db, config, dependsOn, catalog).Success? {
        SubmitGuarded(s, config, Admit(config, AsWritten, catalog).value, Wanted(|s.db.jobs|, dependsOn));
      }
    case DoClone(source, catalog) =>
      if Clone(s.db, source, catalog).Success? {
        SubmitGuarded(s, s.db.jobs[source].config, Admit(s.db.jobs[source].config, AsStored, catalog).value, {});
      }
    case DoUserRetry(j, catalog) => UserRetryGuarded(s, j, catalog);
    case DoRequestStop(j) => StopGuarded(s, p, j);
  }

  lemma SchedulerGuarded(s: System, p: Params, step: Step)
    requires Guarded(s) && (step.DoLose? || step.DoRetryFailed? || step.DoPromote?)
    requires forall i :: 0 <= i < |s.db.execs| ==> s.db.execs[i].jobId < |s.db.jobs|
    ensures Guarded(Apply(s, p, step))
  {
    match step
    case DoLose(e) => LoseGuarded(s, p, e);
    case DoRetryFailed(j) => if j in s.candidates { RetryFailedGuarded(s, p, j); }
    case DoPromote(j) => if s.candidates == {} { PromoteGuarded(s, j); }
  }

  lemma StepGuarded(s: System, p: Params, step: Step)
    requires Guarded(s) && Calm(s, step) && forall i :: 0 <= i < |s.db.execs| ==> s.db.execs[i].jobId < |s.db.jobs|
    ensures Guarded(Apply(s, p, step))
  {
    if step.DoCreate? || step.DoClone? || step.DoUserRetry? || step.DoRequestStop? {
      ApiGuarded(s, p, step);
    } else if step.DoLose? || step.DoRetryFailed? || step.DoPromote? {
      SchedulerGuarded(s, p, step);
    } else if step.DoClaim? {
      ClaimGuarded(s, p, step.exec, step.token);
    } else if WorkerStep(step) && Held(s, step.exec) {
      WorkerGuarded(s, p, step);
    } else {
      OtherGuarded(s, p, step);
    }
  }

  lemma {:induction false} RunGuarded(s: System, p: Params, steps: seq<Step>)
    requires Tables(s.db) && Guarded(s) && CalmRun(s, p, steps)
    ensures Tables(Run(s, p, steps).db) && Guarded(Run(s, p, steps))
    decreases |steps|
  {
    if steps != [] {
      StepGuarded(s, p, steps[0]);
      StepKeepsTables(s, p, steps[0]);
      RunGuarded(Apply(s, p, steps[0]), p, steps[1..]);
    }
  }

  // ----- The hash ----------------------------------------------------------------

  /**
   An automatic retry records the hash of the latest execution: it is the job's own exactly
   when the two columns agreed before.
   */
  lemma RetriesRecordTheLatestHash(s: System, p: Params, step: Step, j: JobId)
    requires LossRequeues(s, p, step, j) || ErrorRequeues(s, p, step, j)
    ensures var db' := Apply(s, p, step).db;
            && |db'.execs| == |s.db.execs| + 1 && j < |db'.jobs|
            && db'.execs[|s.db.execs|].jobId == j
            && (db'.execs[|s.db.execs|].snapshot == db'.jobs[j].snapshot <==> !Behind(s.db, j))
  {
    if step.DoLose? {
      LatestIgnoresStatus(s.db.execs, PutExec(s.db, step.exec, Lost).execs, j);
    }
  }

  lemma SubmitBehind(db: Db, config: Config, snapshot: Snapshot, deps: set<JobId>, j: JobId)
    requires j < |db.jobs| && forall i :: 0 <= i < |db.execs| ==> db.execs[i].jobId < |db.jobs|
    ensures Behind(DispatchInitial(Inserted(db, config, snapshot, deps), |db.jobs|, snapshot), j) <==> Behind(db, j)
  {
    var n, ins := |db.jobs|, Inserted(db, config, snapshot, deps);
    if AllDepsCompleted(ins, n) {
      LatestAppend(ins.execs, Execution(n, 1, Assigned, ins.nextToken, snapshot, Submitted), j);
    }
  }

  lemma UserRetryBehind(db: Db, i: JobId, catalog: Catalog, j: JobId)
    requires j < |db.jobs| && !Behind(db, j)
    ensures var db' := Committed(db, UserRetry(db, i, catalog));
            Behind(db', j) <==>
              && i == j && UserRetry(db, j, catalog).Success? && !AllDepsCompleted(db, j)
              && db.jobs[j].snapshot != Admit(db.jobs[j].config, AsStored, catalog).value
  {
    if UserRetry(db, i, catalog).Success? && AllDepsCompleted(db, i) {
      var snapshot := Admit(db.jobs[i].config, AsStored, catalog).value;
      var job := db.jobs[i].(failureCode := None, finishedAt := None, snapshot := snapshot);
      DispatchBehind(db, i, job.(status := Queued, queuedWrites := job.queuedWrites + 1),
                     MaxAttempt(db.execs, i) + 1, snapshot, UserRetried, 0, j);
    }
  }

  lemma ErrorRetryBehind(db: Db, p: Params, i: JobId, j: JobId)
    requires j < |db.jobs| && !Behind(db, j)
    ensures !Behind(RetryFailed(db, p, i), j)
  {
    if RetryFailed(db, p, i) != db {
      RequeueBehind(db, p, i, db.execs[Latest(db.execs, i).value], ErrorRetry, j);
    }
  }

  lemma PromoteBehind(db: Db, i: JobId, j: JobId)
    requires j < |db.jobs| && !Behind(db, j)
    ensures !Behind(Promote(db, i), j)
  {
    PromoteIs(db, i);
    if Promote(db, i) != db && Promote(db, i) == Released(db, i) {
      DispatchBehind(db, i, ReleasedJob(db.jobs[i]), MaxAttempt(db.execs, i) + 1, db.jobs[i].snapshot, Unblocked, 0, j);
    }
  }

  lemma SchedulerBehind(s: System, p: Params, step: Step, j: JobId)
    requires j < |s.db.jobs| && !Behind(s.db, j) && (step.DoLose? || step.DoRetryFailed? || step.DoPromote?)
    requires forall i :: 0 <= i < |s.db.execs| ==> s.db.execs[i].jobId < |s.db.jobs|
    ensures !Behind(Apply(s, p, step).db, j)
  {
    match step
    case DoLose(e) => if e < |s.db.execs| && Active(s.db.execs[e].status) { LoseOfOne(s.db, p, e, j); }
    case DoRetryFailed(i) => ErrorRetryBehind(s.db, p, i, j);
    case DoPromote(i) => PromoteBehind(s.db, i, j);
  }

  /** A requeue from the latest execution leaves every job that is up to date so. */
  lemma RequeueBehind(db: Db, p: Params, i: JobId, latest: Execution, origin: Origin, j: JobId)
    requires i < |db.jobs| && Latest(db.execs, i).Some? && latest == db.execs[Latest(db.execs, i).value] && !Behind(db, j)
    ensures !Behind(Dispatch(PutJob(db, i, Requeued(db.jobs[i])), i, latest.attempt + 1, latest.snapshot, origin,
                             BackoffS(p, latest.attempt + 1)), j)
  {
    LatestAppend(db.execs, Execution(i, latest.attempt + 1, Assigned, db.nextToken, latest.snapshot, origin), j);
  }

  lemma LoseOfOne(db: Db, p: Params, e: ExecId, j: JobId)
    requires e < |db.execs| && Active(db.execs[e].status) && db.execs[e].jobId < |db.jobs| && !Behind(db, j)
    ensures !Behind(Lose(db, p, e), j)
  {
    var i := db.execs[e].jobId;
    var lost := PutExec(db, e, Lost);
    assert lost.execs[e].jobId == i;
    PutExecBehind(db, e, Lost, j);
    if |Lose(db, p, e).execs| > |db.execs| {
      RequeueBehind(lost, p, i, lost.execs[Latest(lost.execs, i).value], LossRetry(e), j);
    }
  }

  lemma WorkerBehind(s: System, p: Params, step: Step, j: JobId)
    requires j < |s.db.jobs| && !Behind(s.db, j) && (step.DoClaim? || WorkerStep(step))
    ensures !Behind(Apply(s, p, step).db, j)
  {
    if WorkerStep(step) && Held(s, step.exec) {
      WorkerShape(s, p, step);
      WorkerJob(s, p, step);
      LatestIgnoresStatus(s.db.execs, Apply(s, p, step).db.execs, j);
    } else if step.DoClaim? && Claimable(s.db, step.exec, step.token) {
      PutExecBehind(s.db, step.exec, ExecRunning, j);
      PutExecBehind(s.db, step.exec, ExecCancelled, j);
    }
  }

  lemma ApiBehind(s: System, p: Params, step: Step, j: JobId)
    requires j < |s.db.jobs| && !Behind(s.db, j) && (step.DoCreate? || step.DoClone? || step.DoUserRetry?)
    requires forall i :: 0 <= i < |s.db.execs| ==> s.db.execs[i].jobId < |s.db.jobs|
    ensures Behind(Apply(s, p, step).db, j) <==>
              && UserReopens(s, step, j) && !AllDepsCompleted(s.db, j)
              && s.db.jobs[j].snapshot != Admit(s.db.jobs[j].config, AsStored, step.catalog).value
  {
    match step
    case DoCreate(config, dependsOn, catalog) =>
      if Create(s.db, config, dependsOn, catalog).Success? {
        SubmitBehind(s.db, config, Admit(config, AsWritten, catalog).value, Wanted(|s.db.jobs|, dependsOn), j);
      }
    case DoClone(source, catalog) =>
      if Clone(s.db, source, catalog).Success? {
        SubmitBehind(s.db, s.db.jobs[source].config, Admit(s.db.jobs[source].config, AsStored, catalog).value, {}, j);
      }
    case DoUserRetry(i, catalog) => UserRetryBehind(s.db, i, catalog, j);
  }

  /**
   The hashes of a job and its latest execution part exactly when the user retries a job
   that waits for its dependencies and whose hash is still that of its submission.
   */
  lemma HashesPartExactly(types: Types, s: System, p: Params, step: Step, j: JobId)
    requires Described(types, s.db) && Stable(types, step) && j < |s.db.jobs| && !Behind(s.db, j)
    ensures Behind(Apply(s, p, step).db, j) <==>
              UserReopens(s, step, j) && !AllDepsCompleted(s.db, j) && s.db.jobs[j].snapshot.order == AsWritten
  {
    if step.DoCreate? || step.DoClone? || step.DoUserRetry? {
      ApiBehind(s, p, step, j);
      if UserReopens(s, step, j) {
        AdmitDescribes(types, s.db.jobs[j].config, AsStored, step.catalog);
      }
    } else if step.DoLose? || step.DoRetryFailed? || step.DoPromote? {
      SchedulerBehind(s, p, step, j);
    } else if step.DoClaim? || WorkerStep(step) {
      WorkerBehind(s, p, step, j);
    }
  }

  /**
   In every calm run, each execution the scheduler's loss or error retry creates
   carries its job's own hash, although it is copied from the latest execution.
   */
  lemma CalmRunsKeepTheHash(p: Params, steps: seq<Step>, next: Step)
    requires CalmRun(INITIAL, p, steps) && (next.DoLose? || next.DoRetryFailed?)
    ensures var before, after := Run(INITIAL, p, steps).db, Apply(Run(INITIAL, p, steps), p, next).db;
            |after.execs| > |before.execs| ==>
              && after.execs[|before.execs|].jobId < |after.jobs|
              && after.execs[|before.execs|].snapshot == after.jobs[after.execs[|before.execs|].jobId].snapshot
  {
    RunGuarded(INITIAL, p, steps);
    var s := Run(INITIAL, p, steps);
    StepKeepsTables(s, p, next);
    if next.DoLose? && s.candidates == {} {
      LoseGuarded(s, p, next.exec);
    } else if next.DoRetryFailed? && next.job in s.candidates {
      RetryFailedGuarded(s, p, next.job);
    }
  }

  // ----- Why the run has to be calm -------------------------------------------

  /** Losing an active execution of a restamped blocked job always records the old hash, and queues the job. */
  lemma ActiveExecutionRevivesTheOldHash(s: System, p: Params, e: ExecId)
    requires s.candidates == {} && e < |s.db.execs| && Active(s.db.execs[e].status) && s.db.execs[e].attempt < p.maxAttempts
    requires Behind(s.db, s.db.execs[e].jobId) && s.db.jobs[s.db.execs[e].jobId].status == Blocked
    ensures var j, db' := s.db.execs[e].jobId, Apply(s, p, DoLose(e)).db;
            && |db'.execs| == |s.db.execs| + 1
            && db'.execs[|s.db.execs|].jobId == j
            && db'.execs[|s.db.execs|].snapshot != db'.jobs[j].snapshot
            && db'.jobs[j].status == Queued
  {
    RetriesRecordTheLatestHash(s, p, DoLose(e), s.db.execs[e].jobId);
    QueuedWritesAreCounted(s, p, DoLose(e), s.db.execs[e].jobId);
  }

  /**
   A worker that still runs for a restamped blocked job can fail it with a retriable code;
   the next error-retry stage then records the old hash.
   */
  lemma LingeringWorkerRevivesTheOldHash(s: System, p: Params, e: ExecId, code: string)
    requires s.candidates == {} && Held(s, e) && Behind(s.db, s.db.execs[e].jobId) && p.windowS > 0 && Retriable(Some(code))
    requires s.db.jobs[s.db.execs[e].jobId].status == Blocked && MaxAttempt(s.db.execs, s.db.execs[e].jobId) < p.maxAttempts
    ensures var j := s.db.execs[e].jobId;
            var db' := Apply(Apply(Apply(s, p, DoFail(e, code)), p, DoSelectFailed), p, DoRetryFailed(j)).db;
            && |db'.execs| == |s.db.execs| + 1
            && db'.execs[|s.db.execs|].jobId == j
            && db'.execs[|s.db.execs|].snapshot != db'.jobs[j].snapshot
  {
    var j := s.db.execs[e].jobId;
    var s1 := Apply(s, p, DoFail(e, code));
    LatestIgnoresStatus(s.db.execs, s1.db.execs, j);
    assert RetryCandidate(s1.db, p, j);
    var s2 := Apply(s1, p, DoSelectFailed);
    assert j in s2.candidates;
    RetriesRecordTheLatestHash(s2, p, DoRetryFailed(j), j);
  }
}
