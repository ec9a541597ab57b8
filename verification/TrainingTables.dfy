/**
 What every step keeps in the tables: attempts of a job are numbered 1, 2, 3, ...
 without gap or repeat, each entry of a job into QUEUED inserts exactly one
 execution, each execution has exactly one dispatch row with its token and
 attempt, and dependency edges only point at older jobs.
 */
module TrainingTables {
  import opened Wrappers
  import opened TrainingModel

  /** The number of executions of j. */
  function Count(execs: seq<Execution>, j: JobId): nat {
    if execs == [] then 0
    else Count(execs[..|execs| - 1], j) + if execs[|execs| - 1].jobId == j then 1 else 0
  }

  /** The k-th execution inserted for a job carries attempt number k. */
  ghost predicate Numbered(execs: seq<Execution>) {
    forall i :: 0 <= i < |execs| ==> execs[i].attempt == Count(execs[..i], execs[i].jobId) + 1
  }

  /** Dispatch row i announces execution i with its token, job and attempt. */
  ghost predicate Announced(execs: seq<Execution>, outbox: seq<Event>) {
    && |outbox| == |execs|
    && forall i :: 0 <= i < |execs| ==>
         && outbox[i].execId == i
         && outbox[i].token == execs[i].token
         && outbox[i].jobId == execs[i].jobId
         && outbox[i].attempt == execs[i].attempt
  }

  ghost predicate FreshTokens(db: Db) {
    && (forall i :: 0 <= i < |db.execs| ==> db.execs[i].token < db.nextToken)
    && (forall i, k :: 0 <= i < k < |db.execs| ==> db.execs[i].token != db.execs[k].token)
  }

  /** Edges go from a job to a strictly older one, so they cannot form a cycle. */
  ghost predicate DepsPointBack(db: Db) {
    forall p :: p in db.deps ==> p.1 < p.0 < |db.jobs|
  }

  ghost predicate Tables(db: Db) {
    && Numbered(db.execs)
    && Announced(db.execs, db.outbox)
    && FreshTokens(db)
    && DepsPointBack(db)
    && (forall i :: 0 <= i < |db.execs| ==> db.execs[i].jobId < |db.jobs|)
    && (forall j :: 0 <= j < |db.jobs| ==> db.jobs[j].queuedWrites == Count(db.execs, j))
  }

  // ----- Counting -----------------------------------------------------------

  lemma {:induction false} CountDependsOnJobs(xs: seq<Execution>, ys: seq<Execution>, j: JobId)
    requires |xs| == |ys| && forall i :: 0 <= i < |xs| ==> xs[i].jobId == ys[i].jobId
    ensures Count(xs, j) == Count(ys, j)
  {
    if xs != [] {
      CountDependsOnJobs(xs[..|xs| - 1], ys[..|ys| - 1], j);
    }
  }

  lemma {:induction false} CountNone(xs: seq<Execution>, j: JobId)
    requires forall i :: 0 <= i < |xs| ==> xs[i].jobId != j
    ensures Count(xs, j) == 0
  {
    if xs != [] {
      CountNone(xs[..|xs| - 1], j);
    }
  }

  lemma CountAppend(xs: seq<Execution>, x: Execution, j: JobId)
    ensures Count(xs + [x], j) == Count(xs, j) + if x.jobId == j then 1 else 0
  {
    assert (xs + [x])[..|xs|] == xs;
  }

  lemma {:induction false} CountMonotone(xs: seq<Execution>, i: nat, j: JobId)
    requires i <= |xs|
    ensures Count(xs[..i], j) <= Count(xs, j)
    ensures i < |xs| && xs[i].jobId == j ==> Count(xs[..i], j) < Count(xs, j)
    decreases |xs|
  {
    if i == |xs| {
      assert xs[..i] == xs;
    } else {
      var ys := xs[..|xs| - 1];
      assert ys[..i] == xs[..i];
      CountMonotone(ys, i, j);
      if i == |ys| {
        assert ys[..i] == ys;
      }
    }
  }

  lemma NumberedPrefix(execs: seq<Execution>, n: nat)
    requires Numbered(execs) && n <= |execs|
    ensures Numbered(execs[..n])
  {
    forall i | 0 <= i < n
      ensures execs[..n][i].attempt == Count(execs[..n][..i], execs[..n][i].jobId) + 1
    {
      assert execs[..n][..i] == execs[..i];
    }
  }

  /** The highest attempt number of a job is the number of its executions. */
  lemma {:induction false} MaxAttemptIsCount(execs: seq<Execution>, j: JobId)
    requires Numbered(execs)
    ensures MaxAttempt(execs, j) == Count(execs, j)
  {
    if execs != [] {
      var n := |execs| - 1;
      NumberedPrefix(execs, n);
      MaxAttemptIsCount(execs[..n], j);
      assert execs[n].attempt == Count(execs[..n], execs[n].jobId) + 1;
    }
  }

  lemma {:induction false} LatestIgnoresStatus(xs: seq<Execution>, ys: seq<Execution>, j: JobId)
    requires |xs| == |ys|
    requires forall i :: 0 <= i < |xs| ==> xs[i].jobId == ys[i].jobId && xs[i].attempt == ys[i].attempt
    ensures Latest(xs, j) == Latest(ys, j)
  {
    if xs != [] {
      LatestIgnoresStatus(xs[..|xs| - 1], ys[..|ys| - 1], j);
    }
  }

  /** Every number up to the count is some execution's attempt. */
  lemma {:induction false} AttemptExists(execs: seq<Execution>, j: JobId, a: nat) returns (e: ExecId)
    requires Numbered(execs) && 1 <= a <= Count(execs, j)
    ensures e < |execs| && execs[e].jobId == j && execs[e].attempt == a
  {
    var n := |execs| - 1;
    assert execs[n].attempt == Count(execs[..n], execs[n].jobId) + 1;
    if a == Count(execs[..n], j) + 1 {
      e := n;
    } else {
      NumberedPrefix(execs, n);
      e := AttemptExists(execs[..n], j, a);
    }
  }

  lemma AttemptsDistinct(execs: seq<Execution>, i: ExecId, k: ExecId)
    requires Numbered(execs) && i < k < |execs| && execs[i].jobId == execs[k].jobId
    ensures execs[i].attempt < execs[k].attempt
  {
    var xs := execs[..k];
    CountMonotone(xs, i, execs[i].jobId);
    assert xs[..i] == execs[..i];
  }

  // ----- The four ways a transaction changes a table --------------------------

  lemma PutJobKeeps(db: Db, j: JobId, job: Job)
    requires Tables(db) && j < |db.jobs| && job.queuedWrites == db.jobs[j].queuedWrites
    ensures Tables(PutJob(db, j, job))
  {
  }

  lemma PutExecKeeps(db: Db, e: ExecId, status: ExecStatus)
    requires Tables(db) && e < |db.execs|
    ensures Tables(PutExec(db, e, status))
  {
    var db' := PutExec(db, e, status);
    forall i | 0 <= i < |db.execs|
      ensures db'.execs[i].attempt == Count(db'.execs[..i], db'.execs[i].jobId) + 1
    {
      CountDependsOnJobs(db.execs[..i], db'.execs[..i], db.execs[i].jobId);
    }
    forall j | 0 <= j < |db.jobs|
      ensures db'.jobs[j].queuedWrites == Count(db'.execs, j)
    {
      CountDependsOnJobs(db.execs, db'.execs, j);
    }
  }

  lemma NumberedAppend(execs: seq<Execution>, x: Execution)
    requires Numbered(execs) && x.attempt == Count(execs, x.jobId) + 1
    ensures Numbered(execs + [x])
  {
    var more := execs + [x];
    forall i | 0 <= i < |more|
      ensures more[i].attempt == Count(more[..i], more[i].jobId) + 1
    {
      if i < |execs| {
        assert more[..i] == execs[..i];
      } else {
        assert more[..i] == execs;
      }
    }
  }

  lemma AnnouncedAppend(execs: seq<Execution>, outbox: seq<Event>, x: Execution, event: Event)
    requires Announced(execs, outbox)
    requires event.execId == |execs| && event.token == x.token && event.jobId == x.jobId && event.attempt == x.attempt
    ensures Announced(execs + [x], outbox + [event])
  {
  }

  lemma CountsAppend(jobs: seq<Job>, execs: seq<Execution>, job: Job, x: Execution)
    requires forall k :: 0 <= k < |jobs| ==> jobs[k].queuedWrites == Count(execs, k)
    requires x.jobId < |jobs| && job.queuedWrites == jobs[x.jobId].queuedWrites + 1
    ensures forall k :: 0 <= k < |jobs| ==> jobs[x.jobId := job][k].queuedWrites == Count(execs + [x], k)
  {
    forall k | 0 <= k < |jobs|
      ensures jobs[x.jobId := job][k].queuedWrites == Count(execs + [x], k)
    {
      CountAppend(execs, x, k);
    }
  }

  lemma FreshAppend(db: Db, db': Db, x: Execution)
    requires FreshTokens(db) && x.token == db.nextToken
    requires db'.execs == db.execs + [x] && db'.nextToken == db.nextToken + 1
    ensures FreshTokens(db')
  {
  }

  /** Writing QUEUED and inserting the next attempt belong together. */
  lemma DispatchKeeps(db: Db, j: JobId, job: Job, attempt: nat, snapshot: Snapshot, origin: Origin, delay: nat)
    requires Tables(db) && j < |db.jobs| && job.queuedWrites == db.jobs[j].queuedWrites + 1
    requires attempt == Count(db.execs, j) + 1
    ensures Tables(Dispatch(PutJob(db, j, job), j, attempt, snapshot, origin, delay))
  {
    var db' := Dispatch(PutJob(db, j, job), j, attempt, snapshot, origin, delay);
    var x := Execution(j, attempt, Assigned, db.nextToken, snapshot, origin);
    NumberedAppend(db.execs, x);
    AnnouncedAppend(db.execs, db.outbox, x, db'.outbox[|db.outbox|]);
    FreshAppend(db, db', x);
    CountsAppend(db.jobs, db.execs, job, x);
  }

  /** The next attempt, one above the highest so far, on a row written QUEUED. */
  lemma NextKeeps(db: Db, j: JobId, job: Job, attempt: nat, snapshot: Snapshot, origin: Origin, db': Db)
    requires Tables(db) && j < |db.jobs| && job.queuedWrites == db.jobs[j].queuedWrites + 1
    requires attempt == MaxAttempt(db.execs, j) + 1
    requires db' == Dispatch(PutJob(db, j, job), j, attempt, snapshot, origin, 0)
    ensures Tables(db')
  {
    MaxAttemptIsCount(db.execs, j);
    DispatchKeeps(db, j, job, attempt, snapshot, origin, 0);
  }

  lemma InsertedKeeps(db: Db, config: Config, snapshot: Snapshot, deps: set<JobId>)
    requires Tables(db) && forall d :: d in deps ==> d < |db.jobs|
    ensures Tables(Inserted(db, config, snapshot, deps))
    ensures Count(db.execs, |db.jobs|) == 0
  {
    CountNone(db.execs, |db.jobs|);
  }

  lemma DispatchInitialKeeps(db: Db, j: JobId, snapshot: Snapshot)
    requires Tables(db) && j < |db.jobs| && Count(db.execs, j) == 0
    ensures Tables(DispatchInitial(db, j, snapshot))
  {
    if AllDepsCompleted(db, j) {
      var job := db.jobs[j].(snapshot := snapshot, status := Queued, queuedWrites := db.jobs[j].queuedWrites + 1);
      DispatchKeeps(db, j, job, 1, snapshot, Submitted, 0);
    } else {
      PutJobKeeps(db, j, db.jobs[j].(snapshot := snapshot, status := Blocked));
    }
  }

  lemma DispatchRetryKeeps(db: Db, p: Params, j: JobId, origin: Origin)
    requires Tables(db) && j < |db.jobs| && Latest(db.execs, j).Some?
    ensures var db1 := PutJob(db, j, Requeued(db.jobs[j]));
            Tables(DispatchRetry(db1, p, j, origin))
  {
    MaxAttemptIsCount(db.execs, j);
    var latest := db.execs[Latest(db.execs, j).value];
    DispatchKeeps(db, j, Requeued(db.jobs[j]), latest.attempt + 1, latest.snapshot, origin, BackoffS(p, latest.attempt + 1));
  }

  // Every transaction is one of the writes above; this says so without looking into the tables.
  lemma SameTables(db: Db, db': Db)
    requires Tables(db) && db' == db
    ensures Tables(db')
  {
  }

  // ----- Every transaction --------------------------------------------------

  lemma CreateKeeps(db: Db, config: Config, dependsOn: seq<JobId>, catalog: Catalog)
    requires Tables(db)
    ensures Tables(Committed(db, Create(db, config, dependsOn, catalog)))
  {
    if Create(db, config, dependsOn, catalog).Success? {
      var snapshot := Admit(config, AsWritten, catalog).value;
      var deps := Wanted(|db.jobs|, dependsOn);
      InsertedKeeps(db, config, snapshot, deps);
      DispatchInitialKeeps(Inserted(db, config, snapshot, deps), |db.jobs|, snapshot);
    }
  }

  lemma CloneKeeps(db: Db, source: JobId, catalog: Catalog)
    requires Tables(db)
    ensures Tables(Committed(db, Clone(db, source, catalog)))
  {
    if Clone(db, source, catalog).Success? {
      var config := db.jobs[source].config;
      var snapshot := Admit(config, AsStored, catalog).value;
      InsertedKeeps(db, config, snapshot, {});
      DispatchInitialKeeps(Inserted(db, config, snapshot, {}), |db.jobs|, snapshot);
    }
  }

  lemma RetryWithKeeps(db: Db, j: JobId, snapshot: Snapshot, db': Db)
    requires Tables(db) && j < |db.jobs| && RetryWith(db, j, snapshot) == Success(db')
    ensures Tables(db')
  {
    var job := db.jobs[j].(failureCode := None, finishedAt := None, snapshot := snapshot);
    if AllDepsCompleted(db, j) {
      NextKeeps(db, j, job.(status := Queued, queuedWrites := job.queuedWrites + 1), MaxAttempt(db.execs, j) + 1,
                snapshot, UserRetried, db');
    } else {
      PutJobKeeps(db, j, job.(status := Blocked));
    }
  }

  lemma UserRetryKeeps(db: Db, j: JobId, catalog: Catalog)
    requires Tables(db)
    ensures Tables(Committed(db, UserRetry(db, j, catalog)))
  {
    var r := UserRetry(db, j, catalog);
    if r.Success? {
      RetryWithKeeps(db, j, Admit(db.jobs[j].config, AsStored, catalog).value, r.value);
    }
  }

  lemma RequestStopKeeps(db: Db, j: JobId)
    requires Tables(db)
    ensures Tables(Committed(db, RequestStop(db, j)))
  {
    if RequestStop(db, j).Success? {
      PutJobKeeps(db, j, RequestStop(db, j).value.jobs[j]);
    }
  }

  /** One execution and its job's row change, without a dispatch. */
  lemma PutBothKeeps(db: Db, e: ExecId, status: ExecStatus, j: JobId, job: Job)
    requires Tables(db) && e < |db.execs| && j < |db.jobs| && job.queuedWrites == db.jobs[j].queuedWrites
    ensures Tables(PutJob(PutExec(db, e, status), j, job))
  {
    PutExecKeeps(db, e, status);
    PutJobKeeps(PutExec(db, e, status), j, job);
  }

  lemma LoseKeeps(db: Db, p: Params, e: ExecId)
    requires Tables(db)
    ensures Tables(Lose(db, p, e))
  {
    if e < |db.execs| && Active(db.execs[e].status) {
      PutExecKeeps(db, e, Lost);
      var lost := PutExec(db, e, Lost);
      var j := db.execs[e].jobId;
      var job := db.jobs[j];
      if job.status == Stopping {
        PutBothKeeps(db, e, Lost, j, job.(status := Stopped, finishedAt := Some(db.now)));
      } else if Terminal(job.status) {
      } else if db.execs[e].attempt >= p.maxAttempts {
        PutBothKeeps(db, e, Lost, j, job.(status := Failed, failureCode := Some(EXECUTION_LOST), finishedAt := Some(db.now)));
      } else {
        assert lost.execs[e].jobId == j;
        DispatchRetryKeeps(lost, p, j, LossRetry(e));
      }
    }
  }

  function DependencyFailed(db: Db, j: JobId): Db
    requires j < |db.jobs|
  {
    PutJob(db, j, db.jobs[j].(status := Failed, failureCode := Some(DEPENDENCY_FAILED), finishedAt := Some(db.now)))
  }

  function ReleasedJob(job: Job): Job {
    job.(status := Queued, queuedWrites := job.queuedWrites + 1)
  }

  function Released(db: Db, j: JobId): Db
    requires j < |db.jobs|
  {
    Dispatch(PutJob(db, j, ReleasedJob(db.jobs[j])), j, MaxAttempt(db.execs, j) + 1, db.jobs[j].snapshot, Unblocked, 0)
  }

  lemma ReleaseKeeps(db: Db, j: JobId)
    requires Tables(db) && j < |db.jobs|
    ensures Tables(Released(db, j))
  {
    NextKeeps(db, j, ReleasedJob(db.jobs[j]), MaxAttempt(db.execs, j) + 1, db.jobs[j].snapshot, Unblocked, Released(db, j));
  }

  lemma PromoteIs(db: Db, j: JobId)
    ensures Promote(db, j) == db || (j < |db.jobs| && (Promote(db, j) == DependencyFailed(db, j) || Promote(db, j) == Released(db, j)))
  {
  }

  lemma PromoteKeeps(db: Db, j: JobId)
    requires Tables(db)
    ensures Tables(Promote(db, j))
  {
    var db' := Promote(db, j);
    PromoteIs(db, j);
    if db' == db {
      SameTables(db, db');
    } else if db' == DependencyFailed(db, j) {
      PutJobKeeps(db, j, DependencyFailed(db, j).jobs[j]);
      SameTables(DependencyFailed(db, j), db');
    } else {
      ReleaseKeeps(db, j);
      SameTables(Released(db, j), db');
    }
  }

  lemma RetryFailedKeeps(db: Db, p: Params, j: JobId)
    requires Tables(db)
    ensures Tables(RetryFailed(db, p, j))
  {
    if j < |db.jobs| && Latest(db.execs, j).Some? {
      DispatchRetryKeeps(db, p, j, ErrorRetry);
    }
  }

  lemma ClaimKeeps(db: Db, e: ExecId)
    requires Tables(db) && e < |db.execs|
    ensures Tables(Claim(db, e))
  {
    var j := db.execs[e].jobId;
    PutBothKeeps(db, e, ExecRunning, j, db.jobs[j].(status := Preparing));
    PutExecKeeps(db, e, ExecCancelled);
  }

  lemma WorkerFailKeeps(db: Db, e: ExecId, code: string)
    requires Tables(db) && e < |db.execs|
    ensures Tables(WorkerFail(db, e, code))
  {
    var j := db.execs[e].jobId;
    PutExecKeeps(db, e, ExecFailed);
    PutBothKeeps(db, e, ExecFailed, j, db.jobs[j].(status := Failed, failureCode := Some(code), finishedAt := Some(db.now)));
  }

  lemma WorkerStartKeeps(db: Db, e: ExecId)
    requires Tables(db) && e < |db.execs|
    ensures Tables(WorkerStart(db, e))
  {
    var j := db.execs[e].jobId;
    PutJobKeeps(db, j, db.jobs[j].(status := Running));
    WorkerFailKeeps(db, e, TRAINING_STATE_LOST);
  }

  lemma WorkerCompleteKeeps(db: Db, e: ExecId)
    requires Tables(db) && e < |db.execs|
    ensures Tables(WorkerComplete(db, e))
  {
    var j := db.execs[e].jobId;
    if db.jobs[j].status == Running {
      PutBothKeeps(db, e, Succeeded, j, db.jobs[j].(status := Completed, finishedAt := Some(db.now)));
    } else {
      WorkerFailKeeps(db, e, TRAINING_STATE_LOST);
    }
  }

  lemma WorkerStoppedKeeps(db: Db, e: ExecId)
    requires Tables(db) && e < |db.execs|
    ensures Tables(WorkerStopped(db, e))
  {
    var j := db.execs[e].jobId;
    PutBothKeeps(db, e, ExecStopped, j, db.jobs[j].(status := Stopped, finishedAt := Some(db.now)));
  }

  predicate Finished(s: ExecStatus) {
    !Active(s) && s != Assigned
  }

  /** A step with which a worker process goes on with, or ends, an execution it holds. */
  predicate WorkerStep(step: Step) {
    step.DoStart? || step.DoComplete? || step.DoFail? || step.DoStopped?
  }

  /** A worker step finishes its own execution at most, changes its own job at most, and keeps every snapshot. */
  lemma WorkerShape(s: System, p: Params, step: Step)
    requires WorkerStep(step) && Held(s, step.exec)
    ensures var s' := Apply(s, p, step);
            && |s'.db.execs| == |s.db.execs| && |s'.db.jobs| == |s.db.jobs|
            && s'.alive <= s.alive && s'.candidates == s.candidates
            && (forall i :: 0 <= i < |s.db.execs| ==>
                  && s'.db.execs[i].jobId == s.db.execs[i].jobId
                  && s'.db.execs[i].attempt == s.db.execs[i].attempt
                  && s'.db.execs[i].snapshot == s.db.execs[i].snapshot
                  && s'.db.execs[i].origin == s.db.execs[i].origin)
            && (forall i :: 0 <= i < |s.db.execs| && i != step.exec ==> s'.db.execs[i] == s.db.execs[i])
            && (s'.db.execs[step.exec] == s.db.execs[step.exec] || Finished(s'.db.execs[step.exec].status))
            && (forall k :: 0 <= k < |s.db.jobs| && k != s.db.execs[step.exec].jobId ==> s'.db.jobs[k] == s.db.jobs[k])
  {
  }

  /** The job of a worker step: its snapshot stays, and it is failed only along with the execution. */
  lemma WorkerJob(s: System, p: Params, step: Step)
    requires WorkerStep(step) && Held(s, step.exec)
    ensures var j := s.db.execs[step.exec].jobId;
            var s' := Apply(s, p, step);
            && s'.db.jobs[j].snapshot == s.db.jobs[j].snapshot
            && (s'.db.jobs[j] == s.db.jobs[j] || s'.db.jobs[j].status in {Running, Completed, Failed, Stopped})
            && (s'.db.jobs[j] != s.db.jobs[j] && s'.db.jobs[j].status == Failed ==> Finished(s'.db.execs[step.exec].status))
            && (s.db.jobs[j].status in {Completed, Cancelled, Stopped} ==> s'.db.jobs[j] == s.db.jobs[j])
  {
  }

  lemma ApiKeeps(s: System, p: Params, step: Step)
    requires Tables(s.db) && (step.DoCreate? || step.DoClone? || step.DoUserRetry? || step.DoRequestStop?)
    ensures Tables(Apply(s, p, step).db)
  {
    var db' := Apply(s, p, step).db;
    match step
    case DoCreate(config, dependsOn, catalog) =>
      CreateKeeps(s.db, config, dependsOn, catalog);
      SameTables(Committed(s.db, Create(s.db, config, dependsOn, catalog)), db');
    case DoClone(source, catalog) =>
      CloneKeeps(s.db, source, catalog);
      SameTables(Committed(s.db, Clone(s.db, source, catalog)), db');
    case DoUserRetry(j, catalog) =>
      UserRetryKeeps(s.db, j, catalog);
      SameTables(Committed(s.db, UserRetry(s.db, j, catalog)), db');
    case DoRequestStop(j) =>
      RequestStopKeeps(s.db, j);
      SameTables(Committed(s.db, RequestStop(s.db, j)), db');
  }

  lemma LoseStepKeeps(s: System, p: Params, e: ExecId)
    requires Tables(s.db)
    ensures Tables(Apply(s, p, DoLose(e)).db)
  {
    LoseKeeps(s.db, p, e);
  }

  lemma RetryStepKeeps(s: System, p: Params, j: JobId)
    requires Tables(s.db)
    ensures Tables(Apply(s, p, DoRetryFailed(j)).db)
  {
    RetryFailedKeeps(s.db, p, j);
  }

  lemma PromoteStepKeeps(s: System, p: Params, j: JobId)
    requires Tables(s.db)
    ensures Tables(Apply(s, p, DoPromote(j)).db)
  {
    PromoteKeeps(s.db, j);
  }

  function Worked(db: Db, step: Step): Db
    requires WorkerStep(step) && step.exec < |db.execs| && db.execs[step.exec].jobId < |db.jobs|
  {
    match step
    case DoStart(e) => WorkerStart(db, e)
    case DoComplete(e) => WorkerComplete(db, e)
    case DoFail(e, code) => WorkerFail(db, e, code)
    case DoStopped(e) => WorkerStopped(db, e)
  }

  lemma WorkedIs(s: System, p: Params, step: Step)
    requires WorkerStep(step) && Held(s, step.exec)
    ensures Worked(s.db, step) == Apply(s, p, step).db
  {
  }

  lemma WorkedKeeps(db: Db, step: Step)
    requires Tables(db) && WorkerStep(step) && step.exec < |db.execs| && db.execs[step.exec].jobId < |db.jobs|
    ensures Tables(Worked(db, step))
  {
    match step
    case DoStart(e) => WorkerStartKeeps(db, e);
    case DoComplete(e) => WorkerCompleteKeeps(db, e);
    case DoFail(e, code) => WorkerFailKeeps(db, e, code);
    case DoStopped(e) => WorkerStoppedKeeps(db, e);
  }

  lemma WorkerKeeps(s: System, p: Params, step: Step)
    requires Tables(s.db) && WorkerStep(step) && Held(s, step.exec)
    ensures Tables(Apply(s, p, step).db)
  {
    WorkedKeeps(s.db, step);
    WorkedIs(s, p, step);
    SameTables(Worked(s.db, step), Apply(s, p, step).db);
  }

  lemma SchedulerKeeps(s: System, p: Params, step: Step)
    requires Tables(s.db) && (step.DoLose? || step.DoRetryFailed? || step.DoPromote?)
    ensures Tables(Apply(s, p, step).db)
  {
    match step
    case DoLose(e) => LoseStepKeeps(s, p, e);
    case DoRetryFailed(j) => RetryStepKeeps(s, p, j);
    case DoPromote(j) => PromoteStepKeeps(s, p, j);
  }

  lemma ClaimStepKeeps(s: System, p: Params, e: ExecId, token: nat)
    requires Tables(s.db)
    ensures Tables(Apply(s, p, DoClaim(e, token)).db)
  {
    if Claimable(s.db, e, token) {
      ClaimKeeps(s.db, e);
      SameTables(Claim(s.db, e), Apply(s, p, DoClaim(e, token)).db);
    } else {
      SameTables(s.db, Apply(s, p, DoClaim(e, token)).db);
    }
  }

  lemma WaitKeeps(db: Db, now: nat)
    requires Tables(db)
    ensures Tables(db.(now := now))
  {
  }

  /** A step that leaves jobs, executions, dependencies and outbox alone. */
  lemma IdleKeeps(s: System, p: Params, step: Step)
    requires Tables(s.db)
    requires step.DoSelectFailed? || step.DoEndRetryStage? || step.DoCrash? || step.DoWait? || (WorkerStep(step) && !Held(s, step.exec))
    ensures Tables(Apply(s, p, step).db)
  {
    var db' := Apply(s, p, step).db;
    WaitKeeps(s.db, db'.now);
    SameTables(s.db.(now := db'.now), db');
  }

  /** No step of any program breaks the tables. */
  lemma StepKeepsTables(s: System, p: Params, step: Step)
    requires Tables(s.db)
    ensures Tables(Apply(s, p, step).db)
  {
    if step.DoCreate? || step.DoClone? || step.DoUserRetry? || step.DoRequestStop? {
      ApiKeeps(s, p, step);
    } else if step.DoLose? || step.DoRetryFailed? || step.DoPromote? {
      SchedulerKeeps(s, p, step);
    } else if step.DoClaim? {
      ClaimStepKeeps(s, p, step.exec, step.token);
    } else if WorkerStep(step) && Held(s, step.exec) {
      WorkerKeeps(s, p, step);
    } else {
      IdleKeeps(s, p, step);
    }
  }

  lemma {:induction false} RunKeepsTables(s: System, p: Params, steps: seq<Step>)
    requires Tables(s.db)
    ensures Tables(Run(s, p, steps).db)
    decreases |steps|
  {
    if steps != [] {
      StepKeepsTables(s, p, steps[0]);
      RunKeepsTables(Apply(s, p, steps[0]), p, steps[1..]);
    }
  }

  lemma RunOne(s: System, p: Params, steps: seq<Step>)
    requires steps != []
    ensures Run(s, p, steps) == Run(Apply(s, p, steps[0]), p, steps[1..])
  {
  }

  lemma RunThree(s: System, p: Params, steps: seq<Step>)
    requires |steps| == 3
    ensures Run(s, p, steps) == Apply(Apply(Apply(s, p, steps[0]), p, steps[1]), p, steps[2])
  {
    RunOne(s, p, steps);
    RunOne(Apply(s, p, steps[0]), p, steps[1..]);
    RunOne(Apply(Apply(s, p, steps[0]), p, steps[1]), p, steps[1..][1..]);
    assert steps[1..][1..][1..] == [];
  }

  lemma {:induction false} RunAppend(s: System, p: Params, a: seq<Step>, b: seq<Step>)
    ensures Run(s, p, a + b) == Run(Run(s, p, a), p, b)
    decreases |a|
  {
    if a == [] {
      assert a + b == b;
    } else {
      assert (a + b)[1..] == a[1..] + b;
      RunAppend(Apply(s, p, a[0]), p, a[1..], b);
    }
  }

  lemma RunExtend(s: System, p: Params, steps: seq<Step>, step: Step)
    ensures Run(s, p, steps + [step]) == Apply(Run(s, p, steps), p, step)
  {
    RunAppend(s, p, steps, [step]);
    RunOne(Run(s, p, steps), p, [step]);
  }

  // ----- The theorems about every reachable state ------------------------------

  /** The attempt numbers recorded for job j. */
  function Attempts(db: Db, j: JobId): set<nat> {
    set e | 0 <= e < |db.execs| && db.execs[e].jobId == j :: db.execs[e].attempt
  }

  /**
   In every reachable state the attempts of a job are exactly 1..n, no two
   executions share one, and n is how often the job was written QUEUED.
   */
  lemma AttemptsAreGapFree(p: Params, steps: seq<Step>, j: JobId)
    requires j < |Run(INITIAL, p, steps).db.jobs|
    ensures var db := Run(INITIAL, p, steps).db;
            && (forall a :: a in Attempts(db, j) <==> 1 <= a <= db.jobs[j].queuedWrites)
            && forall i, k :: 0 <= i < k < |db.execs| && db.execs[i].jobId == db.execs[k].jobId == j ==>
                 db.execs[i].attempt != db.execs[k].attempt
  {
    RunKeepsTables(INITIAL, p, steps);
    var db := Run(INITIAL, p, steps).db;
    forall e | 0 <= e < |db.execs| && db.execs[e].jobId == j
      ensures 1 <= db.execs[e].attempt <= Count(db.execs, j)
    {
      CountMonotone(db.execs, e, j);
    }
    forall a | 1 <= a <= Count(db.execs, j)
      ensures a in Attempts(db, j)
    {
      var e := AttemptExists(db.execs, j, a);
    }
    forall i, k | 0 <= i < k < |db.execs| && db.execs[i].jobId == db.execs[k].jobId == j
      ensures db.execs[i].attempt != db.execs[k].attempt
    {
      AttemptsDistinct(db.execs, i, k);
    }
  }

  /**
   In every reachable state executions and dispatch rows match one to one, and a
   token names one execution only: no dispatch is lost, none is sent twice.
   */
  lemma DispatchesMatchExecutions(p: Params, steps: seq<Step>)
    ensures var db := Run(INITIAL, p, steps).db;
            && Announced(db.execs, db.outbox)
            && forall i, k :: 0 <= i < |db.execs| && 0 <= k < |db.outbox| ==>
                 (db.outbox[k].token == db.execs[i].token <==> db.outbox[k].execId == i)
  {
    RunKeepsTables(INITIAL, p, steps);
  }

  /** A claim that carries another execution's token is refused in every reachable state. */
  lemma OnlyTheOwnTokenClaims(p: Params, steps: seq<Step>, e: ExecId, other: ExecId)
    requires e != other && e < |Run(INITIAL, p, steps).db.execs| && other < |Run(INITIAL, p, steps).db.outbox|
    ensures var s := Run(INITIAL, p, steps);
            Apply(s, p, DoClaim(e, s.db.outbox[other].token)) == s
  {
    RunKeepsTables(INITIAL, p, steps);
  }
}
