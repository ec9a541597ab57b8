/**
 The training-job protocol as tables and transactions.

 Four programs move the same rows: the API (submit, clone, retry, stop), the
 scheduler (reconcile, retry, promote) and the training workers. Each database
 transaction is one atomic step here. Identifiers are positions in append-only
 tables, so a new row's id is fresh; assignment tokens come from a counter that
 never repeats.
 */
module TrainingModel {
  import opened Wrappers

  type JobId = nat
  type ExecId = nat

  datatype JobStatus =
    | Scheduled | Blocked | Queued | Preparing | Running
    | Stopping | Completed | Failed | Cancelled | Stopped

  datatype ExecStatus =
    | Assigned | Claimed | ExecPreparing | ExecRunning
    | Succeeded | ExecFailed | ExecCancelled | ExecStopped | Lost

  /** The statuses a job ends in; only a retry leaves them. */
  predicate Terminal(s: JobStatus) {
    s == Completed || s == Failed || s == Cancelled || s == Stopped
  }

  /** The statuses in which an execution is expected to send heartbeats. */
  predicate Active(s: ExecStatus) {
    s == Claimed || s == ExecPreparing || s == ExecRunning
  }

  /** The table of legal job transitions. */
  predicate Legal(from: JobStatus, to: JobStatus) {
    match from
    case Scheduled => to == Queued || to == Blocked || to == Cancelled
    case Blocked => to == Queued || to == Failed || to == Cancelled
    case Queued => to == Preparing || to == Cancelled || to == Failed
    case Preparing => to == Running || to == Cancelled || to == Failed
    case Running => to == Stopping || to == Completed || to == Failed
    case Stopping => to == Stopped || to == Failed
    case _ => to == Queued || to == Blocked
  }

  const DEPENDENCY_FAILED := "DEPENDENCY_FAILED"
  const EXECUTION_LOST := "EXECUTION_LOST"
  const TRAINING_STATE_LOST := "TRAINING_STATE_LOST"

  /** Failure codes the scheduler retries by itself. */
  predicate Retriable(code: Option<string>) {
    code == Some("STORAGE_TEMPORARY_FAILURE") || code == Some("DATABASE_CONNECTION_FAILURE") ||
    code == Some("NETWORK_TIMEOUT") || code == Some("REDIS_TIMEOUT")
  }

  /** What the user chose; it never changes after the job is created. */
  datatype Config = Config(datasetId: nat, baseModelId: Option<nat>, hyperparameters: string)

  /** The key order of hyperparameters: as a request has them, `epochs` first, or as the database gives them back. */
  datatype KeyOrder = AsWritten | AsStored

  /**
   The configuration frozen at submission, the choice plus the dataset's task and type at
   that moment, with the key order its hash was taken in. Equal snapshots are equal in both
   columns, configuration and hash; the configuration column itself keeps no key order.
   */
  datatype Snapshot = Snapshot(config: Config, taskType: string, datasetTypeId: nat, order: KeyOrder)

  /** The configuration column. */
  function Configuration(s: Snapshot): Snapshot {
    s.(order := AsStored)
  }

  datatype DatasetRow = DatasetRow(ready: bool, taskType: string, datasetTypeId: nat)
  datatype ModelRow = ModelRow(available: bool, taskType: string)

  /**
   What a submission looks at outside the tables: the rows of other services, whether its
   name and hyperparameters pass their checks, whether the official weights it names exist,
   and whether its name is free. Any step may see something different.
   */
  datatype Catalog = Catalog(
    datasets: map<nat, DatasetRow>, models: map<nat, ModelRow>, requestValid: bool, weightsExist: bool, nameFree: bool)

  /** queuedWrites counts how often the row's status was written QUEUED. */
  datatype Job = Job(
    status: JobStatus,
    config: Config,
    snapshot: Snapshot,
    failureCode: Option<string>,
    finishedAt: Option<nat>,
    queuedWrites: nat)

  /** Why an execution was created, as the audit rows record it. */
  datatype Origin = Submitted | UserRetried | Unblocked | LossRetry(lost: ExecId) | ErrorRetry

  datatype Execution = Execution(
    jobId: JobId, attempt: nat, status: ExecStatus, token: nat, snapshot: Snapshot, origin: Origin)

  /** A job.training.dispatch row of the outbox. */
  datatype Event = Event(execId: ExecId, token: nat, jobId: JobId, attempt: nat, availableAt: nat)

  datatype Db = Db(
    jobs: seq<Job>,
    deps: set<(JobId, JobId)>,
    execs: seq<Execution>,
    outbox: seq<Event>,
    nextToken: nat,
    now: nat)

  datatype Params = Params(maxAttempts: nat, backoffBaseS: nat, staleTimeoutS: nat, windowS: nat)

  datatype Refusal =
    | InvalidRequest | NameTaken | WeightsNotFound
    | NotFound | DatasetNotFound | DatasetNotReady | ModelNotFound | ModelNotAvailable
    | TaskMismatch | DependencyNotFound | NotRetryable | NotStoppable | NoExecution | IllegalTransition

  const EMPTY := Db([], {}, [], [], 0, 0)

  // ----- Reading the tables -------------------------------------------------

  /** The execution of j with the highest attempt number. */
  function Latest(execs: seq<Execution>, j: JobId): (r: Option<ExecId>)
    ensures r.Some? ==> r.value < |execs| && execs[r.value].jobId == j
    ensures forall e :: 0 <= e < |execs| && execs[e].jobId == j ==>
              r.Some? && execs[e].attempt <= execs[r.value].attempt
  {
    if execs == [] then None
    else
      var n := |execs| - 1;
      var r := Latest(execs[..n], j);
      if execs[n].jobId == j && (r.None? || execs[n].attempt >= execs[r.value].attempt)
      then Some(n) else r
  }

  /** The highest attempt number of j, 0 when it has no execution. */
  function MaxAttempt(execs: seq<Execution>, j: JobId): (m: nat)
    ensures forall e :: 0 <= e < |execs| && execs[e].jobId == j ==> execs[e].attempt <= m
  {
    match Latest(execs, j)
    case None => 0
    case Some(e) => execs[e].attempt
  }

  predicate AnyDepFailed(db: Db, j: JobId) {
    exists p :: p in db.deps && p.0 == j && p.1 < |db.jobs| &&
      (db.jobs[p.1].status == Failed || db.jobs[p.1].status == Cancelled || db.jobs[p.1].status == Stopped)
  }

  predicate AllDepsCompleted(db: Db, j: JobId) {
    forall p :: p in db.deps && p.0 == j && p.1 < |db.jobs| ==> db.jobs[p.1].status == Completed
  }

  /** Whether the inputs may be trained on now, and the snapshot they give. */
  function Admit(config: Config, order: KeyOrder, catalog: Catalog): Result<Snapshot, Refusal> {
    if config.datasetId !in catalog.datasets then Failure(DatasetNotFound)
    else
      var ds := catalog.datasets[config.datasetId];
      if !ds.ready then Failure(DatasetNotReady)
      else if config.baseModelId.Some? && config.baseModelId.value !in catalog.models then Failure(ModelNotFound)
      else if config.baseModelId.Some? && !catalog.models[config.baseModelId.value].available then Failure(ModelNotAvailable)
      else if config.baseModelId.Some? && catalog.models[config.baseModelId.value].taskType != ds.taskType then Failure(TaskMismatch)
      else if config.baseModelId.None? && !catalog.weightsExist then Failure(WeightsNotFound)
      else Success(Snapshot(config, ds.taskType, ds.datasetTypeId, order))
  }

  // ----- Writing one row ----------------------------------------------------

  function PutJob(db: Db, j: JobId, job: Job): Db
    requires j < |db.jobs|
  {
    db.(jobs := db.jobs[j := job])
  }

  function PutExec(db: Db, e: ExecId, status: ExecStatus): Db
    requires e < |db.execs|
  {
    db.(execs := db.execs[e := db.execs[e].(status := status)])
  }

  /** Inserts an ASSIGNED execution and the outbox row that announces it. */
  function Dispatch(db: Db, j: JobId, attempt: nat, snapshot: Snapshot, origin: Origin, delay: nat): Db {
    db.(execs := db.execs + [Execution(j, attempt, Assigned, db.nextToken, snapshot, origin)],
        outbox := db.outbox + [Event(|db.execs|, db.nextToken, j, attempt, db.now + delay)],
        nextToken := db.nextToken + 1)
  }

  /** The row after a scheduler requeue: QUEUED with the failure fields cleared. */
  function Requeued(job: Job): Job {
    job.(status := Queued, failureCode := None, finishedAt := None, queuedWrites := job.queuedWrites + 1)
  }

  function Pow2(n: nat): (p: nat)
    ensures p >= 1
  {
    if n == 0 then 1 else 2 * Pow2(n - 1)
  }

  function Min(a: nat, b: nat): nat { if a < b then a else b }

  function BackoffCap(p: Params): nat {
    if p.staleTimeoutS > 35 then p.staleTimeoutS - 30 else 5
  }

  /** Exponential delay before attempt number next. */
  function BackoffS(p: Params, next: nat): nat {
    Min(p.backoffBaseS * Pow2(if next > 2 then next - 2 else 0), BackoffCap(p))
  }

  // ----- API transactions ---------------------------------------------------

  /** Stamps the snapshot on a freshly inserted row and either blocks it or dispatches attempt 1. */
  function DispatchInitial(db: Db, j: JobId, snapshot: Snapshot): Db
    requires j < |db.jobs|
  {
    var job := db.jobs[j].(snapshot := snapshot);
    if AllDepsCompleted(db, j) then
      Dispatch(PutJob(db, j, job.(status := Queued, queuedWrites := job.queuedWrites + 1)), j, 1, snapshot, Submitted, 0)
    else PutJob(db, j, job.(status := Blocked))
  }

  function Inserted(db: Db, config: Config, snapshot: Snapshot, deps: set<JobId>): Db {
    db.(jobs := db.jobs + [Job(Queued, config, snapshot, None, None, 0)],
        deps := db.deps + set d | d in deps :: (|db.jobs|, d))
  }

  /** The dependencies a submission asks for, its own id left out. */
  function Wanted(id: JobId, dependsOn: seq<JobId>): set<JobId> {
    set d | d in dependsOn && d != id
  }

  /** Submit a new job. The id is the new row's own, so naming it is ignored rather than refused. */
  function Create(db: Db, config: Config, dependsOn: seq<JobId>, catalog: Catalog): Result<Db, Refusal> {
    if !catalog.requestValid then Failure(InvalidRequest)
    else match Admit(config, AsWritten, catalog)
      case Failure(r) => Failure(r)
      case Success(snapshot) =>
        var id := |db.jobs|;
        var deps := Wanted(id, dependsOn);
        if !catalog.nameFree then Failure(NameTaken)
        else if exists d :: d in deps && d > id then Failure(DependencyNotFound)
        else Success(DispatchInitial(Inserted(db, config, snapshot, deps), id, snapshot))
  }

  /** Submit a copy of an existing job; dependencies are not copied. */
  function Clone(db: Db, source: JobId, catalog: Catalog): Result<Db, Refusal> {
    if source >= |db.jobs| then Failure(NotFound)
    else match Admit(db.jobs[source].config, AsStored, catalog)
      case Failure(r) => Failure(r)
      case Success(snapshot) =>
        if !catalog.nameFree then Failure(NameTaken)
        else Success(DispatchInitial(Inserted(db, db.jobs[source].config, snapshot, {}), |db.jobs|, snapshot))
  }

  /** Restart a finished job in place. */
  function UserRetry(db: Db, j: JobId, catalog: Catalog): Result<Db, Refusal> {
    if j >= |db.jobs| then Failure(NotFound)
    else if !Terminal(db.jobs[j].status) then Failure(NotRetryable)
    else match Admit(db.jobs[j].config, AsStored, catalog)
      case Failure(r) => Failure(r)
      case Success(snapshot) => RetryWith(db, j, snapshot)
  }

  /** A retry that was admitted: blocked again while a dependency is unfinished, else the next attempt. */
  function RetryWith(db: Db, j: JobId, snapshot: Snapshot): Result<Db, Refusal>
    requires j < |db.jobs|
  {
    if Latest(db.execs, j).None? then Failure(NoExecution)
    else
      var job := db.jobs[j].(failureCode := None, finishedAt := None, snapshot := snapshot);
      if AllDepsCompleted(db, j) then
        Success(Dispatch(PutJob(db, j, job.(status := Queued, queuedWrites := job.queuedWrites + 1)),
                         j, MaxAttempt(db.execs, j) + 1, snapshot, UserRetried, 0))
      else Success(PutJob(db, j, job.(status := Blocked)))
  }

  /** A running job is asked to stop; one that has not started is cancelled. */
  function RequestStop(db: Db, j: JobId): Result<Db, Refusal> {
    if j >= |db.jobs| then Failure(NotFound)
    else
      var job := db.jobs[j];
      match job.status
      case Running => Success(PutJob(db, j, job.(status := Stopping)))
      case Queued | Preparing | Scheduled | Blocked => Success(PutJob(db, j, job.(status := Cancelled)))
      case _ => Failure(NotStoppable)
  }

  // ----- Scheduler transactions ---------------------------------------------

  /** The next attempt of an already requeued job, with the latest execution's snapshot. */
  function DispatchRetry(db: Db, p: Params, j: JobId, origin: Origin): Db
    requires Latest(db.execs, j).Some?
  {
    var latest := db.execs[Latest(db.execs, j).value];
    Dispatch(db, j, latest.attempt + 1, latest.snapshot, origin, BackoffS(p, latest.attempt + 1))
  }

  /** A training execution stopped sending heartbeats. */
  function Lose(db: Db, p: Params, e: ExecId): Db {
    if e >= |db.execs| || !Active(db.execs[e].status) then db
    else
      var lost := PutExec(db, e, Lost);
      var j := db.execs[e].jobId;
      if j >= |db.jobs| then lost
      else
        var job := db.jobs[j];
        if job.status == Stopping then
          PutJob(lost, j, job.(status := Stopped, finishedAt := Some(db.now)))
        else if Terminal(job.status) then lost
        else if db.execs[e].attempt >= p.maxAttempts then
          PutJob(lost, j, job.(status := Failed, failureCode := Some(EXECUTION_LOST), finishedAt := Some(db.now)))
        else
          assert lost.execs[e].jobId == j;
          DispatchRetry(PutJob(lost, j, Requeued(job)), p, j, LossRetry(e))
  }

  /** Requeue one failed job. The failure code was checked when it became a candidate, not here. */
  function RetryFailed(db: Db, p: Params, j: JobId): Db {
    if j >= |db.jobs| || MaxAttempt(db.execs, j) >= p.maxAttempts
       || db.jobs[j].status != Failed || Latest(db.execs, j).None?
    then db
    else DispatchRetry(PutJob(db, j, Requeued(db.jobs[j])), p, j, ErrorRetry)
  }

  /** The jobs the error-retry query returns: recently failed with a retriable code. */
  predicate RetryCandidate(db: Db, p: Params, j: JobId) {
    && j < |db.jobs|
    && db.jobs[j].status == Failed
    && Retriable(db.jobs[j].failureCode)
    && db.jobs[j].finishedAt.Some?
    && db.jobs[j].finishedAt.value + p.windowS > db.now
  }

  /** One job of a promote pass: fail it, dispatch it, or leave it blocked. */
  function Promote(db: Db, j: JobId): Db {
    if j >= |db.jobs| || db.jobs[j].status != Blocked then db
    else
      var job := db.jobs[j];
      if AnyDepFailed(db, j) then
        PutJob(db, j, job.(status := Failed, failureCode := Some(DEPENDENCY_FAILED), finishedAt := Some(db.now)))
      else if AllDepsCompleted(db, j) then
        Dispatch(PutJob(db, j, job.(status := Queued, queuedWrites := job.queuedWrites + 1)),
                 j, MaxAttempt(db.execs, j) + 1, job.snapshot, Unblocked, 0)
      else db
  }

  // ----- Worker transactions --------------------------------------------------

  /** Claiming moves the execution and the job together; a job that is not QUEUED cancels the execution. */
  function Claim(db: Db, e: ExecId): Db
    requires e < |db.execs| && db.execs[e].jobId < |db.jobs|
  {
    var j := db.execs[e].jobId;
    if db.jobs[j].status == Queued
    then PutJob(PutExec(db, e, ExecRunning), j, db.jobs[j].(status := Preparing))
    else PutExec(db, e, ExecCancelled)
  }

  /** The failure path of a worker. It checks the job's status but not its own execution's. */
  function WorkerFail(db: Db, e: ExecId, code: string): Db
    requires e < |db.execs| && db.execs[e].jobId < |db.jobs|
  {
    var j := db.execs[e].jobId;
    var s := db.jobs[j].status;
    var db' := PutExec(db, e, ExecFailed);
    if s == Completed || s == Cancelled || s == Stopped then db'
    else PutJob(db', j, db.jobs[j].(status := Failed, failureCode := Some(code), finishedAt := Some(db.now)))
  }

  function WorkerStart(db: Db, e: ExecId): Db
    requires e < |db.execs| && db.execs[e].jobId < |db.jobs|
  {
    var j := db.execs[e].jobId;
    if db.jobs[j].status == Preparing then PutJob(db, j, db.jobs[j].(status := Running))
    else WorkerFail(db, e, TRAINING_STATE_LOST)
  }

  function WorkerComplete(db: Db, e: ExecId): Db
    requires e < |db.execs| && db.execs[e].jobId < |db.jobs|
  {
    var j := db.execs[e].jobId;
    if db.jobs[j].status == Running
    then PutJob(PutExec(db, e, Succeeded), j, db.jobs[j].(status := Completed, finishedAt := Some(db.now)))
    else WorkerFail(db, e, TRAINING_STATE_LOST)
  }

  function WorkerStopped(db: Db, e: ExecId): Db
    requires e < |db.execs| && db.execs[e].jobId < |db.jobs|
  {
    var j := db.execs[e].jobId;
    if db.jobs[j].status == Stopping
    then PutJob(PutExec(db, e, ExecStopped), j, db.jobs[j].(status := Stopped, finishedAt := Some(db.now)))
    else db
  }

  // ----- The whole system ---------------------------------------------------

  /**
   The tables plus what lives in memory: the executions some worker process is
   still working on (alive, whether or not the scheduler has declared them lost)
   and the candidates of the scheduler's current error-retry stage.
   */
  datatype System = System(db: Db, alive: set<ExecId>, candidates: set<JobId>)

  datatype Step =
    | DoCreate(config: Config, dependsOn: seq<JobId>, catalog: Catalog)
    | DoClone(source: JobId, catalog: Catalog)
    | DoUserRetry(job: JobId, catalog: Catalog)
    | DoRequestStop(job: JobId)
    | DoLose(exec: ExecId)
    | DoSelectFailed
    | DoRetryFailed(job: JobId)
    | DoEndRetryStage
    | DoPromote(job: JobId)
    | DoClaim(exec: ExecId, token: nat)
    | DoStart(exec: ExecId)
    | DoComplete(exec: ExecId)
    | DoFail(exec: ExecId, code: string)
    | DoStopped(exec: ExecId)
    | DoCrash(exec: ExecId)
    | DoWait(seconds: nat)

  const INITIAL := System(EMPTY, {}, {})

  function Committed(db: Db, r: Result<Db, Refusal>): Db {
    if r.Success? then r.value else db
  }

  /** A worker step is possible for an execution a live process holds. */
  predicate Held(s: System, e: ExecId) {
    e in s.alive && e < |s.db.execs| && s.db.execs[e].jobId < |s.db.jobs|
  }

  /** The guard of a claim: the message names an ASSIGNED execution and carries its token. */
  predicate Claimable(db: Db, e: ExecId, token: nat) {
    e < |db.execs| && db.execs[e].jobId < |db.jobs| && db.execs[e].token == token && db.execs[e].status == Assigned
  }

  /** One atomic step. A step whose guard fails leaves the system as it was. */
  function Apply(s: System, p: Params, step: Step): System {
    match step
    case DoCreate(config, dependsOn, catalog) => s.(db := Committed(s.db, Create(s.db, config, dependsOn, catalog)))
    case DoClone(source, catalog) => s.(db := Committed(s.db, Clone(s.db, source, catalog)))
    case DoUserRetry(j, catalog) => s.(db := Committed(s.db, UserRetry(s.db, j, catalog)))
    case DoRequestStop(j) => s.(db := Committed(s.db, RequestStop(s.db, j)))
    // The scheduler's stages run one after another under one lock.
    case DoLose(e) => if s.candidates == {} then s.(db := Lose(s.db, p, e)) else s
    case DoSelectFailed =>
      if s.candidates == {} then s.(candidates := set j | 0 <= j < |s.db.jobs| && RetryCandidate(s.db, p, j)) else s
    case DoRetryFailed(j) =>
      if j in s.candidates then s.(db := RetryFailed(s.db, p, j), candidates := s.candidates - {j}) else s
    case DoEndRetryStage => s.(candidates := {})
    case DoPromote(j) => if s.candidates == {} then s.(db := Promote(s.db, j)) else s
    case DoClaim(e, token) =>
      if Claimable(s.db, e, token) then
        s.(db := Claim(s.db, e),
           alive := if s.db.jobs[s.db.execs[e].jobId].status == Queued then s.alive + {e} else s.alive)
      else s
    case DoStart(e) =>
      if Held(s, e) then
        s.(db := WorkerStart(s.db, e),
           alive := if s.db.jobs[s.db.execs[e].jobId].status == Preparing then s.alive else s.alive - {e})
      else s
    case DoComplete(e) => if Held(s, e) then s.(db := WorkerComplete(s.db, e), alive := s.alive - {e}) else s
    case DoFail(e, code) => if Held(s, e) then s.(db := WorkerFail(s.db, e, code), alive := s.alive - {e}) else s
    case DoStopped(e) => if Held(s, e) then s.(db := WorkerStopped(s.db, e), alive := s.alive - {e}) else s
    case DoCrash(e) => s.(alive := s.alive - {e})
    case DoWait(d) => s.(db := s.db.(now := s.db.now + d))
  }

  /** The system after a run of steps. */
  function Run(s: System, p: Params, steps: seq<Step>): System
    decreases |steps|
  {
    if steps == [] then s else Run(Apply(s, p, steps[0]), p, steps[1..])
  }
}
