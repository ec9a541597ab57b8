/**
 The transactions as the programs write them: statements that insert and update
 rows of the tables one after another. Each method is proved to leave the tables
 exactly as the transaction's specification in TrainingModel says, so everything
 proved about runs of that model holds of the statements.
 */
module TrainingStore {
  import opened Wrappers
  import opened TrainingModel
  import opened TrainingTables
  import opened TrainingPromote
  import opened TrainingEffects

  /** The tables after losing each listed execution in turn. */
  function LoseAll(db: Db, p: Params, order: seq<ExecId>): Db {
    if order == [] then db else Lose(LoseAll(db, p, order[..|order| - 1]), p, order[|order| - 1])
  }

  /** Whether losing e marks an execution at all. */
  predicate Loses(db: Db, e: ExecId) {
    e < |db.execs| && Active(db.execs[e].status)
  }

  /** Whether the loss counts as a failure: a stop is over, or no attempt is left. */
  predicate LossFails(db: Db, p: Params, e: ExecId) {
    && Loses(db, e)
    && (|| (db.execs[e].jobId < |db.jobs| && db.jobs[db.execs[e].jobId].status == Stopping)
        || db.execs[e].attempt >= p.maxAttempts)
  }

  /** How many of the listed executions are marked, and how many count as failures. */
  function Losses(db: Db, p: Params, order: seq<ExecId>): nat {
    if order == [] then 0
    else
      var n := |order| - 1;
      Losses(db, p, order[..n]) + (if Loses(LoseAll(db, p, order[..n]), order[n]) then 1 else 0)
  }

  function LossFailures(db: Db, p: Params, order: seq<ExecId>): nat {
    if order == [] then 0
    else
      var n := |order| - 1;
      LossFailures(db, p, order[..n]) + (if LossFails(LoseAll(db, p, order[..n]), p, order[n]) then 1 else 0)
  }

  /** The tables after the error-retry loop over the listed jobs. */
  function RetryAll(db: Db, p: Params, order: seq<JobId>): Db {
    if order == [] then db else RetryFailed(RetryAll(db, p, order[..|order| - 1]), p, order[|order| - 1])
  }

  lemma {:induction false} PassExtend(db: Db, order: seq<JobId>, j: JobId)
    ensures Pass(db, order + [j]) == Promote(Pass(db, order), j)
    decreases |order|
  {
    if order == [] {
      assert [j][1..] == [];
    } else {
      assert (order + [j])[1..] == order[1..] + [j];
      PassExtend(Promote(db, order[0]), order[1..], j);
    }
  }

  class TrainingStore {
    var jobs: seq<Job>
    var deps: set<(JobId, JobId)>
    var execs: seq<Execution>
    var outbox: seq<Event>
    var nextToken: nat
    var now: nat

    function View(): Db
      reads this
    {
      Db(jobs, deps, execs, outbox, nextToken, now)
    }

    constructor ()
      ensures View() == EMPTY
    {
      jobs, deps, execs, outbox, nextToken, now := [], {}, [], [], 0, 0;
    }

    /** Puts the tables back when a transaction throws. */
    method Rollback(saved: Db)
      modifies this
      ensures View() == saved
    {
      jobs, deps, execs, outbox, nextToken, now :=
        saved.jobs, saved.deps, saved.execs, saved.outbox, saved.nextToken, saved.now;
    }

    /** Inserts an execution and enqueues its dispatch event. */
    method InsertExecution(j: JobId, attempt: nat, snapshot: Snapshot, origin: Origin, delay: nat)
      modifies this`execs, this`outbox, this`nextToken
      ensures View() == Dispatch(old(View()), j, attempt, snapshot, origin, delay)
    {
      var token := nextToken;
      nextToken := nextToken + 1;
      var id := |execs|;
      execs := execs + [Execution(j, attempt, Assigned, token, snapshot, origin)];
      outbox := outbox + [Event(id, token, j, attempt, now + delay)];
    }

    /** The guarded status change: locks the row, checks the legal table, stamps the row. */
    method Transition(j: JobId, to: JobStatus, snapshot: Option<Snapshot>) returns (r: Result<JobStatus, Refusal>)
      modifies this`jobs
      ensures j >= |old(jobs)| ==> r == Failure(NotFound)
      ensures j < |old(jobs)| && !Legal(old(jobs)[j].status, to) ==> r == Failure(IllegalTransition)
      ensures j < |old(jobs)| && Legal(old(jobs)[j].status, to) ==>
                && r == Success(old(jobs)[j].status)
                && |jobs| == |old(jobs)| && jobs == old(jobs)[j := jobs[j]]
                && jobs[j].status == to
                && jobs[j].config == old(jobs)[j].config
                && jobs[j].snapshot == snapshot.GetOr(old(jobs)[j].snapshot)
                && jobs[j].failureCode == old(jobs)[j].failureCode
                && jobs[j].finishedAt == (if to == Completed || to == Failed then Some(now) else old(jobs)[j].finishedAt)
                && jobs[j].queuedWrites == old(jobs)[j].queuedWrites + (if to == Queued then 1 else 0)
      ensures r.Failure? ==> jobs == old(jobs)
    {
      if j >= |jobs| {
        return Failure(NotFound);
      }
      var job := jobs[j];
      if !Legal(job.status, to) {
        return Failure(IllegalTransition);
      }
      var row := job.(status := to);
      if to == Completed || to == Failed {
        row := row.(finishedAt := Some(now));
      }
      if to == Queued {
        row := row.(queuedWrites := row.queuedWrites + 1);
      }
      if snapshot.Some? {
        row := row.(snapshot := snapshot.value);
      }
      jobs := jobs[j := row];
      return Success(job.status);
    }

    method DispatchInitialRow(j: JobId, snapshot: Snapshot)
      requires j < |jobs|
      modifies this
      ensures View() == DispatchInitial(old(View()), j, snapshot)
    {
      var waiting := AnyDepUnfinished(j);
      if waiting {
        jobs := jobs[j := jobs[j].(status := Blocked, snapshot := snapshot)];
        return;
      }
      jobs := jobs[j := jobs[j].(status := Queued, snapshot := snapshot, queuedWrites := jobs[j].queuedWrites + 1)];
      InsertExecution(j, 1, snapshot, Submitted, 0);
    }

    /** Looks at the statuses of j's dependencies one by one. */
    method AnyDepUnfinished(j: JobId) returns (waiting: bool)
      ensures waiting <==> !AllDepsCompleted(View(), j)
    {
      var rest := deps;
      waiting := false;
      while rest != {}
        invariant rest <= deps
        invariant waiting <==> exists p :: p in deps - rest && p.0 == j && p.1 < |jobs| && jobs[p.1].status != Completed
        decreases rest
      {
        var p: (JobId, JobId) :| p in rest;
        rest := rest - {p};
        if p.0 == j && p.1 < |jobs| && jobs[p.1].status != Completed {
          waiting := true;
        }
      }
    }

    method Submit(config: Config, dependsOn: seq<JobId>, catalog: Catalog) returns (r: Result<JobId, Refusal>)
      modifies this
      ensures match Create(old(View()), config, dependsOn, catalog)
              case Success(db) => View() == db && r == Success(|old(jobs)|)
              case Failure(e) => View() == old(View()) && r == Failure(e)
      ensures r.Success? ==>
                && r.value == |old(jobs)| && Recorded(old(View()), config, dependsOn, catalog, View())
                && (jobs[r.value].status == Blocked <==> SomeDependencyOpen(View(), r.value))
                && forall q: (JobId, JobId) :: q in deps <==>
                     q in old(deps) || (q.0 == r.value && q.1 in dependsOn && q.1 != r.value)
      ensures r.Failure? ==> View() == old(View())
      ensures catalog.requestValid && Usable(config, catalog) && catalog.nameFree ==>
                (r == Failure(DependencyNotFound) <==> exists d :: d in dependsOn && d != |old(jobs)| && d >= |old(jobs)|)
    {
      SubmissionsRecordTheirDependencies(View(), config, dependsOn, catalog);
      if !catalog.requestValid {
        return Failure(InvalidRequest);
      }
      var admitted := Admit(config, AsWritten, catalog);
      if admitted.Failure? {
        return Failure(admitted.error);
      }
      if !catalog.nameFree {
        return Failure(NameTaken);
      }
      var saved := View();
      var id := |jobs|;
      jobs := jobs + [Job(Queued, config, admitted.value, None, None, 0)];
      var wanted := Wanted(id, dependsOn);
      var rest := wanted;
      while rest != {}
        invariant rest <= wanted
        invariant forall d :: d in wanted && d !in rest ==> d < |jobs|
        invariant View() == saved.(jobs := saved.jobs + [Job(Queued, config, admitted.value, None, None, 0)])
        decreases rest
      {
        var d :| d in rest;
        if d >= |jobs| {
          assert d in wanted && d > id;
          Rollback(saved);
          return Failure(DependencyNotFound);
        }
        rest := rest - {d};
      }
      deps := deps + set d | d in wanted :: (id, d);
      assert View() == Inserted(saved, config, admitted.value, wanted);
      DispatchInitialRow(id, admitted.value);
      return Success(id);
    }

    method CloneJob(source: JobId, catalog: Catalog) returns (r: Result<JobId, Refusal>)
      modifies this
      ensures match Clone(old(View()), source, catalog)
              case Success(db) => View() == db && r == Success(|old(jobs)|)
              case Failure(e) => View() == old(View()) && r == Failure(e)
    {
      if source >= |jobs| {
        return Failure(NotFound);
      }
      var config := jobs[source].config;
      var admitted := Admit(config, AsStored, catalog);
      if admitted.Failure? {
        return Failure(admitted.error);
      }
      if !catalog.nameFree {
        return Failure(NameTaken);
      }
      var id := |jobs|;
      jobs := jobs + [Job(Queued, config, admitted.value, None, None, 0)];
      assert View() == Inserted(old(View()), config, admitted.value, {});
      DispatchInitialRow(id, admitted.value);
      return Success(id);
    }

    method Retry(j: JobId, catalog: Catalog) returns (r: Result<JobStatus, Refusal>)
      modifies this
      ensures match UserRetry(old(View()), j, catalog)
              case Success(db) => View() == db && r == Success(db.jobs[j].status)
              case Failure(e) => View() == old(View()) && r == Failure(e)
    {
      if j >= |jobs| {
        return Failure(NotFound);
      }
      if !Terminal(jobs[j].status) {
        return Failure(NotRetryable);
      }
      var admitted := Admit(jobs[j].config, AsStored, catalog);
      if admitted.Failure? {
        return Failure(admitted.error);
      }
      r := RetryAdmitted(j, admitted.value);
    }

    /** The retry of a finished job whose inputs were found good. */
    method RetryAdmitted(j: JobId, snapshot: Snapshot) returns (r: Result<JobStatus, Refusal>)
      requires j < |jobs| && Terminal(jobs[j].status)
      modifies this
      ensures match RetryWith(old(View()), j, snapshot)
              case Success(db) => View() == db && r == Success(db.jobs[j].status)
              case Failure(e) => View() == old(View()) && r == Failure(e)
    {
      var saved := View();
      jobs := jobs[j := jobs[j].(failureCode := None, finishedAt := None)];
      var waiting := AnyDepUnfinished(j);
      assert waiting <==> !AllDepsCompleted(saved, j);
      var latest := Latest(execs, j);
      if latest.None? {
        Rollback(saved);
        return Failure(NoExecution);
      }
      var next := execs[latest.value].attempt + 1;
      if waiting {
        r := Transition(j, Blocked, Some(snapshot));
        return Success(Blocked);
      }
      DispatchAgain(j, next, snapshot);
      return Success(Queued);
    }

    /** Queues a finished job and inserts its next execution. */
    method DispatchAgain(j: JobId, next: nat, snapshot: Snapshot)
      requires j < |jobs| && Terminal(jobs[j].status) && jobs[j].failureCode == None && jobs[j].finishedAt == None
      modifies this
      ensures var job := old(jobs)[j].(status := Queued, snapshot := snapshot, queuedWrites := old(jobs)[j].queuedWrites + 1);
              View() == Dispatch(PutJob(old(View()), j, job), j, next, snapshot, UserRetried, 0)
    {
      var t := Transition(j, Queued, Some(snapshot));
      InsertExecution(j, next, snapshot, UserRetried, 0);
    }

    method Stop(j: JobId) returns (r: Result<JobStatus, Refusal>)
      modifies this`jobs
      ensures match RequestStop(old(View()), j)
              case Success(db) => View() == db && r == Success(db.jobs[j].status)
              case Failure(e) => View() == old(View()) && r == Failure(e)
      ensures r.Failure? <==> j >= |old(jobs)| || old(jobs)[j].status in {Completed, Failed, Cancelled, Stopped, Stopping}
      ensures r.Failure? ==> jobs == old(jobs)
      ensures r.Success? ==>
                && |jobs| == |old(jobs)| && (forall k :: 0 <= k < |jobs| && k != j ==> jobs[k] == old(jobs)[k])
                && jobs[j] == old(jobs)[j].(status := if old(jobs)[j].status == Running then Stopping else Cancelled)
    {
      if j >= |jobs| {
        return Failure(NotFound);
      }
      var s := jobs[j].status;
      if s == Running {
        var t := Transition(j, Stopping, None);
        return Success(Stopping);
      }
      if s == Queued || s == Preparing || s == Scheduled || s == Blocked {
        var t := Transition(j, Cancelled, None);
        return Success(Cancelled);
      }
      return Failure(NotStoppable);
    }

    method InsertRetry(p: Params, j: JobId, origin: Origin)
      requires Latest(execs, j).Some?
      modifies this`execs, this`outbox, this`nextToken
      ensures View() == DispatchRetry(old(View()), p, j, origin)
    {
      var latest := execs[Latest(execs, j).value];
      var next := latest.attempt + 1;
      InsertExecution(j, next, latest.snapshot, origin, BackoffS(p, next));
    }

    /** One reconcile transaction; lost, retried and failed say which counters it raises. */
    method LoseOne(p: Params, e: ExecId) returns (lost: bool, retried: bool, failed: bool)
      modifies this
      ensures View() == Lose(old(View()), p, e)
      ensures lost <==> Loses(old(View()), e)
      ensures failed <==> LossFails(old(View()), p, e)
      ensures retried <==> |execs| == |old(execs)| + 1
      ensures !retried ==> |execs| == |old(execs)|
      ensures !(retried && failed) && (retried || failed ==> lost)
    {
      lost, retried, failed := false, false, false;
      if e >= |execs| || !Active(execs[e].status) {
        return;
      }
      ghost var before := View();
      var j := execs[e].jobId;
      var attempt := execs[e].attempt;
      execs := execs[e := execs[e].(status := Lost)];
      assert View() == PutExec(before, e, Lost);
      lost := true;
      if j < |jobs| && jobs[j].status == Stopping {
        jobs := jobs[j := jobs[j].(status := Stopped, finishedAt := Some(now))];
        failed := true;
        return;
      }
      if attempt >= p.maxAttempts {
        if j < |jobs| && !Terminal(jobs[j].status) {
          jobs := jobs[j := jobs[j].(status := Failed, failureCode := Some(EXECUTION_LOST), finishedAt := Some(now))];
        }
        failed := true;
        return;
      }
      if j >= |jobs| || Terminal(jobs[j].status) {
        return;
      }
      jobs := jobs[j := Requeued(jobs[j])];
      assert execs[e].jobId == j;
      InsertRetry(p, j, LossRetry(e));
      retried := true;
    }

    /** The reconcile stage over the executions the staleness query returned. */
    method Reconcile(p: Params, candidates: seq<ExecId>) returns (lost: nat, retried: nat, failed: nat)
      modifies this
      ensures View() == LoseAll(old(View()), p, candidates)
      ensures |execs| == |old(execs)| + retried
      ensures lost == Losses(old(View()), p, candidates) && failed == LossFailures(old(View()), p, candidates)
      ensures retried + failed <= lost <= |candidates|
    {
      lost, retried, failed := 0, 0, 0;
      for i := 0 to |candidates|
        invariant View() == LoseAll(old(View()), p, candidates[..i])
        invariant |execs| == |old(execs)| + retried
        invariant lost == Losses(old(View()), p, candidates[..i]) && failed == LossFailures(old(View()), p, candidates[..i])
        invariant retried + failed <= lost <= i
      {
        assert candidates[..i + 1][..i] == candidates[..i];
        var l, r, f := LoseOne(p, candidates[i]);
        if l { lost := lost + 1; }
        if r { retried := retried + 1; }
        if f { failed := failed + 1; }
      }
      assert candidates[..|candidates|] == candidates;
    }

    /** The error-retry stage. The candidates were read before the first transaction of the loop. */
    method RetryFailedJobs(p: Params, candidates: seq<JobId>) returns (retried: nat)
      requires forall j :: j in candidates ==> RetryCandidate(View(), p, j)
      modifies this
      ensures View() == RetryAll(old(View()), p, candidates)
      ensures |execs| == |old(execs)| + retried
    {
      retried := 0;
      for i := 0 to |candidates|
        invariant View() == RetryAll(old(View()), p, candidates[..i])
        invariant |execs| == |old(execs)| + retried
        invariant |jobs| == |old(jobs)|
      {
        assert candidates[..i + 1][..i] == candidates[..i];
        var j := candidates[i];
        assert j in candidates;
        if MaxAttempt(execs, j) < p.maxAttempts && jobs[j].status == Failed && Latest(execs, j).Some? {
          jobs := jobs[j := Requeued(jobs[j])];
          InsertRetry(p, j, ErrorRetry);
          retried := retried + 1;
        }
      }
      assert candidates[..|candidates|] == candidates;
    }

    /** One promote transaction. */
    method PromoteOne(j: JobId) returns (promoted: bool, failed: bool)
      modifies this
      ensures View() == Promote(old(View()), j)
      ensures promoted <==> |execs| == |old(execs)| + 1
      ensures !promoted ==> |execs| == |old(execs)|
      ensures !(promoted && failed)
      ensures promoted || failed <==> View() != old(View())
    {
      promoted, failed := false, false;
      if j >= |jobs| {
        return;
      }
      var anyFailed, allDone := false, true;
      var rest := deps;
      while rest != {}
        invariant rest <= deps
        invariant anyFailed <==>
                    (exists p :: p in deps - rest && p.0 == j && p.1 < |jobs| &&
                       (jobs[p.1].status == Failed || jobs[p.1].status == Cancelled || jobs[p.1].status == Stopped))
        invariant allDone <==> forall p :: p in deps - rest && p.0 == j && p.1 < |jobs| ==> jobs[p.1].status == Completed
        decreases rest
      {
        var p: (JobId, JobId) :| p in rest;
        rest := rest - {p};
        if p.0 == j && p.1 < |jobs| {
          var s := jobs[p.1].status;
          if s == Failed || s == Cancelled || s == Stopped { anyFailed := true; }
          if s != Completed { allDone := false; }
        }
      }
      assert deps - rest == deps;
      if anyFailed {
        if jobs[j].status == Blocked {
          jobs := jobs[j := jobs[j].(status := Failed, failureCode := Some(DEPENDENCY_FAILED), finishedAt := Some(now))];
          failed := true;
          assert View().jobs[j] != old(View()).jobs[j];
        }
        return;
      }
      if allDone && jobs[j].status == Blocked {
        var row := jobs[j];
        jobs := jobs[j := row.(status := Queued, queuedWrites := row.queuedWrites + 1)];
        InsertExecution(j, MaxAttempt(execs, j) + 1, row.snapshot, Unblocked, 0);
        promoted := true;
      }
    }

    /** The promote stage. Every change of the tables is counted once, as promoted or as failed. */
    method PromoteBlocked(candidates: seq<JobId>) returns (promoted: nat, failed: nat)
      modifies this
      ensures View() == Pass(old(View()), candidates)
      ensures |execs| == |old(execs)| + promoted
      ensures |BlockedJobs(View())| + promoted + failed == |BlockedJobs(old(View()))|
    {
      promoted, failed := 0, 0;
      for i := 0 to |candidates|
        invariant View() == Pass(old(View()), candidates[..i])
        invariant |execs| == |old(execs)| + promoted
        invariant |BlockedJobs(View())| + promoted + failed == |BlockedJobs(old(View()))|
      {
        PassExtend(old(View()), candidates[..i], candidates[i]);
        assert candidates[..i] + [candidates[i]] == candidates[..i + 1];
        PromoteShrinks(View(), candidates[i]);
        var p, f := PromoteOne(candidates[i]);
        if p { promoted := promoted + 1; }
        if f { failed := failed + 1; }
      }
      assert candidates[..|candidates|] == candidates;
    }
  }

  // ----- The stages are runs of the model ---------------------------------------

  /** The reconcile loop is one loss step per candidate. */
  lemma {:induction false} ReconcileIsARun(s: System, p: Params, order: seq<ExecId>, stage: seq<Step>)
    requires s.candidates == {} && |stage| == |order|
    requires forall i :: 0 <= i < |order| ==> stage[i] == DoLose(order[i])
    ensures Run(s, p, stage) == s.(db := LoseAll(s.db, p, order))
    decreases |order|
  {
    if order != [] {
      var n := |order| - 1;
      ReconcileIsARun(s, p, order[..n], stage[..n]);
      RunExtend(s, p, stage[..n], stage[n]);
      assert stage == stage[..n] + [stage[n]];
    }
  }

  ghost predicate Once(order: seq<JobId>) {
    forall i, k :: 0 <= i < k < |order| ==> order[i] != order[k]
  }

  function Members(order: seq<JobId>): set<JobId> {
    set j | j in order
  }

  lemma LastMember(order: seq<JobId>)
    requires Once(order) && order != []
    ensures var n := |order| - 1;
            Once(order[..n]) && order[n] !in order[..n] && Members(order) == Members(order[..n]) + {order[n]}
  {
    var n := |order| - 1;
    assert order == order[..n] + [order[n]];
  }

  lemma RetryOne(s: System, p: Params, j: JobId)
    requires j in s.candidates
    ensures Apply(s, p, DoRetryFailed(j)).db == RetryFailed(s.db, p, j)
    ensures Apply(s, p, DoRetryFailed(j)).candidates == s.candidates - {j}
  {
  }

  /** The error-retry loop is one retry step per candidate, each candidate once. */
  lemma {:induction false} RetryStageIsARun(s: System, p: Params, order: seq<JobId>, stage: seq<Step>)
    requires |stage| == |order| && forall i :: 0 <= i < |order| ==> stage[i] == DoRetryFailed(order[i])
    requires Once(order) && Members(order) <= s.candidates
    ensures Run(s, p, stage).db == RetryAll(s.db, p, order)
    ensures Run(s, p, stage).candidates == s.candidates - Members(order)
    decreases |order|
  {
    if order != [] {
      var n := |order| - 1;
      LastMember(order);
      RetryStageIsARun(s, p, order[..n], stage[..n]);
      var mid := Run(s, p, stage[..n]);
      assert order[n] in Members(order);
      RetryOne(mid, p, order[n]);
      assert stage == stage[..n] + [DoRetryFailed(order[n])];
      RunExtend(s, p, stage[..n], DoRetryFailed(order[n]));
    }
  }
}
