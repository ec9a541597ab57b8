/**
 Concrete runs. In the first, without any user retry, a worker that outlives its lost
 execution lets the scheduler pass the limit on attempts. In the second a retry records
 a hash that is no longer the job's, and queues the job before its dependency is done.
 In the third a finished job cannot be retried.
 */
module TrainingCounterexamples {
  import opened Wrappers
  import opened TrainingModel
  import opened TrainingTables
  import opened TrainingRetries
  import opened TrainingSnapshots
  import opened TrainingTransitions

  const DATA := Catalog(map[0 := DatasetRow(true, "DETECT", 0)], map[], true, true, true)
  const CONFIG := Config(0, None, "")
  const LIMITS := Params(3, 20, 600, 3600)

  /** What a worker reports when storing its results fails. */
  const UPLOAD_FAILED := "STORAGE_TEMPORARY_FAILURE"

  const SETUP: seq<Step> := [DoCreate(CONFIG, [], DATA), DoClaim(0, 0), DoStart(0), DoLose(0), DoClaim(1, 1)]
  const ZOMBIE: seq<Step> := [DoFail(0, UPLOAD_FAILED), DoSelectFailed, DoRetryFailed(0), DoLose(1)]

  const SNAPSHOT := Snapshot(CONFIG, "DETECT", 0, AsWritten)

  /** After one automatic loss retry: the first worker still runs, the second holds the job. */
  function SecondAttempt(): System {
    System(
      Db([Job(Preparing, CONFIG, SNAPSHOT, None, None, 2)], {},
         [Execution(0, 1, Lost, 0, SNAPSHOT, Submitted), Execution(0, 2, ExecRunning, 1, SNAPSHOT, LossRetry(0))],
         [Event(0, 0, 0, 1, 0), Event(1, 1, 0, 2, 20)], 2, 0),
      {0, 1}, {})
  }

  /** The first worker is training. */
  function Started(): System {
    System(
      Db([Job(Running, CONFIG, SNAPSHOT, None, None, 1)], {},
         [Execution(0, 1, ExecRunning, 0, SNAPSHOT, Submitted)], [Event(0, 0, 0, 1, 0)], 1, 0),
      {0}, {})
  }

  lemma StartReaches()
    ensures Run(INITIAL, LIMITS, SETUP[..3]) == Started()
  {
    var steps := SETUP[..3];
    var s1 := Apply(INITIAL, LIMITS, steps[0]);
    assert Wanted(0, []) == {};
    assert s1.db.jobs == [Job(Queued, CONFIG, SNAPSHOT, None, None, 1)];
    assert s1.db.deps == {};
    assert s1.db.execs == [Execution(0, 1, Assigned, 0, SNAPSHOT, Submitted)];
    assert s1.db.outbox == [Event(0, 0, 0, 1, 0)];
    var s2 := Apply(s1, LIMITS, steps[1]);
    assert s2.db.jobs == [Job(Preparing, CONFIG, SNAPSHOT, None, None, 1)];
    assert s2.db.execs == [Execution(0, 1, ExecRunning, 0, SNAPSHOT, Submitted)];
    assert s2.alive == {0};
    var s3 := Apply(s2, LIMITS, steps[2]);
    assert s3 == Started();
    assert steps[1..][1..][1..] == [];
    RunOne(INITIAL, LIMITS, steps);
    RunOne(s1, LIMITS, steps[1..]);
    RunOne(s2, LIMITS, steps[1..][1..]);
  }

  /** A started job goes back to the queue, which the table of legal changes does not have. */
  lemma TheTableCanBeLeft() returns (steps: seq<Step>)
    ensures var s := Run(INITIAL, LIMITS, steps);
            && LeavesTheTable(s, LIMITS, DoLose(0), 0)
            && s.db.jobs[0].status == Running
            && 0 < |Apply(s, LIMITS, DoLose(0)).db.jobs| && Apply(s, LIMITS, DoLose(0)).db.jobs[0].status == Queued
            && !Legal(Running, Queued)
  {
    steps := SETUP[..3];
    StartReaches();
    QueuedWritesAreCounted(Started(), LIMITS, DoLose(0), 0);
  }

  lemma LossReaches()
    ensures Run(Started(), LIMITS, SETUP[3..]) == SecondAttempt()
  {
    var s0 := Started();
    var s1 := Apply(s0, LIMITS, SETUP[3]);
    var lost := PutExec(s0.db, 0, Lost);
    assert lost.execs == [Execution(0, 1, Lost, 0, SNAPSHOT, Submitted)];
    assert lost.execs[0].jobId == 0;
    assert Latest(lost.execs, 0) == Some(0);
    assert Pow2(0) == 1 && BackoffS(LIMITS, 2) == 20;
    assert s1.db.jobs == [Job(Queued, CONFIG, SNAPSHOT, None, None, 2)];
    assert s1.db.execs == SecondAttempt().db.execs[1 := Execution(0, 2, Assigned, 1, SNAPSHOT, LossRetry(0))];
    assert s1.db.outbox == SecondAttempt().db.outbox;
    var s2 := Apply(s1, LIMITS, SETUP[4]);
    assert s2 == SecondAttempt();
    assert SETUP[3..][1..][1..] == [];
    RunOne(s0, LIMITS, SETUP[3..]);
    RunOne(s1, LIMITS, SETUP[3..][1..]);
  }

  lemma SetupReaches()
    ensures Run(INITIAL, LIMITS, SETUP) == SecondAttempt()
  {
    StartReaches();
    LossReaches();
    assert SETUP == SETUP[..3] + SETUP[3..];
    RunAppend(INITIAL, LIMITS, SETUP[..3], SETUP[3..]);
  }

  /** The zombie failed the job with a retriable code, so the error retry added attempt 3. */
  function ThirdAttempt(): System {
    System(
      Db([Job(Queued, CONFIG, SNAPSHOT, None, None, 3)], {},
         [Execution(0, 1, ExecFailed, 0, SNAPSHOT, Submitted), Execution(0, 2, ExecRunning, 1, SNAPSHOT, LossRetry(0)),
          Execution(0, 3, Assigned, 2, SNAPSHOT, ErrorRetry)],
         [Event(0, 0, 0, 1, 0), Event(1, 1, 0, 2, 20), Event(2, 2, 0, 3, 40)], 3, 0),
      {1}, {})
  }

  lemma ZombieFailsTheJob()
    ensures Run(SecondAttempt(), LIMITS, ZOMBIE[..3]) == ThirdAttempt()
  {
    var s0 := SecondAttempt();
    var failed := Job(Failed, CONFIG, SNAPSHOT, Some(UPLOAD_FAILED), Some(0), 2);
    var s1 := Apply(s0, LIMITS, DoFail(0, UPLOAD_FAILED));
    assert s1.db.jobs == [failed];
    assert s1.db.execs == ThirdAttempt().db.execs[..2];
    assert s1.alive == {1};
    var s2 := Apply(s1, LIMITS, DoSelectFailed);
    assert RetryCandidate(s1.db, LIMITS, 0);
    assert s2.candidates == {0};
    assert s2.db.execs[1].jobId == 0 && MaxAttempt(s2.db.execs, 0) == 2;
    assert Latest(s2.db.execs, 0) == Some(1);
    assert Pow2(1) == 2 && BackoffS(LIMITS, 3) == 40;
    var s3 := Apply(s2, LIMITS, DoRetryFailed(0));
    assert s3.db.execs == ThirdAttempt().db.execs;
    assert s3.db.jobs == ThirdAttempt().db.jobs;
    assert s3 == ThirdAttempt();
    var steps := ZOMBIE[..3];
    assert steps[1..][1..][1..] == [];
    RunOne(s0, LIMITS, steps);
    RunOne(s1, LIMITS, steps[1..]);
    RunOne(s2, LIMITS, steps[1..][1..]);
  }

  lemma LosingTheOlderExecution()
    ensures var db := Apply(ThirdAttempt(), LIMITS, DoLose(1)).db;
            |db.execs| == 4 && db.execs[3].attempt == 4
  {
    var db := ThirdAttempt().db;
    LoseShape(db, LIMITS, 1);
    assert db.execs[2].jobId == 0 && MaxAttempt(db.execs, 0) == 3;
  }

  /** The limit on attempts is not an invariant of the code, even when no user ever retries. */
  lemma LimitCanBePassed() returns (steps: seq<Step>)
    ensures forall i :: 0 <= i < |steps| ==> !steps[i].DoUserRetry?
    ensures exists e :: 0 <= e < |Run(INITIAL, LIMITS, steps).db.execs| &&
              Run(INITIAL, LIMITS, steps).db.execs[e].attempt > LIMITS.maxAttempts
  {
    steps := SETUP + ZOMBIE;
    SetupReaches();
    RunAppend(INITIAL, LIMITS, SETUP, ZOMBIE);
    assert ZOMBIE == ZOMBIE[..3] + [DoLose(1)];
    RunAppend(SecondAttempt(), LIMITS, ZOMBIE[..3], [DoLose(1)]);
    ZombieFailsTheJob();
    RunOne(ThirdAttempt(), LIMITS, [DoLose(1)]);
    LosingTheOlderExecution();
    assert Run(INITIAL, LIMITS, steps).db.execs[3].attempt == 4;
  }

  // ----- An old hash ------------------------------------------------------------

  const TYPES: Types := map[0 := ("DETECT", 0)]

  const FIRST_JOB: seq<Step> := [DoCreate(CONFIG, [], DATA), DoClaim(0, 0), DoStart(0), DoComplete(0)]
  const SECOND_JOB: seq<Step> := [DoCreate(CONFIG, [0], DATA), DoClaim(1, 1), DoRequestStop(1)]
  const RETRY_BOTH: seq<Step> := [DoUserRetry(0, DATA), DoUserRetry(1, DATA)]

  function FirstJobDone(): System {
    System(Db([Job(Completed, CONFIG, SNAPSHOT, None, Some(0), 1)], {},
              [Execution(0, 1, Succeeded, 0, SNAPSHOT, Submitted)], [Event(0, 0, 0, 1, 0)], 1, 0), {}, {})
  }

  function SecondJobCancelled(): System {
    System(Db([Job(Completed, CONFIG, SNAPSHOT, None, Some(0), 1), Job(Cancelled, CONFIG, SNAPSHOT, None, None, 1)],
              {(1, 0)},
              [Execution(0, 1, Succeeded, 0, SNAPSHOT, Submitted), Execution(1, 1, ExecRunning, 1, SNAPSHOT, Submitted)],
              [Event(0, 0, 0, 1, 0), Event(1, 1, 1, 1, 0)], 2, 0), {1}, {})
  }

  function FirstJobQueued(): System {
    System(Db([Job(Queued, CONFIG, SNAPSHOT, None, None, 1)], {},
              [Execution(0, 1, Assigned, 0, SNAPSHOT, Submitted)], [Event(0, 0, 0, 1, 0)], 1, 0), {}, {})
  }

  lemma FirstJobIsQueued()
    ensures Apply(INITIAL, LIMITS, FIRST_JOB[0]) == FirstJobQueued()
  {
    assert Wanted(0, []) == {};
    assert Apply(INITIAL, LIMITS, FIRST_JOB[0]).db.deps == {};
  }

  lemma FirstJobEnds()
    ensures Apply(Apply(Apply(FirstJobQueued(), LIMITS, DoClaim(0, 0)), LIMITS, DoStart(0)), LIMITS, DoComplete(0)) == FirstJobDone()
  {
    var s3 := Apply(Apply(FirstJobQueued(), LIMITS, DoClaim(0, 0)), LIMITS, DoStart(0));
    assert s3.db.jobs == [Job(Running, CONFIG, SNAPSHOT, None, None, 1)];
    assert s3.db.execs == [Execution(0, 1, ExecRunning, 0, SNAPSHOT, Submitted)];
    assert s3.alive - {0} == {};
  }

  lemma FirstJobRuns()
    ensures Run(INITIAL, LIMITS, FIRST_JOB) == FirstJobDone()
  {
    RunOne(INITIAL, LIMITS, FIRST_JOB);
    FirstJobIsQueued();
    RunThree(FirstJobQueued(), LIMITS, FIRST_JOB[1..]);
    FirstJobEnds();
  }

  lemma SecondJobIsCancelled()
    ensures Run(FirstJobDone(), LIMITS, SECOND_JOB) == SecondJobCancelled()
  {
    var s0 := FirstJobDone();
    var s1 := Apply(s0, LIMITS, SECOND_JOB[0]);
    assert Wanted(1, [0]) == {0};
    assert s1.db.deps == {(1, 0)};
    assert s1.db.jobs == s0.db.jobs + [Job(Queued, CONFIG, SNAPSHOT, None, None, 1)];
    assert s1.db.execs == s0.db.execs + [Execution(1, 1, Assigned, 1, SNAPSHOT, Submitted)];
    assert s1.db.outbox == SecondJobCancelled().db.outbox;
    var s2 := Apply(s1, LIMITS, SECOND_JOB[1]);
    var s3 := Apply(s2, LIMITS, SECOND_JOB[2]);
    assert s3.db.jobs == SecondJobCancelled().db.jobs;
    assert s3.db.execs == SecondJobCancelled().db.execs;
    assert s3 == SecondJobCancelled();
    RunThree(s0, LIMITS, SECOND_JOB);
  }

  lemma RetryBlocksSecondJob()
    ensures var s := Run(SecondJobCancelled(), LIMITS, RETRY_BOTH);
            && s.candidates == {} && Behind(s.db, 1) && s.db.jobs[1].status == Blocked && !AllDepsCompleted(s.db, 1)
            && |s.db.execs| == 3 && s.db.execs[1] == SecondJobCancelled().db.execs[1] && |s.db.jobs| == 2
  {
    var s0 := SecondJobCancelled();
    assert s0.db.execs[0].jobId == 0 && s0.db.execs[1].jobId == 1;
    assert MaxAttempt(s0.db.execs, 0) == 1;
    var s1 := Apply(s0, LIMITS, RETRY_BOTH[0]);
    assert s1.db.jobs[0].status == Queued && s1.db.execs[2].jobId == 0;
    var s2 := Apply(s1, LIMITS, RETRY_BOTH[1]);
    assert (1, 0) in s1.db.deps && !AllDepsCompleted(s1.db, 1);
    assert s1.db.execs[1].jobId == 1;
    assert s2.db.jobs[1].snapshot == Snapshot(CONFIG, "DETECT", 0, AsStored);
    assert (1, 0) in s2.db.deps && !AllDepsCompleted(s2.db, 1);
    assert Latest(s2.db.execs, 1) == Some(1);
    assert RETRY_BOTH[1..][1..] == [];
    RunOne(s0, LIMITS, RETRY_BOTH);
    RunOne(s1, LIMITS, RETRY_BOTH[1..]);
  }

  lemma StaleRunReaches()
    ensures Run(INITIAL, LIMITS, FIRST_JOB + SECOND_JOB + RETRY_BOTH) == Run(SecondJobCancelled(), LIMITS, RETRY_BOTH)
  {
    FirstJobRuns();
    SecondJobIsCancelled();
    RunAppend(INITIAL, LIMITS, FIRST_JOB, SECOND_JOB);
    RunAppend(INITIAL, LIMITS, FIRST_JOB + SECOND_JOB, RETRY_BOTH);
  }

  /** Whether the last execution inserted between two states belongs to j and has another hash than j. */
  predicate RecordedOldHash(before: Db, after: Db, j: JobId) {
    && |after.execs| == |before.execs| + 1
    && after.execs[|before.execs|].jobId == j < |after.jobs|
    && after.execs[|before.execs|].snapshot != after.jobs[j].snapshot
  }

  lemma LossRecordsOldHash(s: System)
    requires s.candidates == {} && Behind(s.db, 1) && s.db.jobs[1].status == Blocked
    requires |s.db.execs| == 3 && s.db.execs[1] == SecondJobCancelled().db.execs[1]
    ensures RecordedOldHash(s.db, Apply(s, LIMITS, DoLose(1)).db, 1)
    ensures Apply(s, LIMITS, DoLose(1)).db.jobs[1].status == Queued
  {
    ActiveExecutionRevivesTheOldHash(s, LIMITS, 1);
    QueuedWritesAreCounted(s, LIMITS, DoLose(1), 1);
  }

  lemma NothingChangesType()
    ensures forall i :: 0 <= i < |FIRST_JOB| ==> Stable(TYPES, FIRST_JOB[i])
    ensures forall i :: 0 <= i < |SECOND_JOB| ==> Stable(TYPES, SECOND_JOB[i])
    ensures forall i :: 0 <= i < |RETRY_BOTH| ==> Stable(TYPES, RETRY_BOTH[i])
  {
    assert AgreesWith(TYPES, DATA);
  }

  /**
   A loss retry can record a hash that is not the job's, although no dataset changes; and it
   queues a blocked job whose dependency is not completed.
   */
  lemma OldHashCanBeRecorded() returns (steps: seq<Step>)
    ensures forall i :: 0 <= i < |steps| ==> Stable(TYPES, steps[i])
    ensures var s := Run(INITIAL, LIMITS, steps);
            && RecordedOldHash(s.db, Apply(s, LIMITS, DoLose(1)).db, 1)
            && s.db.jobs[1].status == Blocked && !AllDepsCompleted(s.db, 1)
            && Apply(s, LIMITS, DoLose(1)).db.jobs[1].status == Queued
  {
    steps := FIRST_JOB + SECOND_JOB + RETRY_BOTH;
    NothingChangesType();
    StaleRunReaches();
    RetryBlocksSecondJob();
    LossRecordsOldHash(Run(SecondJobCancelled(), LIMITS, RETRY_BOTH));
  }

  // ----- A job that was never queued ----------------------------------------------

  const NEVER_QUEUED: seq<Step> := [DoCreate(CONFIG, [], DATA), DoCreate(CONFIG, [0], DATA), DoRequestStop(1)]

  /** A queued job and one that waits for it. */
  function TwoSubmitted(): System {
    System(Db([Job(Queued, CONFIG, SNAPSHOT, None, None, 1), Job(Blocked, CONFIG, SNAPSHOT, None, None, 0)], {(1, 0)},
              [Execution(0, 1, Assigned, 0, SNAPSHOT, Submitted)], [Event(0, 0, 0, 1, 0)], 1, 0), {}, {})
  }

  lemma TwoAreSubmitted()
    ensures Apply(Apply(INITIAL, LIMITS, NEVER_QUEUED[0]), LIMITS, NEVER_QUEUED[1]) == TwoSubmitted()
  {
    FirstJobIsQueued();
    assert Wanted(1, [0]) == {0};
    var s2 := Apply(FirstJobQueued(), LIMITS, NEVER_QUEUED[1]);
    assert s2.db.deps == {(1, 0)};
    assert s2.db.jobs == TwoSubmitted().db.jobs;
  }

  lemma CancelledWithoutExecution(db: Db)
    requires db == Apply(TwoSubmitted(), LIMITS, DoRequestStop(1)).db
    ensures |db.jobs| == 2 && db.jobs[1].status == Cancelled && UserRetry(db, 1, DATA) == Failure(NoExecution)
  {
    assert db.execs == [Execution(0, 1, Assigned, 0, SNAPSHOT, Submitted)];
    assert db.execs[0].jobId == 0 && Latest(db.execs, 1) == None;
    assert db.jobs[1] == Job(Cancelled, CONFIG, SNAPSHOT, None, None, 0);
    assert Admit(CONFIG, AsStored, DATA).Success?;
  }

  /** A job cancelled while it waits for its dependency has no execution, so it cannot be retried. */
  lemma SomeFinishedJobsCannotBeRetried()
    ensures var db := Run(INITIAL, LIMITS, NEVER_QUEUED).db;
            && |db.jobs| == 2 && db.jobs[1].status == Cancelled && UserRetry(db, 1, DATA) == Failure(NoExecution)
  {
    RunThree(INITIAL, LIMITS, NEVER_QUEUED);
    TwoAreSubmitted();
    CancelledWithoutExecution(Run(INITIAL, LIMITS, NEVER_QUEUED).db);
  }
}
