/**
 Whether a queued run can still be started: always, as long as no worker writes
 after its execution was declared lost; otherwise a run can be left QUEUED with
 nothing queued in it.
 */
module InferenceProgress {
  import opened InferenceModel
  import opened InferenceInvariants

  predicate HasQueued(children: seq<ChildStatus>) {
    exists i :: 0 <= i < |children| && children[i] == Queued
  }

  /** A run waiting to be started although no child is waiting. */
  predicate Stranded(a: Aggregate) {
    a.status == RunQueued && !AnyPending(a.children)
  }

  // ----- Two ways a run is stranded ------------------------------------------------

  lemma RunOne(s: System, steps: seq<Step>)
    requires steps != []
    ensures Run(s, steps) == Run(Apply(s, steps[0]), steps[1..])
  {
  }

  /** A run of one dataset. */
  function One(run: RunStatus, failed: nat, row: ChildStatus, execs: seq<Exec>): Aggregate {
    Aggregate(run, 1, 0, failed, [row], execs)
  }

  lemma FreshOne()
    ensures Fresh(1) == System(One(RunQueued, 0, Queued, [Exec(0, Assigned)]), {})
  {
    assert Fresh(1).a.children == [Queued] && Fresh(1).a.execs == [Exec(0, Assigned)];
  }

  lemma CountOne(row: ChildStatus, c: ChildStatus)
    ensures CountOf([row], c) == if row == c then 1 else 0
  {
    assert [row][..0] == [];
  }

  lemma FinalizeOne(run: RunStatus, failed: nat, row: ChildStatus, execs: seq<Exec>)
    requires row == Failed || row == Stopped
    ensures Finalize(One(run, failed, row, execs)) ==
            One(if run != RunRunning && run != RunStopping then run else if row == Stopped then RunStopped else RunFailed,
                if row == Failed then 1 else 0, row, execs)
  {
    CountOne(row, Completed);
    CountOne(row, Failed);
    CountOne(row, Stopped);
  }

  lemma ToRetryOne(row: ChildStatus)
    requires RetryableChild(row)
    ensures ToRetry([row]) == [0]
  {
    assert [row][..0] == [];
  }

  lemma RetryOne(run: RunStatus, failed: nat, row: ChildStatus, execs: seq<Exec>, alive: set<nat>)
    requires RetryableRun(run) && RetryableChild(row)
    ensures Apply(System(One(run, failed, row, execs), alive), DoRetry(Inputs(true, true))) ==
            System(One(RunQueued, 0, Queued, execs + [Exec(0, Assigned)]), alive)
  {
    ToRetryOne(row);
    var a' := Retried(One(run, failed, row, execs));
    assert a'.children == [Queued];
    assert a'.execs == execs + [Exec(0, Assigned)];
  }

  /** A worker failing the only dataset of a queued run strands it. */
  lemma LateFailOne(execs: seq<Exec>, alive: set<nat>)
    requires execs != [] && execs[0].child == 0 && 0 in alive
    ensures Stranded(Apply(System(One(RunQueued, 0, Queued, execs), alive), DoFail(0)).a)
  {
    var z := Apply(System(One(RunQueued, 0, Queued, execs), alive), DoFail(0));
    FinalizeOne(RunQueued, 0, Failed, z.a.execs);
    assert z.a == One(RunQueued, 1, Failed, z.a.execs);
  }

  lemma RunThree(s: System, steps: seq<Step>)
    requires |steps| == 3
    ensures Run(s, steps) == Apply(Apply(Apply(s, steps[0]), steps[1]), steps[2])
  {
    RunOne(s, steps);
    RunOne(Apply(s, steps[0]), steps[1..]);
    RunOne(Apply(Apply(s, steps[0]), steps[1]), steps[1..][1..]);
    assert steps[1..][1..][1..] == [];
  }

  /** The first worker outlives its lost execution and fails the dataset a user retry queued again. */
  const LATE_FAILURE: seq<Step> := [DoClaim(0), DoLose(0), DoRetry(Inputs(true, true)), DoFail(0)]

  lemma LateFailureStrands()
    ensures Stranded(Run(Fresh(1), LATE_FAILURE).a)
  {
    FreshOne();
    var s1 := Apply(Fresh(1), LATE_FAILURE[0]);
    assert s1 == System(One(RunRunning, 0, Running, [Exec(0, Active)]), {0});
    var s2 := Apply(s1, LATE_FAILURE[1]);
    FinalizeOne(RunRunning, 0, Failed, [Exec(0, Lost)]);
    assert s2 == System(One(RunFailed, 1, Failed, [Exec(0, Lost)]), {0});
    RetryOne(RunFailed, 1, Failed, [Exec(0, Lost)], {0});
    var s3 := Apply(s2, LATE_FAILURE[2]);
    LateFailOne([Exec(0, Lost)] + [Exec(0, Assigned)], {0});
    assert LATE_FAILURE[1..][1..][1..][1..] == [];
    RunOne(Fresh(1), LATE_FAILURE);
    RunOne(s1, LATE_FAILURE[1..]);
    RunOne(s2, LATE_FAILURE[1..][1..]);
    RunOne(s3, LATE_FAILURE[1..][1..][1..]);
  }

  /**
   Cancelling and retrying leaves two claimable executions. The second is claimed
   while the first is being stopped and ends the dataset early; after one more
   retry the first worker, never declared lost, fails the queued dataset.
   */
  const TWO_CLAIMS: seq<Step> :=
    [DoStop, DoRetry(Inputs(true, true)), DoClaim(0), DoStop, DoClaim(1), DoRetry(Inputs(true, true)), DoFail(0)]

  lemma TwoClaimsReach()
    ensures Run(Fresh(1), TWO_CLAIMS[..4]) == System(One(RunStopping, 0, Stopping, [Exec(0, Active), Exec(0, Assigned)]), {0})
  {
    var steps := TWO_CLAIMS[..4];
    FreshOne();
    var s1 := Apply(Fresh(1), steps[0]);
    assert Recast([Queued], Queued, Cancelled) == [Cancelled];
    assert s1 == System(One(RunCancelled, 0, Cancelled, [Exec(0, Assigned)]), {});
    RetryOne(RunCancelled, 0, Cancelled, [Exec(0, Assigned)], {});
    var s2 := Apply(s1, steps[1]);
    var s3 := Apply(s2, steps[2]);
    assert s3 == System(One(RunRunning, 0, Running, [Exec(0, Active), Exec(0, Assigned)]), {0});
    var s4 := Apply(s3, steps[3]);
    assert Recast([Running], Queued, Stopping) == [Running] && Recast([Running], Running, Stopping) == [Stopping];
    assert steps[1..][1..][1..][1..] == [];
    RunOne(Fresh(1), steps);
    RunOne(s1, steps[1..]);
    RunOne(s2, steps[1..][1..]);
    RunOne(s3, steps[1..][1..][1..]);
  }

  lemma TwoClaimsStrand()
    ensures Stranded(Run(System(One(RunStopping, 0, Stopping, [Exec(0, Active), Exec(0, Assigned)]), {0}), TWO_CLAIMS[4..]).a)
  {
    var steps := TWO_CLAIMS[4..];
    var s4 := System(One(RunStopping, 0, Stopping, [Exec(0, Active), Exec(0, Assigned)]), {0});
    var s5 := Apply(s4, steps[0]);
    FinalizeOne(RunStopping, 0, Stopped, [Exec(0, Active), Exec(0, ExecStopped)]);
    assert s5 == System(One(RunStopped, 0, Stopped, [Exec(0, Active), Exec(0, ExecStopped)]), {0});
    RetryOne(RunStopped, 0, Stopped, [Exec(0, Active), Exec(0, ExecStopped)], {0});
    LateFailOne([Exec(0, Active), Exec(0, ExecStopped)] + [Exec(0, Assigned)], {0});
    RunThree(s4, steps);
  }

  lemma {:induction false} RunAppend(s: System, a: seq<Step>, b: seq<Step>)
    ensures Run(s, a + b) == Run(Run(s, a), b)
    decreases |a|
  {
    if a == [] {
      assert a + b == b;
    } else {
      assert (a + b)[1..] == a[1..] + b;
      RunAppend(Apply(s, a[0]), a[1..], b);
    }
  }

  lemma StrandedLater(s: System, mid: System, a: seq<Step>, b: seq<Step>, steps: seq<Step>)
    requires Run(s, a) == mid && Stranded(Run(mid, b).a) && steps == a + b
    ensures Stranded(Run(s, steps).a)
  {
    RunAppend(s, a, b);
  }

  /** The whole run: no execution of it is ever declared lost. */
  lemma TwoClaimsStrandTheRun()
    ensures Stranded(Run(Fresh(1), TWO_CLAIMS).a)
  {
    TwoClaimsReach();
    TwoClaimsStrand();
    StrandedLater(Fresh(1), System(One(RunStopping, 0, Stopping, [Exec(0, Active), Exec(0, Assigned)]), {0}),
                  TWO_CLAIMS[..4], TWO_CLAIMS[4..], TWO_CLAIMS);
  }

  /** Nothing but the user's stop or delete moves a stranded run; a retry of it is refused. */
  lemma StrandedIsStuck(s: System, step: Step)
    requires Valid(s.a) && Stranded(s.a) && step != DoStop && step != DoDelete
    ensures Stranded(Apply(s, step).a)
  {
    var a' := Apply(s, step).a;
    assert forall i :: 0 <= i < |s.a.children| ==> !Pending(s.a.children[i]);
    assert |a'.children| == |s.a.children|;
    assert forall i :: 0 <= i < |a'.children| ==> !Pending(a'.children[i]);
  }

  /** The step that strands a run: a late failure, or a loss, of its only queued dataset. */
  predicate Strands(s: System, step: Step) {
    && s.a.status == RunQueued
    && match step
       case DoFail(e) => Held(s, e) && OnlyQueued(s.a.children, s.a.execs[e].child)
       case DoComplete(e) => Held(s, e) && OnlyQueued(s.a.children, s.a.execs[e].child)
       case DoLose(e) => e < |s.a.execs| && s.a.execs[e].status == Active && OnlyQueued(s.a.children, s.a.execs[e].child)
       case _ => false
  }

  predicate OnlyQueued(children: seq<ChildStatus>, c: nat) {
    c < |children| && forall i :: 0 <= i < |children| ==> (children[i] == Queued <==> i == c)
  }

  /** From a run that is not stranded, exactly those steps strand it. */
  lemma StrandsExactly(s: System, step: Step)
    requires Valid(s.a) && !Stranded(s.a)
    ensures Stranded(Apply(s, step).a) <==> Strands(s, step)
  {
    if s.a.status == RunQueued {
      var i :| 0 <= i < |s.a.children| && Pending(s.a.children[i]);
      StrandsFromQueued(s, step, i);
    } else {
      NotStrandedByArrival(s, step);
    }
  }

  lemma UsersQueueByRetryOnly(s: System, step: Step)
    requires Valid(s.a) && s.a.status != RunQueued && (step.DoStop? || step.DoDelete?)
    ensures Apply(s, step).a.status != RunQueued
  {
  }

  lemma WorkersQueueNothing(s: System, step: Step)
    requires Valid(s.a) && s.a.status != RunQueued && (step.DoComplete? || step.DoFail? || step.DoStopped?)
    ensures Apply(s, step).a.status != RunQueued
  {
  }

  /** A run only becomes QUEUED by a retry. */
  lemma OnlyRetriesQueue(s: System, step: Step)
    requires Valid(s.a) && s.a.status != RunQueued && !step.DoRetry?
    ensures Apply(s, step).a.status != RunQueued
  {
    if step.DoStop? || step.DoDelete? {
      UsersQueueByRetryOnly(s, step);
    } else if step.DoComplete? || step.DoFail? || step.DoStopped? {
      WorkersQueueNothing(s, step);
    }
  }

  lemma RetryIsNotStranded(a: Aggregate, inputs: Inputs)
    requires Valid(a) && Retry(a, inputs).Done?
    ensures !Stranded(Retry(a, inputs).a)
  {
    var c := ToRetry(a.children)[0];
    assert Pending(Retry(a, inputs).a.children[c]);
  }

  lemma NotStrandedByArrival(s: System, step: Step)
    requires Valid(s.a) && s.a.status != RunQueued
    ensures !Stranded(Apply(s, step).a)
  {
    if !step.DoRetry? {
      OnlyRetriesQueue(s, step);
    } else if Retry(s.a, step.inputs).Done? {
      RetryIsNotStranded(s.a, step.inputs);
    }
  }

  lemma StrandsFromQueued(s: System, step: Step, i: nat)
    requires Valid(s.a) && s.a.status == RunQueued && i < |s.a.children| && s.a.children[i] == Queued
    ensures Stranded(Apply(s, step).a) <==> Strands(s, step)
  {
    var a' := Apply(s, step).a;
    match step
    case DoFail(e) => FailOrLose(s, e, a');
    case DoComplete(e) => FailOrLose(s, e, a');
    case DoLose(e) => FailOrLose(s, e, a');
    case DoClaim(e) => assert a'.status == RunQueued ==> a'.children[i] == Queued;
    case DoStopped(e) => assert a'.children == s.a.children;
    case DoCrash(_) => assert a'.children[i] == Queued;
    case _ =>
  }

  /** One row of a queued run failing leaves it without queued rows exactly if it was the only one. */
  lemma FailOrLose(s: System, e: nat, a': Aggregate)
    requires Valid(s.a) && s.a.status == RunQueued && HasQueued(s.a.children)
    requires |a'.children| == |s.a.children|
    requires a'.children == s.a.children ||
             (e < |s.a.execs| && a'.children == s.a.children[s.a.execs[e].child := Failed])
    ensures !AnyPending(a'.children) <==> e < |s.a.execs| && OnlyQueued(s.a.children, s.a.execs[e].child) && a'.children != s.a.children
  {
    var q :| 0 <= q < |s.a.children| && s.a.children[q] == Queued;
    if a'.children == s.a.children {
      assert Pending(a'.children[q]);
    } else {
      var c := s.a.execs[e].child;
      forall k | 0 <= k < |s.a.children| && s.a.children[k] == Queued && k != c
        ensures AnyPending(a'.children)
      {
        assert Pending(a'.children[k]);
      }
    }
  }

  // ----- Orderly runs --------------------------------------------------------------

  /**
   A worker writes only while its own execution has not been given up, and no
   execution of a dataset is claimed while another one of it is active.
   */
  predicate Orderly(s: System, step: Step) {
    && ((step.DoComplete? || step.DoStopped? || step.DoFail?) && step.exec < |s.a.execs| ==>
          s.a.execs[step.exec].status == Active)
    && (step.DoClaim? && step.exec < |s.a.execs| ==>
          forall f :: 0 <= f < |s.a.execs| && s.a.execs[f].status == Active ==> s.a.execs[f].child != s.a.execs[step.exec].child)
  }

  ghost predicate OrderlyRun(s: System, steps: seq<Step>)
    decreases |steps|
  {
    steps == [] || (Orderly(s, steps[0]) && OrderlyRun(Apply(s, steps[0]), steps[1..]))
  }

  predicate Waiting(a: Aggregate, c: nat) {
    exists e :: 0 <= e < |a.execs| && a.execs[e] == Exec(c, Assigned)
  }

  /**
   Active executions hold running or stopping rows, one each; every queued row has
   an execution a worker can claim; a queued run holds no failed row.
   */
  ghost predicate Startable(a: Aggregate) {
    && (forall e :: 0 <= e < |a.execs| && a.execs[e].status == Active ==>
          a.execs[e].child < |a.children| && (a.children[a.execs[e].child] == Running || a.children[a.execs[e].child] == Stopping))
    && (forall e, f :: 0 <= e < f < |a.execs| && a.execs[e].status == Active && a.execs[f].status == Active ==>
          a.execs[e].child != a.execs[f].child)
    && (forall c :: 0 <= c < |a.children| && a.children[c] == Queued ==> Waiting(a, c))
    && (a.status == RunQueued ==> forall c :: 0 <= c < |a.children| ==> a.children[c] != Failed)
  }

  lemma StopStartable(a: Aggregate)
    requires Valid(a) && Startable(a)
    ensures Startable(After(a, RequestStop(a)))
  {
    var a' := After(a, RequestStop(a));
    forall c | 0 <= c < |a'.children| && a'.children[c] == Queued
      ensures Waiting(a', c)
    {
      assert Waiting(a, c);
      var e :| 0 <= e < |a.execs| && a.execs[e] == Exec(c, Assigned);
      assert a'.execs[e] == Exec(c, Assigned);
    }
  }

  lemma DeleteStartable(a: Aggregate)
    requires Valid(a) && Startable(a)
    ensures Startable(After(a, Delete(a)))
  {
    var a' := After(a, Delete(a));
    forall c | 0 <= c < |a'.children| && a'.children[c] == Queued
      ensures Waiting(a', c)
    {
      assert Waiting(a, c);
      var e :| 0 <= e < |a.execs| && a.execs[e] == Exec(c, Assigned);
      assert a'.execs[e] == Exec(c, Assigned);
    }
  }

  lemma RetryStartable(a: Aggregate, inputs: Inputs)
    requires Valid(a) && Startable(a)
    ensures Startable(After(a, Retry(a, inputs)))
  {
    if Retry(a, inputs).Done? {
      var a' := Retried(a);
      var which := ToRetry(a.children);
      assert forall i :: 0 <= i < |a.children| ==> !Pending(a.children[i]);
      forall c | 0 <= c < |a'.children| && a'.children[c] == Queued
        ensures Waiting(a', c)
      {
        assert RetryableChild(a.children[c]);
        var i :| 0 <= i < |which| && which[i] == c;
        assert a'.execs[|a.execs| + i] == Exec(c, Assigned);
      }
    }
  }

  /** Finishing the row of an active execution frees exactly that execution. */
  lemma FinishStartable(a: Aggregate, e: nat, done: ExecStatus, row: ChildStatus)
    requires Startable(a) && Valid(a) && e < |a.execs| && a.execs[e].status == Active
    requires done != Active && done != Assigned && !Pending(row)
    ensures Startable(Finalize(PutChild(PutExec(a, e, done), a.execs[e].child, row)))
  {
    var c := a.execs[e].child;
    var mid := PutChild(PutExec(a, e, done), c, row);
    var a' := Finalize(mid);
    assert Pending(a.children[c]);
    assert a.status != RunQueued && a'.status != RunQueued;
    forall k | 0 <= k < |a'.children| && a'.children[k] == Queued
      ensures Waiting(a', k)
    {
      assert Waiting(a, k);
      var f :| 0 <= f < |a.execs| && a.execs[f] == Exec(k, Assigned);
      assert a'.execs[f] == Exec(k, Assigned);
    }
  }

  /** A claimed execution leaves the assigned ones; queued rows other than its own keep theirs. */
  lemma StillWaiting(a: Aggregate, a': Aggregate, e: nat, k: nat)
    requires e < |a.execs| && |a'.execs| == |a.execs|
    requires forall f :: 0 <= f < |a.execs| && f != e ==> a'.execs[f] == a.execs[f]
    requires k != a.execs[e].child && Waiting(a, k)
    ensures Waiting(a', k)
  {
    var f :| 0 <= f < |a.execs| && a.execs[f] == Exec(k, Assigned);
    assert a'.execs[f] == Exec(k, Assigned);
  }

  lemma ClaimQueued(a: Aggregate, e: nat)
    requires Startable(a) && e < |a.execs| && a.execs[e].status == Assigned
    requires a.execs[e].child < |a.children| && a.children[a.execs[e].child] == Queued
    ensures Startable(Claim(a, e))
  {
    var a' := Claim(a, e);
    forall k | 0 <= k < |a'.children| && a'.children[k] == Queued
      ensures Waiting(a', k)
    {
      StillWaiting(a, a', e, k);
    }
  }

  lemma ClaimNotQueued(a: Aggregate, e: nat)
    requires Startable(a) && e < |a.execs| && a.execs[e].status == Assigned
    requires a.execs[e].child < |a.children| && a.children[a.execs[e].child] != Queued
    requires a.children[a.execs[e].child] == Stopping ==>
               a.status != RunQueued && forall f :: 0 <= f < |a.execs| && a.execs[f].status == Active ==> a.execs[f].child != a.execs[e].child
    ensures Startable(Claim(a, e))
  {
    var a' := Claim(a, e);
    assert a'.status == RunQueued ==> a'.children == a.children;
    forall k | 0 <= k < |a'.children| && a'.children[k] == Queued
      ensures Waiting(a', k)
    {
      StillWaiting(a, a', e, k);
    }
  }

  lemma ClaimStartable(s: System, e: nat)
    requires Valid(s.a) && Startable(s.a) && Orderly(s, DoClaim(e))
    ensures Startable(Apply(s, DoClaim(e)).a)
  {
    if e < |s.a.execs| && s.a.execs[e].status == Assigned {
      if s.a.children[s.a.execs[e].child] == Queued {
        ClaimQueued(s.a, e);
      } else {
        ClaimNotQueued(s.a, e);
      }
    }
  }

  lemma LoseStartable(s: System, e: nat)
    requires Valid(s.a) && Startable(s.a) && Orderly(s, DoLose(e))
    ensures Startable(Apply(s, DoLose(e)).a)
  {
    if e < |s.a.execs| && s.a.execs[e].status == Active {
      var c := s.a.execs[e].child;
      assert Pending(s.a.children[c]);
      FinishStartable(s.a, e, Lost, if s.a.children[c] == Stopping then Stopped else Failed);
    }
  }

  lemma CompleteStartable(s: System, e: nat)
    requires Valid(s.a) && Startable(s.a) && Orderly(s, DoComplete(e)) && Held(s, e)
    ensures Startable(Apply(s, DoComplete(e)).a)
  {
    if s.a.children[s.a.execs[e].child] == Running {
      FinishStartable(s.a, e, Succeeded, Completed);
    } else {
      FinishStartable(s.a, e, ExecStopped, Stopped);
    }
  }

  lemma OrderlyStep(s: System, step: Step)
    requires Valid(s.a) && Startable(s.a) && Orderly(s, step)
    ensures Startable(Apply(s, step).a)
  {
    match step
    case DoStop => StopStartable(s.a);
    case DoRetry(inputs) => RetryStartable(s.a, inputs);
    case DoDelete => DeleteStartable(s.a);
    case DoLose(e) => LoseStartable(s, e);
    case DoClaim(e) => ClaimStartable(s, e);
    case DoComplete(e) =>
      if Held(s, e) {
        CompleteStartable(s, e);
      }
    case DoFail(e) => if Held(s, e) { FinishStartable(s.a, e, ExecFailed, Failed); }
    case DoStopped(e) =>
      if Held(s, e) {
        FinishStartable(s.a, e, ExecStopped, Stopped);
        SettledFinalize(s.a);
      }
    case DoCrash(e) =>
  }

  lemma SettledFinalize(a: Aggregate)
    requires Valid(a) && Startable(a)
    ensures Startable(Finalize(a))
  {
    var a' := Finalize(a);
    forall k | 0 <= k < |a'.children| && a'.children[k] == Queued
      ensures Waiting(a', k)
    {
      assert Waiting(a, k);
      var f :| 0 <= f < |a.execs| && a.execs[f] == Exec(k, Assigned);
      assert a'.execs[f] == Exec(k, Assigned);
    }
  }

  lemma {:induction false} OrderlyRunKeeps(s: System, steps: seq<Step>)
    requires Valid(s.a) && Startable(s.a) && OrderlyRun(s, steps)
    ensures Valid(Run(s, steps).a) && Startable(Run(s, steps).a)
    decreases |steps|
  {
    if steps != [] {
      StepKeepsValid(s, steps[0]);
      OrderlyStep(s, steps[0]);
      OrderlyRunKeeps(Apply(s, steps[0]), steps[1..]);
    }
  }

  lemma CreatedStartable(n: nat)
    requires n > 0
    ensures Valid(Created(n)) && Startable(Created(n))
  {
    CreatedValid(n);
    var a := Created(n);
    forall c | 0 <= c < |a.children|
      ensures Waiting(a, c)
    {
      assert a.execs[c] == Exec(c, Assigned);
    }
  }

  /** Whether claiming e starts the run: a queued row and the run become running, nothing else changes. */
  ghost predicate ClaimStarts(s: System, e: nat) {
    && e < |s.a.execs| && s.a.execs[e].child < |s.a.children|
    && s.a.children[s.a.execs[e].child] == Queued
    && Apply(s, DoClaim(e)).a.status == RunRunning
    && Apply(s, DoClaim(e)).a.children == s.a.children[s.a.execs[e].child := Running]
  }

  lemma StartableStarts(s: System) returns (e: nat)
    requires s.a.status == RunQueued && Consistent(s.a.status, s.a.children) && Startable(s.a)
    ensures ClaimStarts(s, e)
  {
    var c :| 0 <= c < |s.a.children| && s.a.children[c] != Completed;
    assert Waiting(s.a, c);
    e :| 0 <= e < |s.a.execs| && s.a.execs[e] == Exec(c, Assigned);
  }

  /**
   In an orderly run a queued run is never stranded: it has a queued dataset with
   an execution that a claim turns into a running one, together with the run.
   */
  lemma QueuedRunsCanStart(n: nat, steps: seq<Step>) returns (e: nat)
    requires n > 0 && OrderlyRun(Fresh(n), steps) && Run(Fresh(n), steps).a.status == RunQueued
    ensures ClaimStarts(Run(Fresh(n), steps), e)
  {
    CreatedStartable(n);
    OrderlyRunKeeps(Fresh(n), steps);
    e := StartableStarts(Run(Fresh(n), steps));
  }
}
