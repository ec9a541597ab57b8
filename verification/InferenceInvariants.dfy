/**
 What holds of an inference run in every reachable state, with stop, cancel,
 retry, delete, lost executions and late workers in any order.
 */
module InferenceInvariants {
  import opened InferenceModel

  /** Which children each run status allows. */
  ghost predicate Consistent(status: RunStatus, children: seq<ChildStatus>) {
    match status
    case RunQueued =>
      && (forall i :: 0 <= i < |children| ==> children[i] == Queued || children[i] == Completed || children[i] == Failed)
      && (exists i :: 0 <= i < |children| && children[i] != Completed)
    case RunRunning =>
      && (forall i :: 0 <= i < |children| ==>
            children[i] == Queued || children[i] == Running || children[i] == Completed || children[i] == Failed)
      && AnyPending(children)
    case RunStopping =>
      && (forall i :: 0 <= i < |children| ==>
            children[i] == Stopping || children[i] == Stopped || children[i] == Completed || children[i] == Failed)
      && AnyPending(children)
    case RunCompleted =>
      forall i :: 0 <= i < |children| ==> children[i] == Completed
    case RunDeleted =>
      !AnyPending(children)
    case _ =>
      && !AnyPending(children)
      && (exists i :: 0 <= i < |children| && RetryableChild(children[i]))
  }

  ghost predicate Valid(a: Aggregate) {
    && a.children != []
    && a.datasetCount == |a.children|
    && a.completedCount == CountOf(a.children, Completed)
    && a.failedCount == CountOf(a.children, Failed)
    && Consistent(a.status, a.children)
    && (forall e :: 0 <= e < |a.execs| ==> a.execs[e].child < |a.children|)
  }

  // ----- Counting ------------------------------------------------------------

  lemma {:induction false} CountZero(children: seq<ChildStatus>, c: ChildStatus)
    ensures CountOf(children, c) == 0 <==> forall i :: 0 <= i < |children| ==> children[i] != c
  {
    if children != [] {
      CountZero(children[..|children| - 1], c);
    }
  }

  /** The count of a status only depends on which rows have it. */
  lemma {:induction false} CountSame(xs: seq<ChildStatus>, ys: seq<ChildStatus>, c: ChildStatus)
    requires |xs| == |ys| && forall i :: 0 <= i < |xs| ==> (xs[i] == c <==> ys[i] == c)
    ensures CountOf(xs, c) == CountOf(ys, c)
  {
    if xs != [] {
      CountSame(xs[..|xs| - 1], ys[..|ys| - 1], c);
    }
  }

  // ----- Finalisation ----------------------------------------------------------

  /** Before a run finishes: running runs never hold cancelled or stopped rows, stopping ones never queued or running rows. */
  ghost predicate Finishing(a: Aggregate) {
    match a.status
    case RunRunning =>
      forall i :: 0 <= i < |a.children| ==>
        a.children[i] == Queued || a.children[i] == Running || a.children[i] == Completed || a.children[i] == Failed
    case RunStopping =>
      && (forall i :: 0 <= i < |a.children| ==>
            a.children[i] == Stopping || a.children[i] == Stopped || a.children[i] == Completed || a.children[i] == Failed)
      && (exists i :: 0 <= i < |a.children| && a.children[i] != Completed)
    case _ => Consistent(a.status, a.children)
  }

  lemma FinalizeValid(a: Aggregate)
    requires a.children != [] && a.datasetCount == |a.children| && Finishing(a)
    requires forall e :: 0 <= e < |a.execs| ==> a.execs[e].child < |a.children|
    ensures Valid(Finalize(a))
  {
    CountZero(a.children, Stopped);
    CountZero(a.children, Failed);
    CountZero(a.children, Completed);
    if !AnyPending(a.children) && (a.status == RunRunning || a.status == RunStopping) {
      forall i | 0 <= i < |a.children|
        ensures !Pending(a.children[i])
      {
      }
    }
  }

  // ----- Every step --------------------------------------------------------------

  lemma StopValid(a: Aggregate)
    requires Valid(a)
    ensures Valid(After(a, RequestStop(a)))
  {
    var a' := After(a, RequestStop(a));
    CountSame(a.children, a'.children, Completed);
    CountSame(a.children, a'.children, Failed);
    if a.status == RunRunning {
      var i :| 0 <= i < |a.children| && Pending(a.children[i]);
      assert Pending(a'.children[i]);
    }
    if a.status == RunQueued {
      var i :| 0 <= i < |a.children| && a.children[i] != Completed;
      assert RetryableChild(a'.children[i]);
    }
  }

  lemma RetryValid(a: Aggregate, inputs: Inputs)
    requires Valid(a)
    ensures Valid(After(a, Retry(a, inputs)))
  {
    var a' := After(a, Retry(a, inputs));
    if Retry(a, inputs).Done? {
      CountSame(a.children, a'.children, Completed);
      CountZero(a'.children, Failed);
      var c := ToRetry(a.children)[0];
      assert a'.children[c] == Queued;
      forall i | 0 <= i < |a'.children|
        ensures a'.children[i] == Queued || a'.children[i] == Completed
      {
        assert !Pending(a.children[i]);
      }
    }
  }

  lemma DeleteValid(a: Aggregate)
    requires Valid(a)
    ensures Valid(After(a, Delete(a)))
  {
    var a' := After(a, Delete(a));
    CountSame(a.children, a'.children, Completed);
    CountSame(a.children, a'.children, Failed);
  }

  /** A pending or finished row changed to a finished one is ready for finalisation. */
  lemma PutChildFinishing(a: Aggregate, c: nat, status: ChildStatus)
    requires Valid(a) && c < |a.children|
    requires || (status == Failed && a.children[c] != Completed && a.children[c] != Cancelled)
             || (status == Completed && a.children[c] == Running)
             || (status == Stopped && a.children[c] == Stopping)
    ensures Finishing(PutChild(a, c, status))
  {
    var a' := PutChild(a, c, status);
    match a.status
    case RunQueued => assert a'.children[c] != Completed;
    case RunRunning =>
    case RunStopping => assert a'.children[c] != Completed;
    case RunCompleted =>
    case RunDeleted => assert !AnyPending(a'.children);
    case _ =>
      assert RetryableChild(a'.children[c]);
      assert !AnyPending(a'.children);
  }

  lemma LoseValid(a: Aggregate, e: nat)
    requires Valid(a)
    ensures Valid(Lose(a, e))
  {
    if e < |a.execs| && a.execs[e].status == Active && Pending(a.children[a.execs[e].child]) {
      var c := a.execs[e].child;
      var status := if a.children[c] == Stopping then Stopped else Failed;
      PutChildFinishing(PutExec(a, e, Lost), c, status);
      FinalizeValid(PutChild(PutExec(a, e, Lost), c, status));
    }
  }

  lemma ClaimValid(a: Aggregate, e: nat)
    requires Valid(a) && e < |a.execs|
    ensures Valid(Claim(a, e))
  {
    var c := a.execs[e].child;
    if a.children[c] == Queued {
      var a' := Claim(a, e);
      CountSame(a.children, a'.children, Completed);
      CountSame(a.children, a'.children, Failed);
      assert a.status == RunQueued || a.status == RunRunning by {
        assert Pending(a.children[c]);
      }
      assert Pending(a'.children[c]);
    } else if a.children[c] == Stopping {
      PutChildFinishing(PutExec(a, e, ExecStopped), c, Stopped);
      FinalizeValid(PutChild(PutExec(a, e, ExecStopped), c, Stopped));
    }
  }

  lemma SettledFinishing(a: Aggregate)
    requires Valid(a)
    ensures Finishing(a)
  {
    if a.status == RunStopping {
      var i :| 0 <= i < |a.children| && Pending(a.children[i]);
      assert a.children[i] != Completed;
    }
  }

  lemma WorkerFailValid(a: Aggregate, e: nat)
    requires Valid(a) && e < |a.execs|
    ensures Valid(WorkerFail(a, e))
  {
    var c := a.execs[e].child;
    var a' := PutExec(a, e, ExecFailed);
    assert Valid(a');
    if a.children[c] == Completed || a.children[c] == Cancelled {
      SettledFinishing(a');
      FinalizeValid(a');
    } else {
      PutChildFinishing(a', c, Failed);
      FinalizeValid(PutChild(a', c, Failed));
    }
  }

  lemma WorkerStoppedValid(a: Aggregate, e: nat)
    requires Valid(a) && e < |a.execs|
    ensures Valid(WorkerStopped(a, e))
  {
    var c := a.execs[e].child;
    if a.children[c] == Stopping {
      PutChildFinishing(PutExec(a, e, ExecStopped), c, Stopped);
      FinalizeValid(PutChild(PutExec(a, e, ExecStopped), c, Stopped));
    } else {
      SettledFinishing(a);
      FinalizeValid(a);
    }
  }

  lemma WorkerCompleteValid(a: Aggregate, e: nat)
    requires Valid(a) && e < |a.execs|
    ensures Valid(WorkerComplete(a, e))
  {
    var c := a.execs[e].child;
    if a.children[c] == Running {
      PutChildFinishing(PutExec(a, e, Succeeded), c, Completed);
      FinalizeValid(PutChild(PutExec(a, e, Succeeded), c, Completed));
    } else if a.children[c] == Stopping {
      WorkerStoppedValid(a, e);
    } else {
      WorkerFailValid(a, e);
    }
  }

  /** Every step keeps the run, its counters and its children in agreement. */
  lemma StepKeepsValid(s: System, step: Step)
    requires Valid(s.a)
    ensures Valid(Apply(s, step).a)
  {
    match step
    case DoStop => StopValid(s.a);
    case DoRetry(inputs) => RetryValid(s.a, inputs);
    case DoDelete => DeleteValid(s.a);
    case DoLose(e) => LoseValid(s.a, e);
    case DoClaim(e) => if e < |s.a.execs| { ClaimValid(s.a, e); }
    case DoComplete(e) => if Held(s, e) { WorkerCompleteValid(s.a, e); }
    case DoStopped(e) => if Held(s, e) { WorkerStoppedValid(s.a, e); }
    case DoFail(e) => if Held(s, e) { WorkerFailValid(s.a, e); }
    case DoCrash(e) =>
  }

  lemma {:induction false} RunKeepsValid(s: System, steps: seq<Step>)
    requires Valid(s.a)
    ensures Valid(Run(s, steps).a)
    decreases |steps|
  {
    if steps != [] {
      StepKeepsValid(s, steps[0]);
      RunKeepsValid(Apply(s, steps[0]), steps[1..]);
    }
  }

  lemma CreatedValid(n: nat)
    requires n > 0
    ensures Valid(Created(n))
  {
    var a := Created(n);
    CountZero(a.children, Completed);
    CountZero(a.children, Failed);
    assert a.children[0] != Completed;
  }

  // ----- The theorems about every reachable state ----------------------------------

  /** The cached counters always equal a recount of the children. */
  lemma CountersAreExact(n: nat, steps: seq<Step>)
    requires n > 0
    ensures var a := Run(Fresh(n), steps).a;
            && a.datasetCount == |a.children|
            && a.completedCount == CountOf(a.children, Completed)
            && a.failedCount == CountOf(a.children, Failed)
  {
    CreatedValid(n);
    RunKeepsValid(Fresh(n), steps);
  }

  /**
   A run that was not deleted is COMPLETED exactly when all its children are, a
   running or stopping run always has a child left to finish, and a finished run
   has none.
   */
  lemma StatusMatchesChildren(n: nat, steps: seq<Step>)
    requires n > 0
    ensures var a := Run(Fresh(n), steps).a;
            && (a.status != RunDeleted ==>
                  (a.status == RunCompleted <==> forall i :: 0 <= i < |a.children| ==> a.children[i] == Completed))
            && (a.status == RunRunning || a.status == RunStopping ==> AnyPending(a.children))
            && (RetryableRun(a.status) || a.status == RunCompleted || a.status == RunDeleted ==> !AnyPending(a.children))
  {
    CreatedValid(n);
    RunKeepsValid(Fresh(n), steps);
    var a := Run(Fresh(n), steps).a;
    if a.status == RunRunning || a.status == RunStopping {
      var i :| 0 <= i < |a.children| && Pending(a.children[i]);
      assert a.children[i] != Completed;
    }
  }

  lemma SomethingToRetry(a: Aggregate, inputs: Inputs)
    requires Valid(a)
    ensures Retry(a, inputs) != Refused(NothingToRetry)
  {
    if RetryableRun(a.status) {
      var i :| 0 <= i < |a.children| && RetryableChild(a.children[i]);
      assert i in ToRetry(a.children);
    }
  }

  lemma RetryWork(a: Aggregate, inputs: Inputs)
    requires Valid(a)
    ensures Retry(a, inputs).Done? ==> RequeuedExactly(a, Retry(a, inputs).a)
  {
    RetryValid(a, inputs);
    if Retry(a, inputs).Done? {
      var a' := Retry(a, inputs).a;
      var c := ToRetry(a.children)[0];
      assert a'.children[c] == Queued;
      assert forall i :: 0 <= i < |a.children| ==> !Pending(a.children[i]);
    }
  }

  /** The completed rows are as before, all others queued, one at least, and the counters are right. */
  ghost predicate RequeuedExactly(a: Aggregate, a': Aggregate) {
    && |a'.children| == |a.children|
    && (forall i :: 0 <= i < |a.children| ==> a'.children[i] == if a.children[i] == Completed then Completed else Queued)
    && (exists i :: 0 <= i < |a'.children| && a'.children[i] == Queued)
    && a'.completedCount == CountOf(a'.children, Completed)
    && CountOf(a'.children, Failed) == 0 == a'.failedCount
  }

  /**
   The refusal for a retryable run without a dataset to retry is unreachable, and
   after a retry the children are exactly the untouched completed ones plus queued
   ones, with counters that are already right.
   */
  lemma RetryAlwaysHasWork(n: nat, steps: seq<Step>, inputs: Inputs)
    requires n > 0
    ensures var a := Run(Fresh(n), steps).a;
            && Retry(a, inputs) != Refused(NothingToRetry)
            && (Retry(a, inputs).Done? ==> RequeuedExactly(a, Retry(a, inputs).a))
  {
    CreatedValid(n);
    RunKeepsValid(Fresh(n), steps);
    SomethingToRetry(Run(Fresh(n), steps).a, inputs);
    RetryWork(Run(Fresh(n), steps).a, inputs);
  }
}
