/**
 What each transaction on an inference run does to the rows, said without the functions
 the transactions are built from, and how a run ends.
 */
module InferenceEffects {
  import opened InferenceModel
  import opened InferenceInvariants

  // ----- How a run ends ------------------------------------------------------------------

  ghost predicate Has(children: seq<ChildStatus>, c: ChildStatus) {
    exists i :: 0 <= i < |children| && children[i] == c
  }

  ghost predicate Unfinished(children: seq<ChildStatus>) {
    Has(children, Queued) || Has(children, Running) || Has(children, Stopping)
  }

  /** A stopped dataset decides, then whether any failed, then whether any was completed. */
  ghost predicate EndsAs(children: seq<ChildStatus>, status: RunStatus) {
    && (status == RunStopped <==> Has(children, Stopped))
    && (status == RunCompleted <==> !Has(children, Stopped) && !Has(children, Failed))
    && (status == RunPartiallyFailed <==> !Has(children, Stopped) && Has(children, Failed) && Has(children, Completed))
    && (status == RunFailed <==> !Has(children, Stopped) && Has(children, Failed) && !Has(children, Completed))
  }

  function RowsWith(children: seq<ChildStatus>, c: ChildStatus): set<nat> {
    set i: nat | i < |children| && children[i] == c
  }

  ghost predicate IsCount(children: seq<ChildStatus>, c: ChildStatus, n: nat) {
    n == |RowsWith(children, c)|
  }

  lemma OneMoreRow(before: seq<ChildStatus>, last: ChildStatus, c: ChildStatus)
    ensures |RowsWith(before + [last], c)| == |RowsWith(before, c)| + if last == c then 1 else 0
  {
    var rows, more := RowsWith(before, c), RowsWith(before + [last], c);
    assert more == if last == c then rows + {|before|} else rows;
  }

  lemma {:induction false} CountIsExact(children: seq<ChildStatus>, c: ChildStatus)
    ensures IsCount(children, c, CountOf(children, c))
  {
    if children != [] {
      var n := |children| - 1;
      CountIsExact(children[..n], c);
      OneMoreRow(children[..n], children[n], c);
      assert children == children[..n] + [children[n]];
    }
  }

  /** Both counters are counts of rows; a running or stopping run ends when no row is unfinished. */
  ghost predicate Finalized(a: Aggregate, a': Aggregate) {
    && a'.datasetCount == a.datasetCount && a'.children == a.children && a'.execs == a.execs
    && IsCount(a.children, Completed, a'.completedCount) && IsCount(a.children, Failed, a'.failedCount)
    && if (a.status == RunRunning || a.status == RunStopping) && a.children != [] && !Unfinished(a.children)
       then EndsAs(a.children, a'.status) else a'.status == a.status
  }

  lemma UnfinishedIsPending(children: seq<ChildStatus>)
    ensures Unfinished(children) <==> AnyPending(children)
  {
    if AnyPending(children) {
      var i :| 0 <= i < |children| && Pending(children[i]);
      assert children[i] in {Queued, Running, Stopping};
    }
  }

  lemma FinalizeEnds(a: Aggregate)
    ensures Finalized(a, Finalize(a))
  {
    CountIsExact(a.children, Completed);
    CountIsExact(a.children, Failed);
    UnfinishedIsPending(a.children);
    CountZero(a.children, Stopped);
    CountZero(a.children, Failed);
    CountZero(a.children, Completed);
  }

  /** What a step of any kind makes of a run that is running or being stopped. */
  ghost predicate GoesOnOrEnds(a: Aggregate, step: Step, a': Aggregate) {
    if Unfinished(a'.children) then a'.status == if step.DoStop? && a.status == RunRunning then RunStopping else a.status
    else EndsAs(a'.children, a'.status) && (a'.status == RunCompleted <==> forall i :: 0 <= i < |a'.children| ==> a'.children[i] == Completed)
  }

  /** A step on a valid started run leaves its status, or is a finalisation, or a stop. */
  lemma StepFinalizes(s: System, step: Step)
    requires Valid(s.a) && (s.a.status == RunRunning || s.a.status == RunStopping)
    ensures var a' := Apply(s, step).a;
            || (exists b: Aggregate :: b.status == s.a.status && b.children != [] && Finalized(b, a'))
            || (Unfinished(a'.children) && a'.status == if step.DoStop? && s.a.status == RunRunning then RunStopping else s.a.status)
  {
    UnfinishedIsPending(s.a.children);
    UnfinishedIsPending(Apply(s, step).a.children);
    StepKeepsValid(s, step);
    match step
    case DoLose(e) => LossFinalizes(s.a, e);
    case DoClaim(e) => if e < |s.a.execs| && s.a.execs[e].status == Assigned { ClaimFinalizes(s.a, e); }
    case DoComplete(e) => if Held(s, e) { CompleteFinalizes(s.a, e); }
    case DoFail(e) => if Held(s, e) { FailFinalizes(s.a, e); }
    case DoStopped(e) => if Held(s, e) { StoppedFinalizes(s.a, e); }
    case _ =>
  }

  /** a' is some valid state of the run counted and perhaps ended. */
  ghost predicate IsFinalized(a: Aggregate, a': Aggregate) {
    exists b: Aggregate :: b.status == a.status && b.children != [] && Finalized(b, a')
  }

  lemma FinalizedFrom(a: Aggregate, b: Aggregate)
    requires b.status == a.status && b.children != []
    ensures IsFinalized(a, Finalize(b))
  {
    FinalizeEnds(b);
  }

  lemma LossFinalizes(a: Aggregate, e: nat)
    requires Valid(a)
    ensures IsFinalized(a, Lose(a, e)) || (Lose(a, e).children == a.children && Lose(a, e).status == a.status)
  {
    if e < |a.execs| && a.execs[e].status == Active && Pending(a.children[a.execs[e].child]) {
      var c := a.execs[e].child;
      FinalizedFrom(a, PutChild(PutExec(a, e, Lost), c, if a.children[c] == Stopping then Stopped else Failed));
    }
  }

  lemma ClaimFinalizes(a: Aggregate, e: nat)
    requires Valid(a) && e < |a.execs| && (a.status == RunRunning || a.status == RunStopping)
    ensures IsFinalized(a, Claim(a, e)) || (AnyPending(Claim(a, e).children) && Claim(a, e).status == a.status)
  {
    var c := a.execs[e].child;
    if a.children[c] == Stopping {
      FinalizedFrom(a, PutChild(PutExec(a, e, ExecStopped), c, Stopped));
    } else if a.children[c] == Queued {
      assert Pending(Claim(a, e).children[c]);
    }
  }

  lemma FailFinalizes(a: Aggregate, e: nat)
    requires Valid(a) && e < |a.execs|
    ensures IsFinalized(a, WorkerFail(a, e))
  {
    var c, b := a.execs[e].child, PutExec(a, e, ExecFailed);
    FinalizedFrom(a, b);
    FinalizedFrom(a, PutChild(b, c, Failed));
  }

  lemma StoppedFinalizes(a: Aggregate, e: nat)
    requires Valid(a) && e < |a.execs|
    ensures IsFinalized(a, WorkerStopped(a, e))
  {
    FinalizedFrom(a, PutChild(PutExec(a, e, ExecStopped), a.execs[e].child, Stopped));
    FinalizedFrom(a, a);
  }

  lemma CompleteFinalizes(a: Aggregate, e: nat)
    requires Valid(a) && e < |a.execs|
    ensures IsFinalized(a, WorkerComplete(a, e))
  {
    FinalizedFrom(a, PutChild(PutExec(a, e, Succeeded), a.execs[e].child, Completed));
    StoppedFinalizes(a, e);
    FailFinalizes(a, e);
  }

  /**
   In every reachable state with a started run, whatever happens next: while some dataset
   is unfinished the run goes on, and once none is it has ended as its datasets say.
   */
  lemma RunsEndAsTheirDatasetsSay(n: nat, steps: seq<Step>, step: Step)
    requires n > 0 && Run(Fresh(n), steps).a.status in {RunRunning, RunStopping}
    ensures GoesOnOrEnds(Run(Fresh(n), steps).a, step, Apply(Run(Fresh(n), steps), step).a)
  {
    var s := Run(Fresh(n), steps);
    CreatedValid(n);
    RunKeepsValid(Fresh(n), steps);
    StepKeepsValid(s, step);
    StepFinalizes(s, step);
    EndedIsUniform(s.a, Apply(s, step).a);
  }

  lemma EndedIsUniform(a: Aggregate, a': Aggregate)
    requires Valid(a')
    ensures EndsAs(a'.children, a'.status) ==>
              (a'.status == RunCompleted <==> forall i :: 0 <= i < |a'.children| ==> a'.children[i] == Completed)
  {
    if forall i :: 0 <= i < |a'.children| ==> a'.children[i] == Completed {
      assert !Has(a'.children, Stopped) && !Has(a'.children, Failed);
    }
  }

  // ----- The users' transactions -----------------------------------------------------------

  ghost predicate SameRest(a: Aggregate, a': Aggregate) {
    a'.datasetCount == a.datasetCount && a'.completedCount == a.completedCount && |a'.children| == |a.children|
  }

  /** A running run has its unfinished datasets stopped, a queued one its queued ones cancelled; no other can be stopped. */
  lemma StopsExactly(a: Aggregate)
    ensures var r := RequestStop(a);
            && (r == Refused(NotFound) <==> a.status == RunDeleted)
            && (r.Done? <==> a.status == RunRunning || a.status == RunQueued)
            && (r.Done? ==>
                  && SameRest(a, r.a) && r.a.failedCount == a.failedCount && r.a.execs == a.execs
                  && r.a.status == (if a.status == RunRunning then RunStopping else RunCancelled)
                  && forall i :: 0 <= i < |a.children| ==>
                       r.a.children[i] ==
                         if a.status == RunRunning && a.children[i] in {Queued, Running} then Stopping
                         else if a.status == RunQueued && a.children[i] == Queued then Cancelled
                         else a.children[i])
  {
  }

  ghost predicate NotCompleted(c: ChildStatus) {
    c in {Failed, Stopped, Cancelled}
  }

  /** Each dataset without a result is queued with one new execution, and no other has one. */
  ghost predicate StartedAgain(a: Aggregate, a': Aggregate) {
    && SameRest(a, a') && a'.status == RunQueued && a'.failedCount == 0
    && (forall i :: 0 <= i < |a.children| ==>
          a'.children[i] == if NotCompleted(a.children[i]) then Queued else a.children[i])
    && |a'.execs| >= |a.execs| && a'.execs[..|a.execs|] == a.execs
    && (forall e :: |a.execs| <= e < |a'.execs| ==>
          a'.execs[e].status == Assigned && a'.execs[e].child < |a.children| && NotCompleted(a.children[a'.execs[e].child]))
    && (forall e, f :: |a.execs| <= e < f < |a'.execs| ==> a'.execs[e].child != a'.execs[f].child)
    && (forall c :: 0 <= c < |a.children| && NotCompleted(a.children[c]) ==> HasNew(a, a', c))
  }

  ghost predicate HasNew(a: Aggregate, a': Aggregate, c: nat) {
    exists e :: |a.execs| <= e < |a'.execs| && a'.execs[e].child == c
  }

  lemma {:induction false} ToRetryAscends(children: seq<ChildStatus>)
    ensures forall i, k :: 0 <= i < k < |ToRetry(children)| ==> ToRetry(children)[i] < ToRetry(children)[k]
  {
    if children != [] {
      ToRetryAscends(children[..|children| - 1]);
    }
  }

  lemma NewExecutions(before: seq<Exec>, after: seq<Exec>, which: seq<nat>, c: nat)
    requires after == before + seq(|which|, i requires 0 <= i < |which| => Exec(which[i], Assigned))
    ensures c in which ==> exists e :: |before| <= e < |after| && after[e].child == c
    ensures forall i :: 0 <= i < |which| ==> after[|before| + i] == Exec(which[i], Assigned)
  {
    if c in which {
      var i :| 0 <= i < |which| && which[i] == c;
      assert after[|before| + i].child == c;
    }
  }

  lemma NewAreDistinct(before: seq<Exec>, after: seq<Exec>, which: seq<nat>)
    requires after == before + seq(|which|, i requires 0 <= i < |which| => Exec(which[i], Assigned))
    requires forall i, k :: 0 <= i < k < |which| ==> which[i] < which[k]
    ensures after[..|before|] == before
    ensures forall e, f :: |before| <= e < f < |after| ==> after[e].child != after[f].child
    ensures forall e :: |before| <= e < |after| ==> after[e].status == Assigned && after[e].child in which
  {
    forall e | |before| <= e < |after|
      ensures after[e] == Exec(which[e - |before|], Assigned)
    {
    }
  }

  lemma RetriedStarts(a: Aggregate)
    ensures StartedAgain(a, Retried(a))
  {
    var which, a' := ToRetry(a.children), Retried(a);
    ToRetryAscends(a.children);
    NewAreDistinct(a.execs, a'.execs, which);
    forall c | 0 <= c < |a.children| && NotCompleted(a.children[c])
      ensures HasNew(a, a', c)
    {
      NewExecutions(a.execs, a'.execs, which, c);
    }
  }

  /** A retry needs a finished run with a dataset to do again, a usable model and ready sources. */
  lemma RetriesStartAgain(a: Aggregate, inputs: Inputs)
    ensures var r := Retry(a, inputs);
            && (r == Refused(NotFound) <==> a.status == RunDeleted)
            && (r.Done? <==>
                  && a.status in {RunPartiallyFailed, RunFailed, RunCancelled, RunStopped}
                  && inputs.modelUsable && inputs.sourcesReady
                  && exists c :: 0 <= c < |a.children| && NotCompleted(a.children[c]))
            && (r.Done? ==> StartedAgain(a, r.a))
  {
    RetriedStarts(a);
    if ToRetry(a.children) != [] {
      assert NotCompleted(a.children[ToRetry(a.children)[0]]);
    }
  }

  /** A run is deleted unless it is running or stopping; what was queued is cancelled. */
  lemma DeletesExactly(a: Aggregate)
    ensures var r := Delete(a);
            && (r == Refused(NotFound) <==> a.status == RunDeleted)
            && (r == Refused(NotDeletable) <==> a.status in {RunRunning, RunStopping})
            && (r.Done? <==> a.status !in {RunDeleted, RunRunning, RunStopping})
            && (r.Done? ==>
                  && SameRest(a, r.a) && r.a.failedCount == a.failedCount && r.a.execs == a.execs && r.a.status == RunDeleted
                  && forall i :: 0 <= i < |a.children| ==>
                       r.a.children[i] == if a.children[i] == Queued then Cancelled else a.children[i])
  {
  }

  // ----- The scheduler and the workers -------------------------------------------------------

  /** One execution and its dataset; the rest of both tables stays. */
  ghost predicate Moves(a: Aggregate, a': Aggregate, e: nat, exec: ExecStatus, child: ChildStatus)
    requires e < |a.execs| && a.execs[e].child < |a.children|
  {
    a'.execs == a.execs[e := Exec(a.execs[e].child, exec)] && a'.children == a.children[a.execs[e].child := child]
  }

  lemma LossesEndTheirDataset(a: Aggregate, e: nat)
    requires e < |a.execs| ==> a.execs[e].child < |a.children|
    ensures if e < |a.execs| && a.execs[e].status == Active then
              var c := a.children[a.execs[e].child];
              Moves(a, Lose(a, e), e, Lost,
                    if c == Stopping then Stopped else if c == Queued || c == Running then Failed else c)
            else Lose(a, e) == a
  {
  }

  /** An assigned execution starts a queued dataset, stops one being stopped, and is cancelled otherwise. */
  lemma ClaimsExactly(s: System, e: nat)
    requires e < |s.a.execs| ==> s.a.execs[e].child < |s.a.children|
    ensures var s' := Apply(s, DoClaim(e));
            if e < |s.a.execs| && s.a.execs[e].status == Assigned then
              match s.a.children[s.a.execs[e].child]
              case Queued =>
                && Moves(s.a, s'.a, e, Active, Running) && s'.alive == s.alive + {e}
                && s'.a.status == if s.a.status == RunQueued then RunRunning else s.a.status
              case Stopping => Moves(s.a, s'.a, e, ExecStopped, Stopped) && s'.alive == s.alive
              case c => Moves(s.a, s'.a, e, ExecCancelled, c) && s'.alive == s.alive && s'.a.status == s.a.status
            else s' == s
  {
  }

  /** The end a worker reports counts for a running dataset; for one being stopped it stops it; a failure leaves only completed and cancelled ones. */
  lemma WorkersEndTheirDataset(s: System, e: nat)
    requires Held(s, e)
    ensures var a, c := s.a, s.a.children[s.a.execs[e].child];
            var afterFailure := if c == Completed || c == Cancelled then c else Failed;
            && Moves(a, Apply(s, DoFail(e)).a, e, ExecFailed, afterFailure)
            && (if c == Running then Moves(a, Apply(s, DoComplete(e)).a, e, Succeeded, Completed)
                else if c == Stopping then Moves(a, Apply(s, DoComplete(e)).a, e, ExecStopped, Stopped)
                else Moves(a, Apply(s, DoComplete(e)).a, e, ExecFailed, afterFailure))
            && (if c == Stopping then Moves(a, Apply(s, DoStopped(e)).a, e, ExecStopped, Stopped)
                else Apply(s, DoStopped(e)).a.children == a.children && Apply(s, DoStopped(e)).a.execs == a.execs)
  {
  }

  // ----- Submission ----------------------------------------------------------------------------

  /** A new run has n queued datasets, each with one execution to claim, and both counters at zero. */
  lemma CreatedIs(n: nat)
    ensures var a := Created(n);
            && a.status == RunQueued && a.datasetCount == |a.children| == |a.execs| == n
            && a.completedCount == 0 == a.failedCount
            && forall i :: 0 <= i < n ==> a.children[i] == Queued && a.execs[i] == Exec(i, Assigned)
  {
  }
}
