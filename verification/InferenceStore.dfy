/**
 The inference transactions as statements over the run row, its child rows and
 their executions. Each method is proved to leave the rows as the transaction's
 specification in InferenceModel says.
 */
module InferenceStore {
  import opened Wrappers
  import opened Whitespace
  import opened InferenceModel
  import opened InferenceEffects

  datatype Model = Model(available: bool, task: string, typeId: nat)

  datatype SourceDataset = SourceDataset(ready: bool, task: string, typeId: nat)

  /** What a submission asks for. */
  datatype Request = Request(name: string, model: nat, sources: seq<nat>)

  /** What it finds in the tables, with the answer of the search for another run of its name. */
  datatype Tables = Tables(models: map<nat, Model>, sources: map<nat, SourceDataset>, nameFree: bool)

  datatype Unfit =
    | NameInvalid | NoDatasets | ModelNotFound | ModelNotAvailable | TaskUnsupported
    | SourceNotFound | NotReady | TypeMismatch | TaskMismatch | NameTaken

  /** The refusals that do not depend on a single source. */
  function RequestUnfit(r: Request, t: Tables): Option<Unfit> {
    if Trim(r.name) == "" || |Trim(r.name)| > 150 then Some(NameInvalid)
    else if r.sources == [] then Some(NoDatasets)
    else if r.model !in t.models then Some(ModelNotFound)
    else if !t.models[r.model].available then Some(ModelNotAvailable)
    else if t.models[r.model].task != "DETECT" then Some(TaskUnsupported)
    else if exists s :: s in r.sources && s !in t.sources then Some(SourceNotFound)
    else None
  }

  function SourceUnfit(model: Model, source: SourceDataset): Option<Unfit> {
    if !source.ready then Some(NotReady)
    else if source.typeId != model.typeId then Some(TypeMismatch)
    else if source.task != model.task then Some(TaskMismatch)
    else None
  }

  /** Why a submission is refused; of several unfit sources any may be named, as the rows come in no given order. */
  ghost predicate Answers(r: Request, t: Tables, unfit: Option<Unfit>) {
    if RequestUnfit(r, t).Some? then unfit == RequestUnfit(r, t)
    else if exists s :: s in r.sources && SourceUnfit(t.models[r.model], t.sources[s]).Some? then
      unfit.Some? && exists s :: s in r.sources && unfit == SourceUnfit(t.models[r.model], t.sources[s])
    else unfit == if t.nameFree then None else Some(NameTaken)
  }

  /** A submission that can be run. */
  ghost predicate Acceptable(r: Request, t: Tables) {
    && 1 <= |Trim(r.name)| <= 150 && r.sources != [] && t.nameFree
    && r.model in t.models && t.models[r.model].available && t.models[r.model].task == "DETECT"
    && forall s :: s in r.sources ==>
         && s in t.sources && t.sources[s].ready
         && t.sources[s].task == "DETECT" && t.sources[s].typeId == t.models[r.model].typeId
  }

  /** The reason given is one. */
  ghost predicate Justified(r: Request, t: Tables, why: Unfit) {
    match why
    case NameInvalid => Trim(r.name) == "" || |Trim(r.name)| > 150
    case NoDatasets => r.sources == []
    case ModelNotFound => r.model !in t.models
    case ModelNotAvailable => r.model in t.models && !t.models[r.model].available
    case TaskUnsupported => r.model in t.models && t.models[r.model].task != "DETECT"
    case SourceNotFound => exists s :: s in r.sources && s !in t.sources
    case NotReady => exists s :: s in r.sources && s in t.sources && !t.sources[s].ready
    case TypeMismatch =>
      r.model in t.models && exists s :: s in r.sources && s in t.sources && t.sources[s].typeId != t.models[r.model].typeId
    case TaskMismatch =>
      r.model in t.models && exists s :: s in r.sources && s in t.sources && t.sources[s].task != t.models[r.model].task
    case NameTaken => !t.nameFree
  }

  lemma AnswersAreRight(r: Request, t: Tables, unfit: Option<Unfit>)
    requires Answers(r, t, unfit)
    ensures unfit.None? <==> Acceptable(r, t)
    ensures unfit.Some? ==> Justified(r, t, unfit.value)
  {
  }

  /** Sources in the order given, each once. */
  function Distinct(ids: seq<nat>): (r: seq<nat>)
    ensures forall x :: x in r <==> x in ids
    ensures forall i, k :: 0 <= i < k < |r| ==> r[i] != r[k]
  {
    if ids == [] then []
    else
      var r := Distinct(ids[..|ids| - 1]);
      if ids[|ids| - 1] in r then r else r + [ids[|ids| - 1]]
  }

  /** Children with the rows below i recast and the others untouched. */
  ghost predicate RecastUpTo(before: seq<ChildStatus>, after: seq<ChildStatus>, target: seq<ChildStatus>, i: nat) {
    && |after| == |before| == |target| && i <= |before|
    && (forall k :: 0 <= k < i ==> after[k] == target[k])
    && (forall k :: i <= k < |before| ==> after[k] == before[k])
  }

  class InferenceRun {
    var status: RunStatus
    var datasetCount: nat
    var completedCount: nat
    var failedCount: nat
    var children: seq<ChildStatus>
    var execs: seq<Exec>

    function View(): Aggregate
      reads this
    {
      Aggregate(status, datasetCount, completedCount, failedCount, children, execs)
    }

    /** Inserts the run row, then per source its child row and execution. */
    constructor (sources: seq<nat>)
      ensures View() == Created(|Distinct(sources)|)
    {
      status, completedCount, failedCount := RunQueued, 0, 0;
      datasetCount := |Distinct(sources)|;
      children, execs := [], [];
      new;
      var ordered := Distinct(sources);
      for i := 0 to |ordered|
        invariant status == RunQueued && completedCount == failedCount == 0 && datasetCount == |ordered|
        invariant children == seq(i, k => Queued)
        invariant execs == seq(i, k requires 0 <= k => Exec(k, Assigned))
      {
        children := children + [Queued];
        execs := execs + [Exec(i, Assigned)];
      }
    }

    /** Counts the rows by status, one by one. */
    method CountRows() returns (completed: nat, failed: nat, stopped: nat, pending: nat)
      ensures completed == CountOf(children, Completed) && failed == CountOf(children, Failed)
      ensures stopped == CountOf(children, Stopped) && (pending > 0 <==> AnyPending(children))
    {
      completed, failed, stopped, pending := 0, 0, 0, 0;
      for i := 0 to |children|
        invariant completed == CountOf(children[..i], Completed)
        invariant failed == CountOf(children[..i], Failed)
        invariant stopped == CountOf(children[..i], Stopped)
        invariant pending > 0 <==> AnyPending(children[..i])
      {
        assert children[..i + 1][..i] == children[..i];
        var c := children[i];
        if c == Completed { completed := completed + 1; }
        if c == Failed { failed := failed + 1; }
        if c == Stopped { stopped := stopped + 1; }
        if Pending(c) {
          pending := pending + 1;
          assert Pending(children[..i + 1][i]);
        } else if pending > 0 {
          var k :| 0 <= k < i && Pending(children[..i][k]);
          assert Pending(children[..i + 1][k]);
        }
      }
      assert children[..|children|] == children;
    }

    /** Recounts the rows and, when none is pending, finishes the run. */
    method FinalizeRun()
      modifies this
      ensures View() == Finalize(old(View()))
      ensures Finalized(old(View()), View())
    {
      FinalizeEnds(View());
      var completed, failed, stopped, pending := CountRows();
      completedCount, failedCount := completed, failed;
      if pending == 0 && |children| > 0 && (status == RunRunning || status == RunStopping) {
        status :=
          if stopped > 0 then RunStopped
          else if failed == 0 then RunCompleted
          else if completed > 0 then RunPartiallyFailed
          else RunFailed;
      }
    }

    /** UPDATE ... SET status = to WHERE status = from, row by row. */
    method RecastRows(from: ChildStatus, to: ChildStatus)
      modifies this`children
      ensures children == Recast(old(children), from, to)
    {
      ghost var target := Recast(children, from, to);
      for i := 0 to |children|
        invariant RecastUpTo(old(children), children, target, i)
      {
        if children[i] == from {
          children := children[i := to];
        }
      }
    }

    method Stop() returns (r: Reply)
      modifies this
      ensures r == RequestStop(old(View()))
      ensures View() == After(old(View()), r)
    {
      if status == RunDeleted {
        return Refused(NotFound);
      }
      if status == RunRunning {
        status := RunStopping;
        RecastRows(Queued, Stopping);
        RecastRows(Running, Stopping);
        return Done(View());
      }
      if status == RunQueued {
        status := RunCancelled;
        RecastRows(Queued, Cancelled);
        return Done(View());
      }
      return Refused(NotStoppable);
    }

    /** Queues each listed row again and inserts its next execution. */
    method RequeueRows(datasets: seq<nat>)
      requires forall i :: 0 <= i < |datasets| ==> datasets[i] < |children|
      modifies this`children, this`execs
      ensures |children| == |old(children)|
      ensures forall c :: 0 <= c < |children| ==> children[c] == if c in datasets then Queued else old(children)[c]
      ensures execs == old(execs) + seq(|datasets|, i requires 0 <= i < |datasets| => Exec(datasets[i], Assigned))
    {
      for i := 0 to |datasets|
        invariant |children| == |old(children)|
        invariant forall c :: 0 <= c < |children| ==>
                    children[c] == if c in datasets[..i] then Queued else old(children)[c]
        invariant execs == old(execs) + seq(i, k requires 0 <= k < i => Exec(datasets[k], Assigned))
      {
        var d := datasets[i];
        children := children[d := Queued];
        execs := execs + [Exec(d, Assigned)];
        assert datasets[..i + 1] == datasets[..i] + [d];
      }
      assert datasets[..|datasets|] == datasets;
    }

    method RetryRun(inputs: Inputs) returns (r: Reply)
      modifies this
      ensures r == Retry(old(View()), inputs)
      ensures View() == After(old(View()), r)
    {
      if status == RunDeleted {
        return Refused(NotFound);
      }
      if !RetryableRun(status) {
        return Refused(NotRetryable);
      }
      if !inputs.modelUsable {
        return Refused(ModelNotUsable);
      }
      var datasets := ToRetry(children);
      if |datasets| == 0 {
        return Refused(NothingToRetry);
      }
      if !inputs.sourcesReady {
        return Refused(SourceNotReady);
      }
      RequeueRows(datasets);
      status, failedCount := RunQueued, 0;
      assert children == Retried(old(View())).children;
      return Done(View());
    }

    method DeleteRun() returns (r: Reply)
      modifies this
      ensures r == Delete(old(View()))
      ensures View() == After(old(View()), r)
    {
      if status == RunDeleted {
        return Refused(NotFound);
      }
      if status == RunRunning || status == RunStopping {
        return Refused(NotDeletable);
      }
      RecastRows(Queued, Cancelled);
      status := RunDeleted;
      return Done(View());
    }

    /** The reconcile transaction for an inference execution; moved says whether a child was failed or stopped. */
    method LoseExecution(e: nat) returns (moved: bool)
      modifies this
      ensures View() == Lose(old(View()), e)
      ensures moved <==> e < |old(execs)| && old(execs)[e].status == Active &&
                         old(execs)[e].child < |old(children)| && Pending(old(children)[old(execs)[e].child])
    {
      if e >= |execs| || execs[e].status != Active {
        return false;
      }
      var c := execs[e].child;
      execs := execs[e := Exec(c, Lost)];
      if c >= |children| {
        return false;
      }
      var stopping := children[c] == Stopping;
      if children[c] != Queued && children[c] != Running && children[c] != Stopping {
        return false;
      }
      children := children[c := if stopping then Stopped else Failed];
      FinalizeRun();
      return true;
    }
  }

  /** The first of the ids that has no row, if any. */
  method FindMissing(ids: seq<nat>, rows: map<nat, SourceDataset>) returns (missing: Option<nat>)
    ensures missing.None? ==> forall s :: s in ids ==> s in rows
    ensures missing.Some? ==> missing.value in ids && missing.value !in rows
  {
    for i := 0 to |ids|
      invariant forall k :: 0 <= k < i ==> ids[k] in rows
    {
      if ids[i] !in rows {
        return Some(ids[i]);
      }
    }
    return None;
  }

  /** What makes the first unfit source unfit, if there is one. */
  method CheckSources(model: Model, ids: seq<nat>, rows: map<nat, SourceDataset>) returns (unfit: Option<Unfit>)
    requires forall s :: s in ids ==> s in rows
    ensures unfit.None? ==> forall s :: s in ids ==> SourceUnfit(model, rows[s]).None?
    ensures unfit.Some? ==> exists s :: s in ids && unfit == SourceUnfit(model, rows[s])
  {
    for i := 0 to |ids|
      invariant forall k :: 0 <= k < i ==> SourceUnfit(model, rows[ids[k]]).None?
    {
      var source := rows[ids[i]];
      assert ids[i] in ids;
      if !source.ready {
        return Some(NotReady);
      }
      if source.typeId != model.typeId {
        return Some(TypeMismatch);
      }
      if source.task != model.task {
        return Some(TaskMismatch);
      }
    }
    return None;
  }

  lemma SubmissionsAreAnswered(r: Request, t: Tables)
    ensures forall unfit: Option<Unfit> :: Answers(r, t, unfit) ==>
              (unfit.None? <==> Acceptable(r, t)) && (unfit.Some? ==> Justified(r, t, unfit.value))
  {
    forall unfit: Option<Unfit> | Answers(r, t, unfit)
      ensures (unfit.None? <==> Acceptable(r, t)) && (unfit.Some? ==> Justified(r, t, unfit.value))
    {
      AnswersAreRight(r, t, unfit);
    }
  }

  /** A submission is refused for a reason that applies, or a new run is there. */
  method Submit(request: Request, tables: Tables) returns (unfit: Option<Unfit>, run: InferenceRun?)
    ensures Answers(request, tables, unfit)
    ensures unfit.None? <==> Acceptable(request, tables)
    ensures unfit.Some? ==> Justified(request, tables, unfit.value)
    ensures unfit.Some? ==> run == null
    ensures unfit.None? ==> run != null && fresh(run) && run.View() == Created(|Distinct(request.sources)|)
  {
    SubmissionsAreAnswered(request, tables);
    var name := Trim(request.name);
    if |name| == 0 || |name| > 150 {
      return Some(NameInvalid), null;
    }
    var ids := Distinct(request.sources);
    assert ids == [] <==> request.sources == [] by {
      assert forall s :: s in ids <==> s in request.sources;
      assert request.sources != [] ==> request.sources[0] in ids;
      assert ids != [] ==> ids[0] in request.sources;
    }
    if |ids| == 0 {
      return Some(NoDatasets), null;
    }
    if request.model !in tables.models {
      return Some(ModelNotFound), null;
    }
    var model := tables.models[request.model];
    if !model.available {
      return Some(ModelNotAvailable), null;
    }
    if model.task != "DETECT" {
      return Some(TaskUnsupported), null;
    }
    var missing := FindMissing(ids, tables.sources);
    if missing.Some? {
      return Some(SourceNotFound), null;
    }
    unfit := CheckSources(model, ids, tables.sources);
    if unfit.Some? {
      return unfit, null;
    }
    if !tables.nameFree {
      return Some(NameTaken), null;
    }
    run := new InferenceRun(request.sources);
  }
}
