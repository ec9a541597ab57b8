/**
 One inference run and its per-dataset children, moved by the API (create, stop,
 retry, delete), the training worker (claim, complete, stop, fail) and the
 scheduler (a lost execution). Worker steps check the child's status but, as in
 the worker's code, not whether their own execution is still alive.
 */
module InferenceModel {

  datatype RunStatus =
    | RunQueued | RunRunning | RunCompleted | RunPartiallyFailed | RunFailed
    | RunCancelled | RunStopping | RunStopped | RunDeleted

  datatype ChildStatus = Queued | Running | Completed | Failed | Cancelled | Stopping | Stopped

  datatype ExecStatus = Assigned | Active | Succeeded | ExecFailed | ExecCancelled | ExecStopped | Lost

  datatype Exec = Exec(child: nat, status: ExecStatus)

  /** The run row with its cached counters, the child rows and their executions. */
  datatype Aggregate = Aggregate(
    status: RunStatus,
    datasetCount: nat,
    completedCount: nat,
    failedCount: nat,
    children: seq<ChildStatus>,
    execs: seq<Exec>)

  /** The statuses a child still has to leave. */
  predicate Pending(c: ChildStatus) {
    c == Queued || c == Running || c == Stopping
  }

  predicate RetryableChild(c: ChildStatus) {
    c == Failed || c == Stopped || c == Cancelled
  }

  predicate RetryableRun(r: RunStatus) {
    r == RunPartiallyFailed || r == RunFailed || r == RunCancelled || r == RunStopped
  }

  function CountOf(children: seq<ChildStatus>, c: ChildStatus): nat {
    if children == [] then 0
    else CountOf(children[..|children| - 1], c) + if children[|children| - 1] == c then 1 else 0
  }

  predicate AnyPending(children: seq<ChildStatus>) {
    exists i :: 0 <= i < |children| && Pending(children[i])
  }

  /** The status a run ends in. */
  function Outcome(children: seq<ChildStatus>): RunStatus {
    if CountOf(children, Stopped) > 0 then RunStopped
    else if CountOf(children, Failed) == 0 then RunCompleted
    else if CountOf(children, Completed) > 0 then RunPartiallyFailed
    else RunFailed
  }

  /** Recount the children; when none is pending, a running or stopping run gets its outcome. */
  function Finalize(a: Aggregate): Aggregate {
    var counted := a.(completedCount := CountOf(a.children, Completed), failedCount := CountOf(a.children, Failed));
    if !AnyPending(a.children) && a.children != [] && (a.status == RunRunning || a.status == RunStopping)
    then counted.(status := Outcome(a.children))
    else counted
  }

  function PutChild(a: Aggregate, c: nat, status: ChildStatus): Aggregate
    requires c < |a.children|
  {
    a.(children := a.children[c := status])
  }

  function PutExec(a: Aggregate, e: nat, status: ExecStatus): Aggregate
    requires e < |a.execs|
  {
    a.(execs := a.execs[e := Exec(a.execs[e].child, status)])
  }

  /** A run of n datasets as create leaves it: every child queued with its own execution. */
  function Created(n: nat): Aggregate {
    Aggregate(RunQueued, n, 0, 0, seq(n, i => Queued), seq(n, i requires 0 <= i => Exec(i, Assigned)))
  }

  // ----- API -----------------------------------------------------------------

  datatype Refusal = NotFound | NotStoppable | NotRetryable | ModelNotUsable | NothingToRetry | SourceNotReady | NotDeletable
  datatype Reply = Done(a: Aggregate) | Refused(why: Refusal)

  /** Children matching one status moved to another. */
  function Recast(children: seq<ChildStatus>, from: ChildStatus, to: ChildStatus): seq<ChildStatus> {
    seq(|children|, i requires 0 <= i < |children| => if children[i] == from then to else children[i])
  }

  function RequestStop(a: Aggregate): Reply {
    match a.status
    case RunDeleted => Refused(NotFound)
    case RunRunning =>
      Done(a.(status := RunStopping, children := Recast(Recast(a.children, Queued, Stopping), Running, Stopping)))
    case RunQueued => Done(a.(status := RunCancelled, children := Recast(a.children, Queued, Cancelled)))
    case _ => Refused(NotStoppable)
  }

  /** The children a retry starts again, in row order. */
  function ToRetry(children: seq<ChildStatus>): (r: seq<nat>)
    ensures forall i :: 0 <= i < |r| ==> r[i] < |children| && RetryableChild(children[r[i]])
    ensures forall c :: 0 <= c < |children| && RetryableChild(children[c]) ==> c in r
  {
    if children == [] then []
    else
      var n := |children| - 1;
      ToRetry(children[..n]) + if RetryableChild(children[n]) then [n] else []
  }

  /** Every retryable child queued again, with a new execution each; the failed counter is set to 0. */
  function Retried(a: Aggregate): Aggregate {
    var which := ToRetry(a.children);
    a.(status := RunQueued,
       failedCount := 0,
       children := seq(|a.children|, i requires 0 <= i < |a.children| =>
         if RetryableChild(a.children[i]) then Queued else a.children[i]),
       execs := a.execs + seq(|which|, i requires 0 <= i < |which| => Exec(which[i], Assigned)))
  }

  /** Whether the model is available and unchanged, and whether every source to be read again is READY. */
  datatype Inputs = Inputs(modelUsable: bool, sourcesReady: bool)

  function Retry(a: Aggregate, inputs: Inputs): Reply {
    if a.status == RunDeleted then Refused(NotFound)
    else if !RetryableRun(a.status) then Refused(NotRetryable)
    else if !inputs.modelUsable then Refused(ModelNotUsable)
    else if ToRetry(a.children) == [] then Refused(NothingToRetry)
    else if !inputs.sourcesReady then Refused(SourceNotReady)
    else Done(Retried(a))
  }

  function Delete(a: Aggregate): Reply {
    if a.status == RunDeleted then Refused(NotFound)
    else if a.status == RunRunning || a.status == RunStopping then Refused(NotDeletable)
    else Done(a.(status := RunDeleted, children := Recast(a.children, Queued, Cancelled)))
  }

  // ----- Scheduler -------------------------------------------------------------

  /** An execution stopped sending heartbeats: its child fails, or stops if it was stopping. */
  function Lose(a: Aggregate, e: nat): Aggregate {
    if e >= |a.execs| || a.execs[e].status != Active then a
    else
      var c := a.execs[e].child;
      var lost := PutExec(a, e, Lost);
      if c >= |a.children| || !Pending(a.children[c]) then lost
      else Finalize(PutChild(lost, c, if a.children[c] == Stopping then Stopped else Failed))
  }

  // ----- Worker ----------------------------------------------------------------

  function Claim(a: Aggregate, e: nat): Aggregate
    requires e < |a.execs| && a.execs[e].child < |a.children|
  {
    var c := a.execs[e].child;
    match a.children[c]
    case Queued =>
      PutChild(PutExec(a, e, Active), c, Running).(status := if a.status == RunQueued then RunRunning else a.status)
    case Stopping => Finalize(PutChild(PutExec(a, e, ExecStopped), c, Stopped))
    case _ => PutExec(a, e, ExecCancelled)
  }

  function WorkerFail(a: Aggregate, e: nat): Aggregate
    requires e < |a.execs| && a.execs[e].child < |a.children|
  {
    var c := a.execs[e].child;
    var a' := PutExec(a, e, ExecFailed);
    Finalize(if a.children[c] == Completed || a.children[c] == Cancelled then a' else PutChild(a', c, Failed))
  }

  function WorkerStopped(a: Aggregate, e: nat): Aggregate
    requires e < |a.execs| && a.execs[e].child < |a.children|
  {
    var c := a.execs[e].child;
    Finalize(if a.children[c] == Stopping then PutChild(PutExec(a, e, ExecStopped), c, Stopped) else a)
  }

  function WorkerComplete(a: Aggregate, e: nat): Aggregate
    requires e < |a.execs| && a.execs[e].child < |a.children|
  {
    var c := a.execs[e].child;
    if a.children[c] == Running then Finalize(PutChild(PutExec(a, e, Succeeded), c, Completed))
    else if a.children[c] == Stopping then WorkerStopped(a, e)
    else WorkerFail(a, e)
  }

  // ----- Runs ------------------------------------------------------------------

  /** The rows plus the executions some worker process is still working on. */
  datatype System = System(a: Aggregate, alive: set<nat>)

  datatype Step =
    | DoStop | DoRetry(inputs: Inputs) | DoDelete
    | DoLose(exec: nat)
    | DoClaim(exec: nat) | DoComplete(exec: nat) | DoStopped(exec: nat) | DoFail(exec: nat) | DoCrash(exec: nat)

  function After(a: Aggregate, r: Reply): Aggregate {
    if r.Done? then r.a else a
  }

  predicate Held(s: System, e: nat) {
    e in s.alive && e < |s.a.execs| && s.a.execs[e].child < |s.a.children|
  }

  function Apply(s: System, step: Step): System {
    match step
    case DoStop => s.(a := After(s.a, RequestStop(s.a)))
    case DoRetry(inputs) => s.(a := After(s.a, Retry(s.a, inputs)))
    case DoDelete => s.(a := After(s.a, Delete(s.a)))
    case DoLose(e) => s.(a := Lose(s.a, e))
    case DoClaim(e) =>
      if e < |s.a.execs| && s.a.execs[e].status == Assigned && s.a.execs[e].child < |s.a.children| then
        System(Claim(s.a, e), if s.a.children[s.a.execs[e].child] == Queued then s.alive + {e} else s.alive)
      else s
    case DoComplete(e) => if Held(s, e) then System(WorkerComplete(s.a, e), s.alive - {e}) else s
    case DoStopped(e) => if Held(s, e) then System(WorkerStopped(s.a, e), s.alive - {e}) else s
    case DoFail(e) => if Held(s, e) then System(WorkerFail(s.a, e), s.alive - {e}) else s
    case DoCrash(e) => s.(alive := s.alive - {e})
  }

  function Run(s: System, steps: seq<Step>): System
    decreases |steps|
  {
    if steps == [] then s else Run(Apply(s, steps[0]), steps[1..])
  }

  /** A freshly created run of n datasets. */
  function Fresh(n: nat): System {
    System(Created(n), {})
  }
}
