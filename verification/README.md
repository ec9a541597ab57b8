# A verified model of the model-training platform

The platform trains YOLO models. Users submit training jobs and inference runs to an API;
a scheduler recovers lost executions, retries failures and releases jobs whose
dependencies are done; workers claim executions through messages that an outbox
publisher puts on a stream. This project models that machinery in Dafny and proves what
holds over every run of it, together with the platform's harder pure parts.

`dafny verify dfyconfig.toml` checks everything.

## How it is organised

**Training jobs.** `TrainingModel` has the tables (`training_jobs`, dependencies,
`job_executions`, `outbox_events`) and each database transaction as a function from
tables to tables; a system is the tables plus the worker processes still running and the
scheduler's current retry candidates, and a run is any sequence of steps of the API, the
scheduler and the workers. `TrainingTables`, `TrainingTransitions`, `TrainingRetries`,
`TrainingPromote`, `TrainingProgress` and `TrainingSnapshots` prove theorems about all runs;
`TrainingCounterexamples` has concrete runs for what the code does not guarantee.
`TrainingEffects` says what each transaction does to the rows without the functions it is
built from.
`TrainingStore` is the program as it is written: a class whose methods update the tables step by step, each proved equal to the
transaction of the model.

**Inference runs.** `InferenceModel` has one run with its per-dataset rows and their
executions, `InferenceInvariants` and `InferenceProgress` the theorems,
`InferenceEffects` what each transaction does to the rows and how a run ends,
`InferenceStore` the methods.

**Outbox.** `OutboxModel` lets any number of publisher ticks run at once, each a
transaction that locks rows and appends to a stream that does not roll back;
`OutboxInvariants`, `OutboxHistory` and `OutboxProgress` have the theorems,
`OutboxPublisher` the tick.

**Pure parts.** `EditDistance` (did-you-mean), `YoloText`, `YoloValues`, `YoloNumbers` and `YoloCli` (the
command line printer and parser), `Csv` (export and reader), `Canonical` (the text under
the configuration hash), `ClassMerge` (three class merges), `Roots` (who owns a path) and
`MigrateObjects` (copy and verify between object stores). `Decimal`, `Joining`,
`StringOrder`, `Whitespace` and `Wrappers` are shared helpers.

## Findings

Where the code does less than its comments or names suggest, the model keeps the code and
the exact condition is proved:

- An attempt number can pass `maxTrainingAttempts` although no user retries: a worker whose
  execution was declared lost can still fail the job, so that an error retry makes a newer
  execution while an older one can still be lost and retried (`LimitCanBePassed`; exactly when:
  `BudgetKeptExactly` for a step, `LimitKeptExactly` for a run; it cannot happen while workers stop
  writing with their execution: `OrderlyRunsStayWithinBudget`).
- Not every finished job can be retried: one that was never queued has no execution (`RetryNeedsAFirstDispatch`, `SomeFinishedJobsCannotBeRetried`).
- A scheduler retry copies the recorded configuration of the latest execution. That never differs
  from the job's own (`ConfigurationNeverDrifts`), but its hash can: a submission hashes the
  hyperparameters in the order it writes them, a user's retry in the order `jsonb` gives them
  back (`WrittenIsNotStored`, `OldHashCanBeRecorded`; exactly when: `RetriesRecordTheLatestHash`
  for what a retry records, `HashesPartExactly` for how the two hashes come to differ).
- A job can be queued although a dependency is not completed: the loss retry and the error
  retry do not look at dependencies (exactly those two: `OnlyAutomaticRetriesSkipDependencies`;
  such a run: `OldHashCanBeRecorded`).
- A queued inference run, unlike a training job (`NoJobIsStranded`, `EveryJobCanFinish`), can be
  left without a queued dataset, and then only the user's stop or delete moves it (`LateFailureStrands`, `TwoClaimsStrandTheRun`, `StrandedIsStuck`;
  exact step: `StrandsExactly`).
- The class check calls sources without any class compatible, the build refuses them
  (`NoClassIsCompatibleButRefused`).
- The string test for roots is not the test for path components. `/` as a root contains only itself
  and paths that start with `//` (`SlashContainsNothing`), so a target under it is refused only for
  another root that starts with `//` and contains it (`SlashRefusesExactly`; such a case:
  `SlashCanRefuse`). A root with an empty component, as `/u//v`, contains no path without one
  (`RepeatedSlashContainsNothing`). Among absolute roots these are exactly the ones for which the test
  is wrong on paths without empty components (`StringTestIsRightExactly`), and among absolute paths
  exactly those with an empty component are misjudged by some other root (`PathIsReadRightExactly`).
- The apostrophe that guards a CSV cell cannot be taken back: each formula has the same text as
  one other cell (`GuardIsAmbiguous`; exactly when: `GuardCollidesExactly` for two cells,
  `GridReadsBackExactly` for a grid).
- A target with a valid relative path can lie outside the root it was built from, exactly when the
  root ends in a blank once its trailing slashes are gone (`TargetsAreBelowTheirRoot`; the relative
  path `" "` leads out of each such root: `BlankTargetIsOutside`).
- The retry delay stays below the stale timeout only if that is above five seconds
  (`DelaysStayBelowTheTimeout`). The comment at reconcile.ts:491-492 fears that an unclaimed
  execution could look stale otherwise, but reconcile never looks at unclaimed ones (line 6).
- The table of legal transitions is not all that happens: a loss with attempts left takes a
  PREPARING or RUNNING job back to QUEUED (`TheTableCanBeLeft`; exactly then:
  `StepsFollowTheTableExactly`), and a FAILED job is requeued by the scheduler too, not only by
  the user's retry (exactly when: `OnlyRetriesReopen`).
- `migrate_objects.py` writes in every mode that is neither `verify` nor `dryrun`, a
  misspelt one included, into buckets that already exist (last clause of `Verifies`, in the
  contract of `Transfer`).

## Assumptions

Each transaction is one atomic step, or one that rolls back. Row ids are positions in
tables that only grow, assignment tokens are fresh numbers, `now()` is a clock that never
goes back. The scheduler's stages do not overlap (it holds a leader lock). Workers do what
`trainer.py` and `inferencer.py` do to the tables, in any order and at any time, and may
outlive their execution. A content digest stands for the content; a configuration hash for the
configuration and the key order it was computed from. A dataset's task and type stay what they
were when it was created, as no statement writes them.

## Model

| member | source | states |
|---|---|---|
| TrainingTables.StepKeepsTables | apps/api/src/training/training.service.ts:122-424 | Every step of the API, the scheduler or a worker keeps the tables sound: attempts numbered by position, one dispatch row per execution with its token and attempt, tokens unused before, dependencies on older jobs only |
| TrainingTables.RunKeepsTables | apps/scheduler/src/index.ts:28-63 | The same for every run, in any interleaving |
| TrainingTables.AttemptsAreGapFree | apps/scheduler/src/retry.ts:46-90 | In every reachable state a job's attempts are exactly 1..n without repeat, and n is how often the job was written QUEUED, over all five dispatch paths; QueuedWritesAreCounted and NewRowsAreCounted say which writes those are |
| TrainingTables.DispatchesMatchExecutions | apps/api/src/training/training.service.ts:281-295 | In every reachable state executions and dispatch events match one to one with equal token, job and attempt, and a token names one execution only: no dispatch is lost or doubled |
| TrainingTables.OnlyTheOwnTokenClaims | workers/training-worker/src/training_worker/trainer.py:89-110 | In every reachable state a claim with another execution's token changes nothing |
| TrainingProgress.NoJobIsStranded | apps/scheduler/src/reconcile.ts:425-501 | In every reachable state a QUEUED job has an ASSIGNED execution, and a PREPARING, RUNNING or STOPPING one an active execution that can end it or be declared lost |
| TrainingProgress.EveryJobCanFinish | apps/scheduler/src/index.ts:28-63 | From every reachable state some run of the scheduler and the workers alone, without any user, leaves every job completed, failed, cancelled or stopped |
| TrainingRetries.SettledRowUntouched | apps/scheduler/src/reconcile.ts:425-489 | No step other than the user's retry of that job changes the row of a completed, cancelled or stopped job |
| TrainingRetries.CancelSticks | apps/api/src/training/training.service.ts:403-424 | A cancelled job stays exactly as it is until the user retries it, through any run of the other steps, even when its old execution is declared lost or its worker keeps going |
| TrainingRetries.AutomaticRetriesBounded | apps/scheduler/src/reconcile.ts:445-501 | In any run with any number of user retries the scheduler creates at most 2(max-1) retries per job |
| TrainingRetries.BudgetKeptExactly | apps/scheduler/src/reconcile.ts:445-501 | Without user retries a step keeps all attempt numbers within the limit if and only if it is not the loss of an older execution while the newest already has the last number |
| TrainingRetries.LimitKeptExactly | apps/scheduler/src/reconcile.ts:445-501 | A run without user retries keeps all attempt numbers within the limit iff none of its steps loses an older execution while the newest has the last number |
| TrainingRetries.OrderlyRunsStayWithinBudget | apps/scheduler/src/retry.ts:206-248 | If no user retries and no worker writes after losing its execution, no attempt passes the limit and each job has at most one unfinished execution |
| TrainingRetries.RetryNeedsAFirstDispatch | apps/api/src/training/training.service.ts:307-356 | In every reachable state a finished job whose inputs are still good can be retried iff it has an execution, which is iff it was ever queued; one that was only ever blocked is refused |
| TrainingRetries.BackoffGrows | apps/scheduler/src/retry.ts:55-57 | From attempt 2 on each delay doubles the one before it until the cap |
| TrainingRetries.DelaysStayBelowTheTimeout | apps/scheduler/src/reconcile.ts:491-501 | Every retry delay is below the stale timeout, as the cap is meant to ensure, if and only if the timeout is above five seconds or there is no delay |
| TrainingTransitions.QueuedWritesAreCounted | apps/api/src/training/training.service.ts:368-388 | A step raises the count of a row's QUEUED writes by one exactly when the state before it calls for a loss retry, an error retry, a user's retry or a release of that job, and those steps leave it QUEUED; no other makes it QUEUED |
| TrainingTransitions.NewRowsAreCounted | apps/api/src/training/training.service.ts:231-296 | A new job starts QUEUED with one such write, or BLOCKED with none |
| TrainingTransitions.StepsFollowTheTableExactly | apps/api/src/training/training-state-machine.ts:12-25 | In every reachable state, whoever acts, a job's status stays or changes as the table of legal transitions has it, if and only if the step is not the loss of an active execution with attempts left whose job is PREPARING or RUNNING |
| TrainingTransitions.TableIsWhatHappens | apps/api/src/training/training-state-machine.ts:12-25 | Apart from SCHEDULED, which nothing enters, some step takes some job from one status to another if and only if the table has that entry, or it goes from PREPARING or RUNNING back to QUEUED |
| TrainingTransitions.OnlyRetriesReopen | apps/api/src/training/training-state-machine.ts:19-24 | A finished job is reopened if and only if its user retries it and the retry is admitted, or it failed and the scheduler retries it with attempts left |
| TrainingTransitions.OnlyAutomaticRetriesSkipDependencies | apps/scheduler/src/reconcile.ts:466-501 | A job whose dependencies are not all completed becomes QUEUED if and only if the step is a loss retry or an error retry of it |
| TrainingCounterexamples.LimitCanBePassed | workers/training-worker/src/training_worker/trainer.py:673-708 | A run without any user retry in which an attempt number passes the limit |
| TrainingCounterexamples.TheTableCanBeLeft | apps/scheduler/src/reconcile.ts:466-489 | A run after which a loss takes a RUNNING job to QUEUED, which the table does not have |
| TrainingCounterexamples.SomeFinishedJobsCannotBeRetried | apps/api/src/training/training.service.ts:353-356 | A run that leaves a cancelled job without an execution, so that its retry is refused |
| TrainingCounterexamples.OldHashCanBeRecorded | apps/scheduler/src/retry.ts:46-71 | A run with unchanging datasets in which a loss retry records a hash that is not the job's, and queues the job although its dependency is not completed |
| TrainingPromote.PassesConverge | apps/scheduler/src/promote.ts:21-108 | Repeated passes in any candidate order reach a fixpoint within as many passes as jobs are blocked; a blocked job ends FAILED iff a chain of blocked dependencies leads to a failed, cancelled or stopped job, QUEUED iff all its dependencies had completed, BLOCKED otherwise |
| TrainingPromote.NoDependencyCycle | apps/api/src/training/training.service.ts:155-165 | In every reachable state no walk along dependencies returns to where it started |
| TrainingPromote.PassBreaksTheWait | apps/scheduler/src/promote.ts:38-98 | In every reachable state with a blocked job in which all others are finished, one pass leaves strictly fewer jobs blocked |
| TrainingPromote.PassIsAStage | apps/scheduler/src/index.ts:54-63 | A pass is the promote stage of the model: one promote step per candidate |
| TrainingSnapshots.ConfigurationNeverDrifts | apps/scheduler/src/retry.ts:46-71 | In every run, with any retries, losses and lingering workers, each execution records its own job's configuration |
| TrainingSnapshots.WrittenIsNotStored | apps/api/src/training/training.service.ts:68-69 | Keys written with epochs, imgsz and batch first never come in the order jsonb stores them |
| TrainingSnapshots.RetriesRecordTheLatestHash | apps/scheduler/src/retry.ts:46-71 | A loss or error retry records its job's own hash if and only if the latest execution had it |
| TrainingSnapshots.HashesPartExactly | apps/api/src/training/training.service.ts:338-388 | The hashes of a job and its latest execution come to differ in a step if and only if the user retries a job that has to wait for a dependency and still has the hash of its submission |
| TrainingSnapshots.CalmRunsKeepTheHash | apps/scheduler/src/retry.ts:42-113 | In every run in which no job is blocked while one of its executions can still act, what a scheduler retry records is its job's own hash |
| TrainingSnapshots.ActiveExecutionRevivesTheOldHash | apps/scheduler/src/reconcile.ts:466-501 | Why that is needed: losing an active execution of a blocked job with a new hash always records the old one and queues the job |
| TrainingSnapshots.LingeringWorkerRevivesTheOldHash | workers/training-worker/src/training_worker/trainer.py:673-708 | Why that is needed for workers too: one still running for such a job can fail it so that the next error retry records the old hash |
| TrainingEffects.AdmittedExactly | apps/api/src/training/training.service.ts:128-143 | Inputs are admitted iff the data set is there and ready and the base model is available for its task, or, without one, the official weights exist; each refusal names a reason that applies |
| TrainingEffects.SubmissionsRecordTheirDependencies | apps/api/src/training/training.service.ts:145-171 | A submission is accepted iff it is valid, usable, its name free and every named job other than its own exists, and then records exactly the named dependencies; for a missing one it is refused |
| TrainingEffects.BlockedByNamedJobsExactly | apps/api/src/training/training.service.ts:249-256 | Where edges point back, the new job waits iff a job it names is not completed |
| TrainingEffects.ClonesAreDispatched | apps/api/src/training/training.service.ts:177-222 | A clone has its source's configuration and no dependencies and is dispatched as attempt 1 |
| TrainingEffects.StopsExactly | apps/api/src/training/training.service.ts:403-424 | A running job becomes STOPPING, one not started CANCELLED, all others are refused, and nothing else changes |
| TrainingEffects.RetriesReopen | apps/api/src/training/training.service.ts:307-401 | A retry succeeds iff the job is finished, usable and has an execution; it forgets failure and end, and waits or gets its next attempt |
| TrainingEffects.BackoffIs | apps/scheduler/src/retry.ts:55-57 | The delay before attempt n+2 is the base times 2 to the n, at most the larger of 5 and the timeout less 30 |
| TrainingEffects.LossesMoveTheirJob | apps/scheduler/src/reconcile.ts:425-501 | Losing an active execution stops a stopping job, leaves a finished one, fails one without attempts left, and requeues any other with a delayed next attempt |
| TrainingEffects.CandidatesAre | apps/scheduler/src/retry.ts:189-204 | The error-retry stage considers exactly the jobs failed with one of four codes within the window |
| TrainingEffects.ErrorRetriesRequeue | apps/scheduler/src/retry.ts:206-248 | A candidate is requeued iff it is still failed, was tried, and has an attempt left |
| TrainingEffects.PromotionsMoveBlockedJobs | apps/scheduler/src/promote.ts:38-98 | A blocked job fails if a dependency failed, is dispatched if all are completed, and waits otherwise |
| TrainingEffects.ClaimsExactly | workers/training-worker/src/training_worker/trainer.py:89-110 | A claim with the own token prepares a queued job and cancels the execution of any other |
| TrainingEffects.WorkersMoveTheirJob | workers/training-worker/src/training_worker/trainer.py:595-752 | What a worker's start, completion, failure and stop do to its execution and job |
| TrainingStore.TrainingStore.Transition | apps/api/src/training/training-state-machine.ts:53-82 | The guarded transition changes the row exactly when the table of legal moves allows it, and refuses otherwise |
| TrainingStore.TrainingStore.InsertExecution | apps/api/src/training/training.service.ts:281-295 | Inserts an execution and its dispatch event with one fresh token |
| TrainingStore.TrainingStore.AnyDepUnfinished | apps/api/src/training/training.service.ts:249-254 | The dependency scan finds an unfinished one exactly when not all are completed |
| TrainingStore.TrainingStore.DispatchInitialRow | apps/api/src/training/training.service.ts:231-296 | A new row is blocked or dispatched as attempt 1 as the model has it |
| TrainingStore.TrainingStore.Submit | apps/api/src/training/training.service.ts:122-171 | A submission leaves the tables the model's transaction gives: its edges are the old ones and one to each named job but itself, it is BLOCKED iff one it depends on is not completed, and among usable requests it is refused for a missing dependency iff a named job has no row; a refusal changes nothing |
| TrainingStore.TrainingStore.CloneJob | apps/api/src/training/training.service.ts:177-222 | The same for a clone, which takes over the stored configuration and no dependencies |
| TrainingStore.TrainingStore.Retry | apps/api/src/training/training.service.ts:305-401 | The same for a user's retry, including the rollback for a job that never had an execution |
| TrainingStore.TrainingStore.Stop | apps/api/src/training/training.service.ts:403-424 | A RUNNING row becomes STOPPING, a QUEUED, PREPARING, SCHEDULED or BLOCKED one CANCELLED, nothing else changes, and the call is refused iff the job is missing, finished or stopping |
| TrainingStore.TrainingStore.InsertRetry | apps/scheduler/src/retry.ts:42-113 | A retry is the latest attempt plus one with the latest configuration and the capped delay |
| TrainingStore.TrainingStore.LoseOne | apps/scheduler/src/reconcile.ts:255-511 | One loss transaction leaves the model's tables; it says lost iff the execution was active, retried iff there is a new execution, failed iff the loss fails its job |
| TrainingStore.TrainingStore.Reconcile | apps/scheduler/src/reconcile.ts:229-521 | The loop over candidates leaves the tables of losing them one after another, and its three counts equal the losses, new executions and failed jobs on the way |
| TrainingStore.TrainingStore.RetryFailedJobs | apps/scheduler/src/retry.ts:189-267 | The error-retry loop leaves the tables of retrying its candidates one after another, and counts exactly the executions it added |
| TrainingStore.TrainingStore.PromoteOne | apps/scheduler/src/promote.ts:33-98 | One promote transaction leaves the model's tables; its two flags say exactly whether and how it acted |
| TrainingStore.TrainingStore.PromoteBlocked | apps/scheduler/src/promote.ts:21-108 | The promote loop is a pass of the model; what it counts as promoted is the number of new executions, and both counts together are the fall in blocked jobs |
| TrainingStore.ReconcileIsARun | apps/scheduler/src/index.ts:30-33 | What the reconcile loop does is a run of the model, so the theorems about runs hold of it |
| TrainingStore.RetryStageIsARun | apps/scheduler/src/index.ts:40-48 | The same for the error-retry loop |
| InferenceInvariants.StepKeepsValid | apps/scheduler/src/reconcile.ts:127-227 | Every create, claim, finish, fail, stop, cancel, loss, retry and delete keeps run status, cached counters and dataset rows consistent |
| InferenceInvariants.CountersAreExact | apps/scheduler/src/reconcile.ts:173-194 | In every reachable state the cached completed and failed counts equal a recount of the rows |
| InferenceInvariants.StatusMatchesChildren | apps/scheduler/src/reconcile.ts:196-209 | In every reachable state a run that is not deleted is COMPLETED iff all its datasets are, a RUNNING or STOPPING one has a dataset left to finish, a finished one has none |
| InferenceInvariants.RetryAlwaysHasWork | apps/api/src/inference/inference.service.ts:212-299 | The refusal of a retry for lack of datasets is unreachable; a retry leaves exactly the untouched completed rows and queued ones, with the hard-coded failed count of 0 right |
| InferenceEffects.RunsEndAsTheirDatasetsSay | apps/scheduler/src/reconcile.ts:173-209 | Whatever happens next in a reachable state with a started run: while a dataset is unfinished it goes on, and once none is it is STOPPED iff some dataset is, COMPLETED iff all are, PARTIALLY_FAILED iff none is stopped and some failed and some are completed, FAILED iff none is stopped or completed |
| InferenceEffects.StopsExactly | apps/api/src/inference/inference.service.ts:159-196 | A running run has its queued and running datasets stopping, a queued one its queued ones cancelled, no other can be stopped |
| InferenceEffects.RetriesStartAgain | apps/api/src/inference/inference.service.ts:212-299 | A retry needs a run that ended without completing, a dataset to do again, a usable model and ready sources, and gives each such dataset exactly one new execution |
| InferenceEffects.DeletesExactly | apps/api/src/inference/inference.service.ts:320-381 | Running and stopping runs cannot be deleted; the queued datasets of others are cancelled |
| InferenceEffects.LossesEndTheirDataset | apps/scheduler/src/reconcile.ts:127-164 | Losing an active execution stops a stopping dataset and fails a queued or running one |
| InferenceEffects.ClaimsExactly | workers/training-worker/src/training_worker/inferencer.py:138-181 | A claim starts a queued dataset, stops one being stopped, and cancels the execution of any other |
| InferenceEffects.WorkersEndTheirDataset | workers/training-worker/src/training_worker/inferencer.py:400-523 | What completion, failure and stop of a worker do to its execution and dataset |
| InferenceProgress.LateFailureStrands | workers/training-worker/src/training_worker/inferencer.py:459-503 | A run that ends queued without a queued dataset: the first worker fails the row a retry queued again |
| InferenceProgress.TwoClaimsReach | apps/api/src/inference/inference.service.ts:159-196 | The first half of a second such run: cancel and retry leave two claimable executions of one dataset |
| InferenceProgress.TwoClaimsStrand | workers/training-worker/src/training_worker/inferencer.py:138-181 | Its second half, in which no execution is ever declared lost |
| InferenceProgress.TwoClaimsStrandTheRun | workers/training-worker/src/training_worker/inferencer.py:138-181 | Both halves together: from submission to a stranded run without any loss |
| InferenceProgress.StrandedIsStuck | apps/api/src/inference/inference.service.ts:212-224 | Nothing but the user's stop or delete moves a run that is queued without a queued dataset |
| InferenceProgress.StrandsExactly | apps/scheduler/src/reconcile.ts:140-227 | A step strands a run iff the run is queued and the step fails or loses the only queued dataset |
| InferenceProgress.QueuedRunsCanStart | workers/training-worker/src/training_worker/inferencer.py:138-181 | If workers write only while they hold their execution and no dataset is claimed twice at once, every reachable queued run has a claim that starts it |
| InferenceStore.InferenceRun.constructor | apps/api/src/inference/inference.service.ts:108-146 | A new run has one queued row and one claimable execution per distinct source |
| InferenceStore.InferenceRun.FinalizeRun | apps/scheduler/src/reconcile.ts:173-225 | Both counters become the numbers of completed and failed rows, and a running or stopping run with no unfinished row is STOPPED iff a row is, COMPLETED iff none is stopped or failed, PARTIALLY_FAILED iff some failed and some completed, FAILED iff some failed and none completed |
| InferenceStore.InferenceRun.RecastRows | apps/api/src/inference/inference.service.ts:169-187 | The guarded update moves exactly the rows in the given status |
| InferenceStore.InferenceRun.Stop | apps/api/src/inference/inference.service.ts:159-196 | Stop and cancel leave the run and rows the model gives, or refuse and change nothing |
| InferenceStore.InferenceRun.RequeueRows | apps/api/src/inference/inference.service.ts:249-283 | The loop queues exactly the given rows again and adds one execution for each |
| InferenceStore.InferenceRun.RetryRun | apps/api/src/inference/inference.service.ts:212-299 | A retry leaves the run and rows the model gives, or refuses and changes nothing |
| InferenceStore.InferenceRun.DeleteRun | apps/api/src/inference/inference.service.ts:320-381 | The same for a deletion, which cancels queued rows |
| InferenceStore.InferenceRun.LoseExecution | apps/scheduler/src/reconcile.ts:127-227 | A loss ends a stopping dataset STOPPED and any other pending one FAILED, then recounts |
| InferenceStore.Submit | apps/api/src/inference/inference.service.ts:58-157 | Accepted iff name, model, every source, their task and type and the name's freedom are in order, with a fresh run of one row per distinct source; otherwise the reason given is one that applies |
| OutboxInvariants.StepKeepsSound | apps/api/src/outbox/outbox.publisher.ts:37-143 | Every step of any tick keeps rows, locks and stream sound: committed rows settled, a locked row waiting in the table, every stream entry accounted for |
| OutboxInvariants.RunKeepsSound | apps/api/src/outbox/outbox.publisher.ts:37-143 | The same for every run of any number of ticks |
| OutboxHistory.FinalStaysForGood | apps/api/src/outbox/outbox.publisher.ts:51-61 | Committed as PUBLISHED or DEAD, a row never changes again |
| OutboxHistory.PublishedAtMostOnce | apps/api/src/outbox/outbox.publisher.ts:92-100 | In every run an event is committed as published at most once, and no committed row is PROCESSING |
| OutboxHistory.StreamIsAccountedFor | apps/api/src/outbox/outbox.publisher.ts:75-142 | In every run the stream holds an event once if it is published, plus once per lost reply and per append of a rolled-back tick; a published event is in the stream |
| OutboxHistory.SmoothRunsDeliverExactlyOnce | apps/api/src/outbox/outbox.publisher.ts:75-142 | Without rollbacks and lost replies, every event no tick holds is in the stream exactly once if published and not at all otherwise |
| OutboxHistory.NothingIsSentEarly | apps/scheduler/src/retry.ts:71-89 | In every run, an event enqueued with a delay is not in the stream before the delay is over, whatever came before and comes after |
| OutboxProgress.EveryEventCanBePublished | apps/api/src/outbox/outbox.publisher.ts:37-143 | From every reachable outbox, whatever failed and whatever ticks are under way, some run publishes every event that is not dead, failed ones included |
| OutboxHistory.SevenWaits | apps/api/src/outbox/outbox.publisher.ts:12-14 | The seven waits are the powers of two from 2 to 128, none reaches the cap of 300, and they add up to 254 seconds |
| OutboxHistory.DeadAfterEightFailures | apps/api/src/outbox/outbox.publisher.ts:101-139 | In every run an event has at most eight attempts, is DEAD iff it failed eight times, and that is at least 254 seconds after its first failure; a failed one is due exactly its backoff after the last |
| OutboxHistory.RollbackGivesBack | apps/api/src/outbox/outbox.publisher.ts:144-149 | A rollback leaves the table and the stream as they are and every row of the batch eligible at once |
| OutboxPublisher.Publisher.PickBatch | apps/api/src/outbox/outbox.publisher.ts:40-62 | At most ten unlocked due rows that are PENDING or FAILED, oldest first; any such row left out is no older than all ten picked |
| OutboxPublisher.Publisher.LockBatch | apps/api/src/outbox/outbox.publisher.ts:66-73 | Locks the batch and marks it PROCESSING inside the transaction |
| OutboxPublisher.Publisher.SendOne | apps/api/src/outbox/outbox.publisher.ts:75-142 | One append and what it records: published, failed with a delay, or dead |
| OutboxPublisher.Publisher.RunTick | apps/api/src/outbox/outbox.publisher.ts:37-150 | A whole tick, with any replies and ending in a commit or a rollback, is a run of the model |
| EditDistance.Distance | packages/shared-types/src/yolo-args.ts:33-44 | The table filled row by row holds the value of the recurrence in its last cell |
| EditDistance.Neighbours | packages/shared-types/src/yolo-args.ts:38-41 | Neighbouring cells differ by at most one, which is why the diagonal may be taken on equal characters |
| EditDistance.DistanceIsLeastEdits | packages/shared-types/src/yolo-args.ts:33-44 | A script of at most n single-character edits exists iff the computed value is at most n |
| EditDistance.Symmetric | packages/shared-types/src/yolo-args.ts:33-44 | The value does not depend on which text comes first |
| EditDistance.ZeroOnlyOnEqual | packages/shared-types/src/yolo-args.ts:33-44 | The value is zero iff the texts are equal |
| EditDistance.Triangle | packages/shared-types/src/yolo-args.ts:33-44 | The value obeys the triangle inequality |
| EditDistance.Suggest | packages/shared-types/src/yolo-args.ts:46-55 | Answers the first of the nearest keys, and nothing iff all are further away than max(2, length/3) |
| EditDistance.ThresholdIs | packages/shared-types/src/yolo-args.ts:53-54 | Two edits are always near enough, more as long as three times as many do not exceed the length |
| EditDistance.OneTypoIsSuggested | packages/shared-types/src/yolo-args.ts:53-54 | If some known key is one edit away there is a suggestion, and it is at most one edit away |
| YoloText.TokensOfCommand | packages/shared-types/src/yolo-args.ts:205-209 | A command with one argument a line is cut into exactly its own words, with backslashes inside them left alone |
| YoloText.CommentIsBlank | packages/shared-types/src/yolo-args.ts:205 | A comment up to the end of its line is one blank |
| YoloText.ContinuationIsBlank | packages/shared-types/src/yolo-args.ts:205 | A backslash with the white space after it up to its last newline is one blank |
| YoloText.WordsAreRuns | packages/shared-types/src/yolo-args.ts:206-208 | White space separates the words before it from those after it |
| YoloNumbers.NumbersAreReadExactly | packages/shared-types/src/yolo-args.ts:223 | A text is a number iff it is empty, infinity, a radix prefix with digits of its base, or sign, digits with at most one point among them, and an exponent, each part optional but some digit |
| YoloNumbers.IntegersAreRead | packages/shared-types/src/yolo-args.ts:223 | Digits with a sign are that integer while it is exact |
| YoloNumbers.ValuesAreReadExactly | packages/shared-types/src/yolo-args.ts:214-224 | Six words are booleans or null, the number literals numbers, everything else a string |
| YoloNumbers.ListsAreReadExactly | packages/shared-types/src/yolo-args.ts:215-219 | For imgsz a text with commas is a list iff every piece is a finite number, namely of these numbers |
| YoloNumbers.FormatsAre | packages/shared-types/src/yolo-args.ts:233-239 | How each kind of value is written |
| YoloValues.ValueReadsBackExactly | packages/shared-types/src/yolo-args.ts:214-239 | A written value is read as itself iff it is a list of two or more finite numbers under imgsz, a string that is empty or looks like no other value, or a boolean, null or number |
| YoloCli.ParseYoloCli | packages/shared-types/src/yolo-args.ts:202-227 | Every assignment counts, the last one of a key wins, and stray tokens are those that are neither assignments nor subcommands |
| YoloCli.LastAssignmentWins | packages/shared-types/src/yolo-args.ts:210-224 | The last token of the form key=text decides a key's value |
| YoloCli.ArgumentsAreAssigned | packages/shared-types/src/yolo-args.ts:210-224 | No key is an argument that no token assigns |
| YoloCli.StraysExactly | packages/shared-types/src/yolo-args.ts:208-212 | A token is stray iff it is none of the five subcommands and has no `=` or nothing before it |
| YoloCli.BuildYoloCommand | packages/shared-types/src/yolo-args.ts:253-272 | Prints model, data, epochs, imgsz and batch first and the rest sorted, without the wizard's keys |
| YoloCli.ModelAndDataAre | packages/shared-types/src/yolo-args.ts:257-266 | The platform's model comes before a stored one, a stored data set before the platform's, and empty ones are left out |
| YoloCli.CommandIsOrdered | packages/shared-types/src/yolo-args.ts:256-272 | First model, data, epochs, imgsz and batch as far as they are there, then exactly the other stored arguments ascending by name, the wizard's keys left out |
| YoloCli.CommandReadsBack | packages/shared-types/src/yolo-args.ts:202-272 | Parsing a printed command gives no stray token and exactly the stored arguments without the wizard's keys, with the model and the data set, for all arguments whose keys and texts hold no white space or `#` and whose values each read back |
| YoloCli.InsertionOrderDoesNotShow | packages/shared-types/src/yolo-args.ts:249-251 | The same arguments stored in any order print the same text |
| StringOrder.LessIsByCodeUnits | packages/shared-types/src/yolo-args.ts:270 | Names are ordered as their UTF-16 code units are |
| Csv.ParseCsv | apps/web/src/components/ChartViewer.tsx:265-295 | The index loop with its look-ahead reads what the character-by-character reading gives |
| Csv.LineEndsAreAlike | apps/web/src/components/ChartViewer.tsx:279-284 | Outside quotes LF, CR and CR LF end the row alike |
| Csv.ExportCsv | apps/api/src/audit/admin-audit.service.ts:132-146 | The export is the text of the header row and one row per record |
| Csv.QuotedExactly | apps/api/src/audit/admin-audit.service.ts:86-91 | A cell is quoted iff a quote, comma or line end is in it, and otherwise only guarded |
| Csv.ParsePrint | apps/api/src/audit/admin-audit.service.ts:86-91 | Reading any printed grid gives its rows and cells, embedded quotes, commas, CR and LF included, changed only by the guard, without the rows of empty cells |
| Csv.AllRowsReadBackExactly | apps/web/src/components/ChartViewer.tsx:284-293 | All rows come back iff every row has a cell with something in it |
| Csv.ExportReadsBack | apps/api/src/audit/admin-audit.service.ts:132-146 | An export of records that have an id reads back as the header and every record |
| Csv.NoCellIsAFormula | apps/api/src/audit/admin-audit.service.ts:88-89 | No cell read back from a printed grid starts like a formula |
| Csv.GuardCollidesExactly | apps/api/src/audit/admin-audit.service.ts:88-89 | Two cells get the same guarded text if and only if they are equal or one is a formula and the other that formula with an apostrophe before it |
| Csv.GridReadsBackExactly | apps/web/src/components/ChartViewer.tsx:265-295 | A printed grid reads back as itself if and only if no row is blank and no cell starts like a formula |
| Csv.GuardIsAmbiguous | apps/api/src/audit/admin-audit.service.ts:88-89 | Every formula prints the same text as a different cell, so the guard cannot be undone |
| Canonical.CanonicalIsInjective | apps/api/src/training-datasets/training-datasets.service.ts:53-58 | Two JSON values have the same text iff they are equal with key order ignored at every depth |
| Canonical.Decodes | apps/api/src/training-datasets/training-datasets.service.ts:53-58 | A value's text followed by anything that may follow it determines both the value and what followed |
| Canonical.CanonicalTextIs | apps/api/src/training-datasets/training-datasets.service.ts:53-58 | Literals, quoted strings, items in brackets, members ascending by key in braces, no white space |
| Canonical.EscapesAre | apps/api/src/training-datasets/training-datasets.service.ts:54 | How each character stands in a string |
| ClassMerge.ValidateClasses | apps/api/src/source-datasets/source-datasets.service.ts:311-375 | Compatible iff no index has two names, even empty ones; one conflict for each index that has, naming its first row and the first that differs; every index listed once, ascending, with the sources it is present in |
| ClassMerge.ConfigureBuild | apps/api/src/training-datasets/training-datasets.service.ts:358-391 | Accepts iff no index has two names and there is a class, with the names in index order, otherwise names the first row that differs; other names are taken instead exactly if all of those are inferred ones and the others are as many, not empty and all different |
| ClassMerge.InferredExactly | apps/api/src/training-datasets/training-datasets.service.ts:60 | An inferred name is `class_` and at least one digit, and digits only |
| ClassMerge.GetClasses | apps/api/src/training-datasets/training-datasets.service.ts:537-547 | Lists every index once, ascending, with its first name |
| ClassMerge.ThreeMergesAgree | apps/api/src/training-datasets/training-datasets.service.ts:358-379 | For the same rows in any order the check says compatible iff the build can resolve the names or there is no class, and where it can, all three give the same list |
| ClassMerge.NoClassIsCompatibleButRefused | apps/api/src/training-datasets/training-datasets.service.ts:378-379 | Without any class the check is content and the build refuses |
| Roots.RelateIsMirrored | apps/api/src/common/roots.ts:31-38 | Asked the other way round, inside becomes contains |
| Roots.RelateIsAnOrder | apps/api/src/common/roots.ts:31-38 | Same-or-inside is reflexive, antisymmetric and transitive, for all strings |
| Roots.NormalizeIsExact | apps/api/src/common/roots.ts:23-26 | Normalizing takes off white space around a path and slashes at its end, and nothing else |
| Roots.ContainersAreNested | apps/api/src/common/roots.ts:60-64 | Two roots that contain the same path are the same or nested, the longer one inside |
| Roots.NestedWithinIsExact | apps/api/src/common/roots.ts:44-46 | The filter keeps exactly the roots strictly inside |
| Roots.WithinIsByComponents | apps/api/src/common/roots.ts:60-64 | The string test is the same as comparing path components, empty ones included |
| Roots.AssertNotInsideAnotherTypesRoot | apps/api/src/training-datasets/training-datasets.service.ts:116-138 | Accepts iff no other type's root strictly below this one contains the target; otherwise names the first that does |
| Roots.DeepestRootOwns | apps/api/src/common/roots.ts:12-13 | Under a root whose normal form does not end in a blank, a target is accepted iff no root that contains it is deeper than its own |
| Roots.TargetsAreBelowTheirRoot | apps/api/src/training-datasets/training-datasets.service.ts:119 | Every target built from a valid relative path lies below its root, if and only if the root's normal form does not end in a blank |
| Roots.BlankTargetIsOutside | apps/api/src/training-datasets/training-datasets.service.ts:30-33 | The valid relative path of one blank leads out of every root that ends in a blank |
| Roots.SlashContainsNothing | apps/api/src/common/roots.ts:60-64 | Within the root `/` are only `/` itself and the paths that start with `//`, and inside it exactly the latter |
| Roots.RepeatedSlashContainsNothing | apps/api/src/common/roots.ts:60-64 | A root with an empty component contains no path without one |
| Roots.WithinByComponents | apps/api/src/common/roots.ts:60-64 | For any absolute root and a path without empty components: the path is within iff the root's components begin it, the root has no empty component, and the root is not `/` unless the path is |
| Roots.StringTestIsRightExactly | apps/api/src/common/roots.ts:60-64 | For an absolute root the string test agrees with comparing non-empty components on all paths without empty components, if and only if the root has no empty component and is not `/` |
| Roots.PathIsReadRightExactly | apps/api/src/common/roots.ts:60-64 | For an absolute path it agrees at all such roots if and only if the path has no empty component |
| Roots.SlashRefusesExactly | apps/api/src/training-datasets/training-datasets.service.ts:116-138 | A target under the root `/` is accepted iff no other root that starts with `//` contains it |
| Roots.SlashCanRefuse | apps/api/src/training-datasets/training-datasets.service.ts:119-134 | Under `/` the target of `x/y` is refused for another root `//x` |
| MigrateObjects.Migration.Transfer | deploy/migrate_objects.py:113-165 | Each object counts exactly once: as present iff both sides can be read and agree, as copied iff it was not, the mode writes, and the write stored and gave back what was read; nothing is removed and only that object is written |
| MigrateObjects.Migration.Run | deploy/migrate_objects.py:86-215 | Exit 0 outside a dry run means every listed object is served by the target and every database row has an object; verify and dry run change nothing; every object is counted once; a target that already serves everything is left alone; a copy in which no read or write goes wrong has no failure |
| MigrateObjects.RunTwice | deploy/migrate_objects.py:122-126 | After a run that ends well a second one copies nothing |

## Left out

- TrainingStore.TrainingStore.Submit: what makes a name or a hyperparameter invalid, and where official weights are looked for, is one answer each of the catalog.
- TrainingStore.TrainingStore.Reconcile: which executions count as stale is left open (heartbeats are not modelled), so the candidate list is arbitrary.
- TrainingStore.TrainingStore.RetryFailedJobs: the maximum attempt is read before the row lock in the program; each transaction is one step here.
- OnlyTheOwnTokenClaims: a worker that finds its job no longer queued rolls its claim back and cancels the execution in a second transaction; the model does both in one step.
- InferenceStore.Submit: the search for another run of the same name ignoring case is an answer of the tables.
- LoseExecution: two workers finalising the same run at the same moment under read-committed isolation are not modelled; a finalisation is one step.
- EditDistance.Distance: strings are sequences of characters, not of UTF-16 code units.
- YoloCli.ParseYoloCli: keys such as `__proto__` and the trimming of list parts (tokens hold no white space) are not modelled.
- YoloValues.ValueReadsBackExactly: a number that is not a safe integer is known by the text it is written as, so two ways of writing it count as two values, and a literal too large for a double counts as finite.
- Canonical.CanonicalIsInjective: numbers in exponent notation and lone surrogates do not occur in the model's values.
- Csv.ExportCsv: the query behind the rows and its row limit are left out; a record is a map from column to text.
- ClassMerge.ValidateClasses: checks of source status, type and task, and image counts are left out.
- ClassMerge.ConfigureBuild: the checks of the sources themselves and the split settings are left out.
- MigrateObjects.Migration.Run: nobody else writes to the target during a run, and reading the key list from its file is left out.
- SCHEDULED training jobs: the status is in the table of legal moves, but no modelled transaction creates one.
- Attempt numbers of inference executions, and the image and diff rows of an inference run.
- Benchmark runs and the other kinds of execution in reconcile, which are single guarded updates or a different rule.
- `validateYoloArgs` and `validateExportArgs`, `isDatasetSubPath` and `getDataRoots`: case distinctions over tables, without a law that spans functions.
- Audit rows, notifications, row versions, timestamps other than the ones a later step reads.
- Redis consumer groups, S3 and SQL beyond the transactions above; sessions, permissions, telemetry and the web pages.
