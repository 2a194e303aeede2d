# MutsukiCore: a verified model of the runtime's bookkeeping

This project models, in Dafny, the parts of MutsukiCore that keep its books: the task pool with its
bounded terminal history, the completion hub that wakes waiting hosts, the worker pool and the
asynchronous executor with their shared counters, the actor's tables of running and draining
invocations, dispatch capacity, the bounded observability log, the idempotent receipt store, variant
selection with its statistics, the suspend/resume adapter of the runner kit and the versioned state
store. It proves what these components keep over whole runs and under every interleaving of their steps.

`dafny verify dfyconfig.toml` checks everything. Each component has its own module:

| file | component |
|---|---|
| `TaskPoolModel`, `TaskPoolInvariants`, `TaskPoolRuns`, `TaskPoolRetention`, `TaskPoolEffects`, `TaskPoolOutcomes`, `TaskPoolLeases`, `TaskPoolWitnesses`, `TaskPoolStore` | the task pool: value model, invariants, all runs, what retention gives up, effects of single operations and exact outcomes, lease use, runs into the corner cases, the class updated in place |
| `CompletionHub`, `CompletionWakeups` | actor, hub, subscriptions and waiters as one interleaving machine over the task pool, and who is woken |
| `WorkerAccounting`, `WorkerIsolation` | the worker pool: counters step by step, isolation and replacement of threads |
| `AsyncExecutor`, `AsyncOutcomes` | three-stage reservations, abort handles and outcomes |
| `ActorInvocations` | running and draining invocations |
| `Scheduler`, `DispatchSelection` | hard capacity, policy clamps, per-tick reservations, conflict groups and batches |
| `BoundedLog` | numbered records, overflow, paging |
| `ReceiptStore` | idempotent receipts with expiry and budgets |
| `ExecutionVariants`, `SampleWindow` | variant selection, quantiles and histogram |
| `TaskAwaitAdapter` | suspended futures and call futures |
| `StateStore` | optimistic versions |
| `Sequences` | shared facts about sequences, sets and sums |

How the source's forms map: an object updated in place is a class whose methods are proved equal to a
function on its abstract value; code that several threads run at once is a state machine with one step
per atomic operation, lock region or message, and results are about every run of that machine. Clocks,
payload sizes, policy answers, termination and cancellation results, and what user futures do during a
poll are inputs of the model. Identifiers are numbers or text that is only compared.

What the model shows about the code:

- A wake or a timed wake drops awaits and does not compact, so the terminal history can exceed its limit
  until the next compaction (`WakeKeepsBoundIff`, `WakeCanExceedBound`).
- Ending a waiting task can evict the finished child that it alone awaited, since its awaits go before the
  compaction (`CoreFinishLeavesOthers`, `CoreFinishEvictsAwaited`).
- In compaction the parent side of the protection test never fires (`QueuedIsNoParent`).
- The worker capacity snapshot subtracts an exited, not yet replaced worker twice (`SnapshotUndercounts`,
  `SnapshotMissesAWorker`).
- A policy can ask for more entries than its batches hold; only the clamp at the claim repairs it
  (`EntriesFitBatchesIff`, `ClaimFitsBatches`).
- A late completion removes table entries by task id without comparing the invocation, so it untracks a
  newer invocation of a task that was submitted again under the same id (`CompletionSparesOthersIff`, `LateCompletionUntracks`).
- A lease can take effect twice when its task is forgotten, enqueued again and claimed by the same claimer
  at the same step (`SpentLeaseIff`, `ForgottenLeaseReturns`).
- The adapter tracks one task per invocation id although a batch can suspend several
  (`CancelReachesAllIff`, `CancelMissesATask`), and its one pending slot loses a child when a second call
  is polled pending in the same poll (`ChildReachesRuntimeIff`, `JoinLosesAChild`).
- The asynchronous executor sends its outcome before it returns its reservation, unlike the worker pool,
  which frees a dispatch's bytes first (`OutcomeReturnedIff`, `OutcomeBeforeRelease`,
  `BytesFreeBeforeCompletion`).
- The receipt store says that Duplicate receipts are never stored. That holds as long as no caller passes one
  in (`NoDuplicateStored`); one that is passed in under a new id and fits is stored
  (`DuplicateRememberedIff`, `DuplicateCanBeStored`).

## Model

| member | source | states |
|---|---|---|
| `TaskPoolStore.TaskPool.CompactTerminalHistory` | crates/mutsuki-runtime-core/src/task_pool.rs:595-629 | the rotating loop terminates, never meets a queued id without a record, and leaves the pool that evicts the oldest unprotected terminal records until the queue fits, in one step |
| `TaskPoolRuns.CompactionReachesBound` | crates/mutsuki-runtime-core/src/task_pool.rs:595-629 | a compaction ends within the limit or with every queued entry protected by an await, and removes exactly the chosen victims |
| `TaskPoolRetention.CompactionLeavesLimit` | crates/mutsuki-runtime-core/src/task_pool.rs:595-629 | a compaction forgets nothing while the queue is within its limit and never cuts a longer queue below the limit |
| `TaskPoolRetention.EvictsOldestFirst` | crates/mutsuki-runtime-core/src/task_pool.rs:600-615 | of two unprotected queued records the older is evicted first |
| `TaskPoolRetention.StepEvictsOnlyExcess` | crates/mutsuki-runtime-core/src/task_pool.rs:588-629 | every pool operation keeps every record or leaves a history that fills its limit |
| `TaskPoolInvariants.VictimsKnown` | crates/mutsuki-runtime-core/src/task_pool.rs:600-615 | victims are distinct stored terminal tasks, none of which is a key of either await map |
| `TaskPoolInvariants.RemainingQueue` | crates/mutsuki-runtime-core/src/task_pool.rs:595-629 | the queue left is duplicate-free and is the old queue minus the victims, in members and in length |
| `TaskPoolInvariants.CutSplits` | crates/mutsuki-runtime-core/src/task_pool.rs:600-615 | rotating past protected entries evicts a prefix of the unprotected entries in queue order |
| `TaskPoolInvariants.CompactKeeps` | crates/mutsuki-runtime-core/src/task_pool.rs:595-629 | compaction keeps counters, queue, forgotten-id horizon, await maps and totals in agreement, also in the middle of a larger operation |
| `TaskPoolInvariants.CompactEvolves` | crates/mutsuki-runtime-core/src/task_pool.rs:595-629 | compaction finishes nothing and revives nothing |
| `TaskPoolInvariants.RecordTerminalKeeps` | crates/mutsuki-runtime-core/src/task_pool.rs:588-593 | entering a finished task in the history keeps every invariant and empties its pending place |
| `TaskPoolInvariants.SetRecordCounts` | crates/mutsuki-runtime-core/src/task_pool.rs:71-101 | moving one record between status counters keeps each counter equal to the number of records with that status, although the decrement saturates |
| `TaskPoolInvariants.TerminalCount` | crates/mutsuki-runtime-core/src/task_pool.rs:216-223 | the five terminal counters add up to the number of terminal records |
| `TaskPoolInvariants.SubmittedSplit` | crates/mutsuki-runtime-core/src/task_pool.rs:71-101 | every task ever submitted is live or counted exactly once by the revision |
| `TaskPoolRuns.StepKeepsValid` | crates/mutsuki-runtime-core/src/task_pool.rs:111-125 | every pool operation keeps the whole invariant: exact counters, a queue that is a permutation of the terminal ids, a duplicate-free horizon disjoint from the records, and await maps that are inverse views of one relation |
| `TaskPoolRuns.RunsStayValid` | crates/mutsuki-runtime-core/src/task_pool.rs:111-125 | the invariant holds in every state of every run of operations and retention changes |
| `TaskPoolRuns.RebindKeeps` | crates/mutsuki-runtime-core/src/task_pool/transitions.rs:370-384 | rebinding ready tasks to a new generation keeps the invariant and finishes nothing |
| `TaskPoolRuns.RevisionStep` | crates/mutsuki-runtime-host/src/actor.rs:321-329 | one operation raises the revision by exactly the number of tasks it finished |
| `TaskPoolRuns.RevisionCountsFinished` | crates/mutsuki-runtime-host/src/actor.rs:321-329 | in every run, under any retention setting, the revision is the number of terminal transitions so far |
| `TaskPoolRuns.RevisionNoticesFinished` | crates/mutsuki-runtime-host/src/actor.rs:331-341 | between two states of a run the revision never drops, and it is unchanged only when no task finished in between |
| `TaskPoolRuns.DrainedMeansFinished` | crates/mutsuki-runtime-core/src/runtime.rs:235-242 | the drain test on the counters succeeds if and only if every stored task is terminal |
| `TaskPoolRuns.StepKeepsBound` | crates/mutsuki-runtime-core/src/task_pool.rs:588-629 | every operation but a wake keeps the history within its limit or held back by awaits |
| `TaskPoolRuns.WakeKeepsBoundIff` | crates/mutsuki-runtime-core/src/task_pool/transitions.rs:107-151 | a wake, which drops awaits without compacting, keeps that bound exactly when the queue already fits or each queued child is awaited by another parent |
| `TaskPoolWitnesses.WakeCanExceedBound` | crates/mutsuki-runtime-core/src/task_pool/transitions.rs:107-151 | a pool reached from the empty one, in which an awaited child has completed, whose history exceeds its limit after one wake |
| `TaskPoolRuns.QueuedIsNoParent` | crates/mutsuki-runtime-core/src/task_pool.rs:607-612 | a queued record never waits itself, so only the child side of the protection test can fire |
| `TaskPoolRuns.AwaitsNeverDangle` | crates/mutsuki-runtime-core/src/task_pool/awaits.rs:5-50 | in every run each recorded await names stored tasks, its parent is waiting and has exactly that await |
| `TaskPoolRuns.StaleLeaseStaysStale` | crates/mutsuki-runtime-core/src/task_pool/transitions.rs:418-464 | in every run a superseded lease is refused for every transition and every await as long as the record is stored, with no condition on later claims |
| `TaskPoolLeases.LeaseUsedAtMostOnce` | crates/mutsuki-runtime-core/src/task_pool/transitions.rs:10-237 | in every run, once a transition or an await has used a lease, both are refused under it, across eviction and re-enqueue, until a claim of the same task for the same claimer at the same step issues the same attempt |
| `TaskPoolLeases.SpentLeaseIff` | crates/mutsuki-runtime-core/src/task_pool/transitions.rs:418-464 | over every run a lease that is not current stays so exactly as long as no such claim happens |
| `TaskPoolLeases.LeaseReturnsIff` | crates/mutsuki-runtime-core/src/task_pool/claiming.rs:13-75 | of all operations only a claim by the same claimer at the same step and attempt makes a lease current |
| `TaskPoolLeases.DoneIffCurrent` | crates/mutsuki-runtime-core/src/task_pool/transitions.rs:418-470 | a transition is done exactly under a lease that is the record's current one and has not expired |
| `TaskPoolLeases.UseSpends` | crates/mutsuki-runtime-core/src/task_pool/transitions.rs:10-237 | a transition or an await needs its lease to be current and ends it |
| `TaskPoolWitnesses.ForgottenLeaseReturns` | crates/mutsuki-runtime-core/src/task_pool.rs:631-646 | from a reachable pool without horizon, a completed and forgotten task is enqueued and claimed again and the identical lease takes effect a second time |
| `TaskPoolEffects.ClaimThenTransition` | crates/mutsuki-runtime-core/src/task_pool/claiming.rs:13-75 | a claim gives each selected task a lease under which any transition succeeds until it expires and leaves the task in the status asked for |
| `TaskPoolEffects.ClaimGrantsLease` | crates/mutsuki-runtime-core/src/task_pool/claiming.rs:13-75 | a claim raises the attempt of each selected task by one and makes the claimer its owner |
| `TaskPoolEffects.EnqueueThenFinish` | crates/mutsuki-runtime-core/src/task_pool.rs:134-175 | an accepted task can be claimed at once and its first attempt can end in any way its claimer asks for |
| `TaskPoolEffects.LeasedLeavesOthers` | crates/mutsuki-runtime-core/src/task_pool/transitions.rs:10-237 | a leased transition changes no other record; what disappears had finished and was unprotected |
| `TaskPoolEffects.WaitLinks` | crates/mutsuki-runtime-core/src/task_pool/awaits.rs:5-50 | an accepted await parks the parent until its wake step and links parent and child in both maps |
| `TaskPoolEffects.ReleaseUndoesWait` | crates/mutsuki-runtime-core/src/task_pool/awaits.rs:60-83 | releasing a child leaves both await maps as if the await had never been recorded |
| `TaskPoolEffects.WakeEffect` | crates/mutsuki-runtime-core/src/task_pool/transitions.rs:107-131 | a woken task is ready and waits for nobody; awaits and records of others are untouched |
| `TaskPoolEffects.AbortDrains` | crates/mutsuki-runtime-core/src/task_pool/transitions.rs:316-347 | after an abort the counters read as drained and every unfinished task still stored is cancelled, the others unchanged |
| `TaskPoolOutcomes.CoreFinishEffect` | crates/mutsuki-runtime-core/src/task_pool/transitions.rs:239-269 | the core ends a task exactly when it is stored and unfinished; its record then has the terminal status asked for and no lease, claimer or owner, and it waits for nobody |
| `TaskPoolOutcomes.CoreFinishLeavesOthers` | crates/mutsuki-runtime-core/src/task_pool/transitions.rs:239-269 | every other record stays as it was unless it had finished and was awaited by nobody but the ended task |
| `TaskPoolWitnesses.CoreFinishEvictsAwaited` | crates/mutsuki-runtime-core/src/task_pool/transitions.rs:239-269 | a reachable pool in which ending a waiting parent evicts the finished child that it alone awaited |
| `TaskPoolOutcomes.RejectEffect` | crates/mutsuki-runtime-core/src/task_pool/transitions.rs:153-175 | a task is rejected exactly when it is ready, and its record is then failed and otherwise unchanged |
| `TaskPoolOutcomes.RejectLeavesOthers` | crates/mutsuki-runtime-core/src/task_pool/transitions.rs:153-175 | a rejection changes no other record; what disappears had finished and was unprotected |
| `TaskPoolOutcomes.ReclaimEffect` | crates/mutsuki-runtime-core/src/task_pool/transitions.rs:281-314 | of the tasks listed as expired exactly the running ones become ready without lease and claimer, and no table beside the records changes |
| `TaskPoolOutcomes.WakeAllEffect` | crates/mutsuki-runtime-core/src/task_pool/transitions.rs:133-151 | of the tasks due exactly the waiting and blocked ones become ready without lease and claimer |
| `TaskPoolOutcomes.WakeDoneIff` | crates/mutsuki-runtime-core/src/task_pool/transitions.rs:107-131 | a wake is done exactly for a waiting or blocked task and changes nothing otherwise |
| `TaskPoolOutcomes.ClaimEffect` | crates/mutsuki-runtime-core/src/task_pool/claiming.rs:13-75 | the whole record of a claimed task after a claim, and that no other record and no other table changes |
| `TaskPoolOutcomes.WaitAcceptedIff` | crates/mutsuki-runtime-core/src/task_pool/awaits.rs:5-50 | an await is accepted exactly under the current unexpired lease of its parent, for a stored unfinished child whose descriptor is the handle given and whose trace and correlation are those of the parent; otherwise nothing changes |
| `TaskPoolOutcomes.TakeWaitsEffect` | crates/mutsuki-runtime-core/src/task_pool/awaits.rs:60-83 | releasing a child removes exactly the awaits on it, and of the records only finished ones that nobody else awaits |
| `TaskPoolOutcomes.HorizonKeepsLatest` | crates/mutsuki-runtime-core/src/task_pool.rs:631-646 | after a compaction the forgotten ids are the latest of the remembered ones followed by the victims, the oldest going only for want of room |
| `TaskPoolOutcomes.ConfigureEffect` | crates/mutsuki-runtime-core/src/task_pool.rs:191-214 | dropping retention forgets queue and horizon and no record; installing it keeps the latest of the horizon and evicts only finished unprotected records |
| `TaskPoolOutcomes.RebindEffect` | crates/mutsuki-runtime-core/src/task_pool/transitions.rs:370-384 | rebinding changes the generation of the ready tasks of the old generation and nothing else |
| `TaskPoolOutcomes.RefusalsAreExact` | crates/mutsuki-runtime-core/src/task_pool/transitions.rs:10-269 | a refused wake, rejection, core finish or leased transition changes nothing, and says not found exactly when the record is missing |
| `TaskPoolOutcomes.AwaitRefusalIsExact` | crates/mutsuki-runtime-core/src/task_pool/awaits.rs:5-50 | a refused await changes nothing, and says not found exactly when the parent is missing, or the child is under an active lease of the parent |
| `TaskPoolStore.TaskPool.EnqueueAt` | crates/mutsuki-runtime-core/src/task_pool.rs:134-175 | updates the fields in place to the enqueued pool, or refuses a duplicate or an unencodable payload without a change |
| `TaskPoolStore.TaskPool.LeasedTransition` | crates/mutsuki-runtime-core/src/task_pool/transitions.rs:10-237 | performs the lease-checked transition in place, including history and awaits, and keeps the pool valid |
| `TaskPoolStore.TaskPool.FinishTask` | crates/mutsuki-runtime-core/src/task_pool/transitions.rs:239-269 | finishes a task by the core in place with the status asked for, unlinking its awaits, and keeps the pool valid |
| `TaskPoolStore.TaskPool.RebindReadyGeneration` | crates/mutsuki-runtime-core/src/task_pool/transitions.rs:370-384 | moves exactly the ready tasks of one registry generation to another, in place, and returns how many there were |
| `TaskPoolStore.TaskPool.RecordTerminalTask` | crates/mutsuki-runtime-core/src/task_pool.rs:588-593 | appends to the terminal queue and compacts |
| `TaskPoolStore.TaskPool.ConfigureHistoryRetention` | crates/mutsuki-runtime-core/src/task_pool.rs:191-214 | installs or drops retention: relists the terminal records by creation sequence, cuts the horizon and compacts |
| `TaskPoolStore.TaskPool.ListTerminal` | crates/mutsuki-runtime-core/src/task_pool.rs:191-214 | gathers a duplicate-free listing of all terminal ids, sorted by creation sequence |
| `TaskPoolStore.TaskPool.TrimEvictedTaskIds` | crates/mutsuki-runtime-core/src/task_pool.rs:640-646 | pops the oldest forgotten ids from queue and set until the capacity holds |
| `TaskPoolStore.TaskPool.RememberEvictedTaskId` | crates/mutsuki-runtime-core/src/task_pool.rs:631-638 | remembers one id, popping the oldest beyond the capacity, and nothing when the capacity is zero |
| `TaskPoolStore.TaskPool.RemoveWaits` | crates/mutsuki-runtime-core/src/task_pool/awaits.rs:85-103 | removes a parent from both await maps by following its own list |
| `TaskPoolStore.TaskPool.RecordStatusTransition` | crates/mutsuki-runtime-core/src/task_pool.rs:71-101 | moves one count between two status counters |
| `CompletionWakeups.NoLostWakeup` | crates/mutsuki-runtime-host/src/host.rs:71-102 | in every interleaving, a waiter that read a revision and was told to wait while some task was unfinished is awake, and its subscription is closed or above that revision, once that task has finished and the actor has published, unless it was answered anew |
| `CompletionWakeups.AllFinishedWakes` | crates/mutsuki-runtime-host/src/host.rs:518-555 | the same for any waiter all of whose handles have finished |
| `CompletionWakeups.ReturnsExactlyWhen` | crates/mutsuki-runtime-host/src/host.rs:518-555 | in every run a waiter returns in a step exactly when it times out, finds its subscription closed, or is answered while some handle has no record or every handle is stored with a terminal status |
| `CompletionWakeups.CheckDecides` | crates/mutsuki-runtime-host/src/host.rs:71-102 | a waiter at an open subscription sleeps exactly when there is no newer revision and asks again from the newer one otherwise |
| `CompletionWakeups.PublishReachesEveryone` | crates/mutsuki-runtime-host/src/host.rs:120-206 | a publication and the loop it starts leave every subscription in place, open or closed as before, and each open one at the revision of the pool |
| `CompletionWakeups.PublishNotifiesIff` | crates/mutsuki-runtime-host/src/actor.rs:331-341 | the actor starts the notification loop exactly when the revision has moved and the hub is open |
| `CompletionWakeups.OpenUntilClosed` | crates/mutsuki-runtime-host/src/host.rs:120-206 | in every run hub and subscription are open as long as nobody closes them |
| `CompletionWakeups.EventsTakeEffect` | crates/mutsuki-runtime-host/src/host.rs:71-118 | in every run the pool changes only by its own operations, closing a subscription leaves no sleeper on it, a dropped one is gone and a stirred sleeper looks again |
| `CompletionWakeups.SleepersHaveWork` | crates/mutsuki-runtime-host/src/host.rs:518-555 | after a publish, a sleeping waiter still has an unfinished handle |
| `CompletionHub.EventKeeps` | crates/mutsuki-runtime-host/src/host.rs:120-206 | every step of actor, hub, subscriptions and waiters keeps revisions ordered from pool to subscription and every wait justified |
| `CompletionHub.HistoriesKeepInv` | crates/mutsuki-runtime-host/src/actor.rs:331-341 | the hub invariant holds in every state of every interleaving that starts from any valid pool |
| `CompletionHub.CoreStepKeeps` | crates/mutsuki-runtime-host/src/actor.rs:496-506 | pool operations between an answer and its publication do not break a justified wait |
| `WorkerAccounting.CountersAlwaysExact` | crates/mutsuki-runtime-host/src/worker.rs:187-265 | in every interleaving of sender and workers each counter equals its sum over dispatches by stage, none is negative, and in-flight bytes stay within the limit |
| `WorkerAccounting.RefusedLeavesNothing` | crates/mutsuki-runtime-host/src/worker.rs:187-265 | a refused dispatch is handed back with its own contribution to every counter undone |
| `WorkerAccounting.GivenBackExactlyWhen` | crates/mutsuki-runtime-host/src/worker.rs:187-265 | a step gives a dispatch back for good exactly when it exceeds the whole byte budget, and for another try exactly when the pool refuses it, the bytes last seen leave no room or a refused send has been undone |
| `WorkerAccounting.GivenBackOnlyForCause` | crates/mutsuki-runtime-host/src/worker.rs:187-265 | in every run a dispatch given back was refused by the pool or its channel, or at some moment the bytes in flight left no room for it |
| `WorkerAccounting.FittingDispatchGoesThrough` | crates/mutsuki-runtime-host/src/worker.rs:187-265 | from every state of a run in which its bytes fit and the channel is free, an offered dispatch can be taken through to its announced completion |
| `WorkerAccounting.FittingOfferGoesThrough` | crates/mutsuki-runtime-host/src/worker.rs:187-265 | after every run a new offer that fits next to the bytes in flight can be served to completion whenever the channel is empty |
| `WorkerAccounting.BytesFreeBeforeCompletion` | crates/mutsuki-runtime-host/src/worker.rs:446-503 | when a completion message is in the mailbox the dispatch holds no bytes any more |
| `WorkerAccounting.ExecutingWasAnnounced` | crates/mutsuki-runtime-host/src/worker.rs:446-503 | in every run a worker executes a dispatch only after it has announced the start |
| `WorkerAccounting.QuiescentPoolIsEmpty` | crates/mutsuki-runtime-host/src/worker.rs:495-503 | when every dispatch is finished or refused all counters are zero and the queue is empty |
| `WorkerAccounting.StepKeeps` | crates/mutsuki-runtime-host/src/worker.rs:424-444 | every atomic step, including a failed compare-and-swap, keeps counters, queue and mailbox exact |
| `WorkerIsolation.ThreadsAreConserved` | crates/mutsuki-runtime-host/src/worker.rs:267-307 | in every run the pool is degraded exactly when the isolated set has reached its cap, and serving plus exited-but-unreplaced workers are the configured threads |
| `WorkerIsolation.SlotsMeanHealthyWorker` | crates/mutsuki-runtime-host/src/worker.rs:156-163 | the slots are the free places of the queue and none while the pool is degraded, and whenever there is one a healthy worker exists |
| `WorkerIsolation.SnapshotMissesAWorker` | crates/mutsuki-runtime-host/src/worker.rs:165-185 | every pool of two or more threads has a run after which the snapshot reports one healthy worker too few |
| `WorkerIsolation.SnapshotUndercounts` | crates/mutsuki-runtime-host/src/worker.rs:165-185 | the capacity snapshot subtracts exited workers twice; it is right exactly when none awaits replacement or no worker is healthy |
| `WorkerIsolation.IsolateReaches` | crates/mutsuki-runtime-host/src/worker.rs:267-285 | isolating succeeds exactly when the worker is isolated already or the cap leaves room, adds that worker and no other, and touches no thread |
| `WorkerIsolation.ReplaceReaches` | crates/mutsuki-runtime-host/src/worker.rs:287-307 | handling an exit forgets that worker, keeps the others, adds one serving thread, reopens a degraded pool and raises the healthy threads by one |
| `WorkerIsolation.IsolatedGetsReplaced` | crates/mutsuki-runtime-host/src/worker.rs:267-307 | an isolated worker can leave the count, report its exit and be replaced, in that order and in no other |
| `WorkerIsolation.WorkerPool.Open` | crates/mutsuki-runtime-host/src/worker.rs:115-154 | refuses zero threads, queue, byte budget or isolation capacity, else spawns the configured threads and establishes the invariant |
| `WorkerIsolation.WorkerPool.IsolateThread` | crates/mutsuki-runtime-host/src/worker.rs:267-285 | isolates a worker unless the cap is reached, in place, keeping the invariant for a worker of the pool |
| `WorkerIsolation.WorkerPool.ReplaceExitedThread` | crates/mutsuki-runtime-host/src/worker.rs:287-307 | replaces an exited isolated worker by a new thread, in place, and ignores any other id |
| `AsyncExecutor.ReservationsAlwaysExact` | crates/mutsuki-runtime-host/src/async_executor.rs:170-207 | in every interleaving each of the three counters equals the sum over invocations holding that stage, within its limit and never negative |
| `AsyncExecutor.AllReturned` | crates/mutsuki-runtime-host/src/async_executor.rs:397-409 | when every invocation was rejected or dropped its reservation, all three counters are zero and no handle is listed |
| `AsyncExecutor.ReservationDecides` | crates/mutsuki-runtime-host/src/async_executor.rs:170-207 | each of the three counters is taken exactly when the value seen leaves room for the call, and rolled back from otherwise |
| `AsyncExecutor.ReservationWaitsFor` | crates/mutsuki-runtime-host/src/async_executor.rs:411-430 | a reservation can decide exactly when the value seen leaves no room or is still the value of the counter, and can always reload |
| `AsyncExecutor.TurnedAwayOnlyWhenFull` | crates/mutsuki-runtime-host/src/async_executor.rs:170-207 | in every run a call is turned away only if at some moment one of the counters had no room for it |
| `AsyncExecutor.HandlesMatchTasks` | crates/mutsuki-runtime-host/src/async_executor.rs:211-278 | an abort handle is listed exactly while its task is gated, running or settled and was not cancelled |
| `AsyncExecutor.CancelledCanBeStopped` | crates/mutsuki-runtime-host/src/async_executor.rs:211-278 | in every run exactly a cancelled task that is gated or running can be stopped, and it then returns its reservation without an outcome |
| `AsyncExecutor.CancelReaches` | crates/mutsuki-runtime-host/src/async_executor.rs:264-278 | in every run a cancel takes exactly the listed handles it is meant for off the table and marks their tasks aborted |
| `AsyncExecutor.OneOutcomePerCall` | crates/mutsuki-runtime-host/src/async_executor.rs:211-263 | no invocation reports more than one outcome |
| `AsyncOutcomes.OutcomeReturnedIff` | crates/mutsuki-runtime-host/src/async_executor.rs:211-263 | in every run, of a call whose outcome is out nothing is held any more exactly when its drop has finished or the counters still to be lowered were raised by zero |
| `AsyncOutcomes.OutcomeBeforeRelease` | crates/mutsuki-runtime-host/src/async_executor.rs:211-263 | for every limit and every call that fits, a run in which the outcome is out and all three amounts are still held |
| `AsyncExecutor.StepKeeps` | crates/mutsuki-runtime-host/src/async_executor.rs:411-430 | every atomic step, including rollback and a failed compare-and-swap, keeps counters, handles and outcomes consistent |
| `ActorInvocations.NeverBoth` | crates/mutsuki-runtime-host/src/actor.rs:1223-1286 | given fresh ids, no invocation is ever both draining and in the running table |
| `ActorInvocations.EntriesAlwaysUniform` | crates/mutsuki-runtime-host/src/actor.rs:1476-1658 | in every run the entries of one invocation agree on runner, isolation and kind |
| `ActorInvocations.TerminatedAtMostOnce` | crates/mutsuki-runtime-host/src/actor.rs:1270-1273 | over a whole run the termination handle of an invocation is fired at most once, however many of its tasks expire |
| `ActorInvocations.FiresExactlyWhenDrained` | crates/mutsuki-runtime-host/src/actor.rs:1270-1273 | in every run a step fires the termination handle of an invocation exactly when it moves it to the drain table and its dispatch is hard-isolated |
| `ActorInvocations.DrainingFollowsDispatch` | crates/mutsuki-runtime-host/src/actor.rs:1270-1284 | in every state of a run a draining invocation is an outstanding worker dispatch under its own runner, recoverable exactly when it is hard-isolated and its termination succeeded |
| `ActorInvocations.ExpireTickReaches` | crates/mutsuki-runtime-host/src/actor.rs:1188-1221 | a tick deadline ends the tracking of its task, and of another exactly when that belongs to the same asynchronous invocation and the executor cancelled it |
| `ActorInvocations.CancelAsyncReaches` | crates/mutsuki-runtime-host/src/actor.rs:1346-1369 | a cancel ends the tracking of exactly the tasks of an asynchronous invocation that the executor cancelled |
| `ActorInvocations.OverdueIff` | crates/mutsuki-runtime-host/src/actor.rs:1155-1174 | an entry is overdue exactly when its wall-clock deadline, the grace period after a cancel or the health period after the start has come |
| `ActorInvocations.CompletionSettles` | crates/mutsuki-runtime-host/src/actor.rs:944-985 | a completion leaves its invocation in neither table and the other draining ones in place; its tasks leave the running table exactly when it was not draining |
| `ActorInvocations.SupervisionDrains` | crates/mutsuki-runtime-host/src/actor.rs:1138-1186 | supervision drains every overdue worker invocation under its runner, recoverable exactly when hard-isolated and terminated, however often it is listed; an asynchronous one loses its tasks exactly when cancelled |
| `ActorInvocations.SupervisionReaches` | crates/mutsuki-runtime-host/src/actor.rs:1138-1186 | in every run supervision leaves each overdue worker invocation it lists draining and no longer running |
| `ActorInvocations.CompletionSparesOthersIff` | crates/mutsuki-runtime-host/src/actor.rs:944-985 | a completion leaves all other invocations tracked exactly when none of its tasks is tracked under another invocation |
| `ActorInvocations.LateCompletionUntracks` | crates/mutsuki-runtime-host/src/actor.rs:944-985 | a run in which a task is dispatched again while its earlier invocation is outstanding, and the late completion ends the tracking of the newer one |
| `ActorInvocations.StepKeeps` | crates/mutsuki-runtime-host/src/actor.rs:1188-1286 | dispatch, deadline expiry, cancellation, supervision and completion keep entries tied to outstanding dispatches |
| `ActorInvocations.InvocationTables.IsolateInvocation` | crates/mutsuki-runtime-host/src/actor.rs:1223-1286 | moves an invocation from running to draining in place; fires the termination handle and records its answer only for a hard process |
| `ActorInvocations.InvocationTables.OverdueInvocations` | crates/mutsuki-runtime-host/src/actor.rs:1155-1174 | collects exactly the invocations with an overdue task |
| `ActorInvocations.InvocationTables.SuperviseRunning` | crates/mutsuki-runtime-host/src/actor.rs:1138-1186 | for every invocation: nothing changes without an overdue task; else a worker one drains under its runner with the answer of its termination, and an asynchronous one loses its tasks exactly when cancelled |
| `ActorInvocations.InvocationTables.HandleCompletion` | crates/mutsuki-runtime-host/src/actor.rs:944-985 | removes the completed invocation from the drain table or its tasks from the running table |
| `Scheduler.GrantIsAllowed` | crates/mutsuki-runtime-host/src/scheduler.rs:187-226 | a non-empty hard capacity breaks no limit in unbounded arithmetic: inflight plus granted entries, running plus granted batches, pool slots, waiting and exclusivity |
| `Scheduler.GrantIsLargest` | crates/mutsuki-runtime-host/src/scheduler.rs:187-226 | no allowed grant has more entries or more batches than the saturating computation returns |
| `Scheduler.ExhaustedMeansNothingAllowed` | crates/mutsuki-runtime-host/src/scheduler.rs:200-225 | nothing is granted if and only if nothing is allowed |
| `Scheduler.PolicyCannotExceed` | crates/mutsuki-runtime-host/src/scheduler.rs:101-136 | whatever a policy answers, the decision stays within the host and descriptor entry limits and the batch, slot and byte limits, and entries and batches are empty together |
| `Scheduler.ControlRunsOnlyKernel` | crates/mutsuki-runtime-host/src/scheduler.rs:163-185 | whatever a policy answers, a control runner is granted nothing unless it is the kernel, and the kernel at most one entry |
| `Scheduler.DefaultIsOptimal` | crates/mutsuki-runtime-host/src/scheduler.rs:78-97 | under the default policy the decision is allowed and no allowed grant is larger |
| `Scheduler.DecisionIsLargest` | crates/mutsuki-runtime-host/src/scheduler.rs:101-136 | the clamped decision is the largest one, in every part, that is within the policy answer and the hard capacity |
| `Scheduler.EntriesFitBatchesIff` | crates/mutsuki-runtime-core/src/runtime/scheduler.rs:27-44 | after the clamps the entries fit the batches exactly when the policy answered enough batches for its clamped entries |
| `Scheduler.EntriesCanOverrunBatches` | crates/mutsuki-runtime-core/src/runtime/scheduler.rs:27-44 | a concrete policy answer whose clamped entries exceed batch size times batches |
| `Scheduler.ClaimFitsBatches` | crates/mutsuki-runtime-core/src/runtime/runner_loop/dispatch_selection.rs:18-30 | the second clamp at the claim makes entries fit batches for every policy, and a claim has a positive batch size |
| `Scheduler.ClaimIsLargest` | crates/mutsuki-runtime-core/src/runtime/runner_loop/dispatch_selection.rs:18-30 | the claim takes the largest decision within the one given and the batches in flight, so a decision that fits is claimed unchanged |
| `Scheduler.TickFitsPool` | crates/mutsuki-runtime-host/src/actor.rs:1385-1473 | for every list of runners and every policy the batches granted in one tick on one pool add up to the reservation and fit the slots, when the pool showed no more than those; on the asynchronous pool for runners that are not control |
| `Scheduler.GrantedIff` | crates/mutsuki-runtime-host/src/actor.rs:1385-1473 | a runner takes slots in its turn exactly when the policy asks for something in every part and some grant is allowed with the slots left |
| `Scheduler.PoolsByKind` | crates/mutsuki-runtime-host/src/actor.rs:1385-1473 | every runner belongs to exactly one of the three pools, an asynchronous one to its own, else by its class |
| `Scheduler.ShrinkingSlotsOverrun` | crates/mutsuki-runtime-host/src/actor.rs:1385-1473 | two concrete turns with shrinking slots that leave more reserved than free |
| `DispatchSelection.SplitByConflict` | crates/mutsuki-runtime-core/src/runtime/runner_loop/batch.rs:151-178 | the groups concatenate to the claim, no two tasks of a group write the same resource, and each later group starts with a task that conflicts with the group before |
| `DispatchSelection.Chunk` | crates/mutsuki-runtime-core/src/runtime/runner_loop/dispatch_selection.rs:64-69 | batches are non-empty, within the size and number allowed, full but for the last, and nothing is left over when the group fits |
| `DispatchSelection.SelectDispatches` | crates/mutsuki-runtime-core/src/runtime/runner_loop/dispatch_selection.rs:57-74 | every claimed task is dispatched or deferred once and in order, and the first deferred task conflicts with a dispatched one |
| `BoundedLog.NothingIsMiscounted` | crates/mutsuki-runtime-core/src/logs.rs:31-143 | in every run of records, drains, reconfigurations and pages: numbers strictly increase within capacity, dropped plus retained plus drained are the attempts, and to a reader that joins at any point and any cursor no number is delivered twice, each record carries its attempt's body, and each number from there to its cursor is delivered or reported lost once |
| `BoundedLog.PageIsExact` | crates/mutsuki-runtime-core/src/logs.rs:102-143 | from any cursor with a positive limit a page holds exactly the retained records above the cursor and up to its end |
| `BoundedLog.PageCounts` | crates/mutsuki-runtime-core/src/logs.rs:111-142 | items plus lost are the numbers passed, a page moves on whenever something is ahead, truncated means more is ahead, and earliest bounds the retained numbers from below |
| `BoundedLog.PageIsFull` | crates/mutsuki-runtime-core/src/logs.rs:111-142 | a page short of its limit holds every retained record above the cursor; it ends at its last item or at the last number given out, and earliest is the number of a retained record |
| `BoundedLog.ReconfigurationKeeps` | crates/mutsuki-runtime-core/src/logs.rs:31-45 | a new profile keeps min(length, capacity) records; every record given up has a smaller number than every survivor under DropOldest and a larger one under DropNew, and each counts as dropped |
| `BoundedLog.ReconfigurationTakesEffect` | crates/mutsuki-runtime-core/src/logs.rs:31-45 | in every run a reconfiguration installs its profile and keeps min(length, capacity) records |
| `BoundedLog.RecordingGivesUp` | crates/mutsuki-runtime-core/src/logs.rs:69-100 | a record is kept exactly when there is room or the policy makes room; a full DropOldest log gives up its least number and nothing else |
| `BoundedLog.Paginate` | crates/mutsuki-runtime-benchmarks/src/host_api.rs:229-246 | the paging loop terminates and returns exactly the retained records after the cursor, with every other number counted as lost |
| `BoundedLog.BoundedLog.Configure` | crates/mutsuki-runtime-core/src/logs.rs:31-45 | cuts the deque in place to the reconfigured log, whose survivors `ReconfigurationKeeps` determines, and counts each record cut |
| `BoundedLog.BoundedLog.RecordWith` | crates/mutsuki-runtime-core/src/logs.rs:88-100 | numbers the attempt and keeps or drops it in place; a kept record is the last one |
| `BoundedLog.BoundedLog.MakeRoom` | crates/mutsuki-runtime-core/src/logs.rs:69-79 | makes room for one record or counts a drop |
| `BoundedLog.BoundedLog.DrainAll` | crates/mutsuki-runtime-core/src/logs.rs:230-232 | hands out all records and leaves numbering and drop count alone |
| `ReceiptStore.StoreHoldsLatestAcceptances` | crates/mutsuki-runtime-contracts/src/capability_request.rs:228-259 | in every run under a non-decreasing clock the store is a suffix of the first acceptances, each id once, within both budgets, and retained plus evicted are the acceptances |
| `ReceiptStore.ReplayIff` | crates/mutsuki-runtime-contracts/src/capability_request.rs:228-259 | a call accepts nothing new exactly when a first acceptance of its id is neither evicted nor expired; then it answers Duplicate with that first receipt, otherwise the caller's own receipt |
| `ReceiptStore.ShrinkIsLongest` | crates/mutsuki-runtime-contracts/src/capability_request.rs:253-257 | the survivors are the longest suffix within both budgets, for every limit including zero and for an oversized receipt |
| `ReceiptStore.ShrinkKeepsWhatFits` | crates/mutsuki-runtime-contracts/src/capability_request.rs:253-257 | a suffix survives exactly when its length and the sum of its estimates are within the limits |
| `ReceiptStore.RememberedIffItFits` | crates/mutsuki-runtime-contracts/src/capability_request.rs:242-258 | a first acceptance is remembered exactly when its receipt fits both budgets alone |
| `ReceiptStore.ExpiryIsExact` | crates/mutsuki-runtime-contracts/src/capability_request.rs:293-307 | stopping at the first fresh receipt removes exactly the expired ones |
| `ReceiptStore.ExpiryFollowsClock` | crates/mutsuki-runtime-contracts/src/capability_request.rs:293-307 | a receipt goes exactly when its completion time plus the time to live has been reached, or the time to live is zero |
| `ReceiptStore.GetSeesLive` | crates/mutsuki-runtime-contracts/src/capability_request.rs:265-275 | the read that only hides expired receipts agrees with a store that expired first |
| `ReceiptStore.IdempotentReceiptStore.AcceptOrDuplicateAt` | crates/mutsuki-runtime-contracts/src/capability_request.rs:228-259 | performs the acceptance in place; queue and table keep the same keys once each and the byte ledger stays the exact sum |
| `ReceiptStore.IdempotentReceiptStore.ExpireDueAt` | crates/mutsuki-runtime-contracts/src/capability_request.rs:293-307 | expires from the front of the queue in place |
| `ReceiptStore.IdempotentReceiptStore.EvictFront` | crates/mutsuki-runtime-contracts/src/capability_request.rs:319-328 | evicts the oldest receipt from queue, table and ledger, or reports an empty store |
| `ReceiptStore.IdempotentReceiptStore.OverItsBudget` | crates/mutsuki-runtime-contracts/src/capability_request.rs:309-317 | the table size and the ledger decide as the list of entries would |
| `ReceiptStore.IdempotentReceiptStore.GetAt` | crates/mutsuki-runtime-contracts/src/capability_request.rs:265-275 | looks up without removing and hides an expired receipt |
| `ReceiptStore.BytesBoundEntries` | crates/mutsuki-runtime-contracts/src/capability_request.rs:331-359 | in every run the ids and all texts of the stored receipts together, with 32 for each receipt, are within the byte budget |
| `ReceiptStore.BytesBoundEachReceipt` | crates/mutsuki-runtime-contracts/src/capability_request.rs:331-359 | in every run no stored receipt carries more text than the byte budget |
| `ReceiptStore.EstimateCountsTexts` | crates/mutsuki-runtime-contracts/src/capability_request.rs:331-374 | the estimate is the length of the id and of every code, message, remote task, key and leaf text of the receipt, plus 32, 16 for a rejection and 8 for each constant, array and object |
| `ReceiptStore.NoDuplicateStored` | crates/mutsuki-runtime-contracts/src/capability_request.rs:331-338 | in every run in which no call passed a Duplicate receipt, no stored receipt is a Duplicate |
| `ReceiptStore.DuplicateRememberedIff` | crates/mutsuki-runtime-contracts/src/capability_request.rs:242-258 | a new call leaves a Duplicate behind exactly when it passes one that fits the budgets on its own |
| `ReceiptStore.DuplicateCanBeStored` | crates/mutsuki-runtime-contracts/src/capability_request.rs:228-259 | under every policy with room for it, a run of one call that stores a Duplicate |
| `ExecutionVariants.ChoiceIsBest` | crates/mutsuki-runtime-contracts/src/execution_policy.rs:198-236 | selection takes a least compatible variant at the requested quality, else at the minimum only when fallback is permitted, else none, and none only when there is none |
| `ExecutionVariants.ChoicePrecedes` | crates/mutsuki-runtime-contracts/src/execution_policy.rs:198-281 | the chosen variant comes first by preference, then quality, then id among the compatible ones at its level, and is below the requested quality only under a policy that falls back |
| `ExecutionVariants.SelectionIgnoresOrder` | crates/mutsuki-runtime-contracts/src/execution_policy.rs:198-281 | with distinct ids a successful selection and all it reports depend only on which variants the catalogue holds, and a reordered catalogue gives the same answer also when selection fails |
| `ExecutionVariants.ChoiceIgnoresOrder` | crates/mutsuki-runtime-contracts/src/execution_policy.rs:198-236 | with distinct ids the chosen variant does not depend on catalogue order |
| `ExecutionVariants.MoreCapabilitiesNeverHurt` | crates/mutsuki-runtime-contracts/src/execution_policy.rs:142-171 | enlarging the capabilities never turns success into failure nor full quality into degraded, and replaces a full-quality choice only by a preceding variant |
| `ExecutionVariants.OutcomeIsHonest` | crates/mutsuki-runtime-contracts/src/execution_policy.rs:252-273 | the outcome says degraded exactly when nothing met the requested quality, fallback exactly when a variant of the type precedes the chosen one, and names as preferred the first variant of the type |
| `ExecutionVariants.FailureIsHonest` | crates/mutsuki-runtime-contracts/src/execution_policy.rs:236-251 | a failure reports the number of compatible variants, all below the requested quality and below the minimum when the policy falls back, and the recovery of its policy |
| `ExecutionVariants.FirstDifferenceDecides` | crates/mutsuki-runtime-contracts/src/execution_policy.rs:276-281 | two ids are ordered by the first character in which they differ |
| `ExecutionVariants.ShorterPrefixIsLess` | crates/mutsuki-runtime-contracts/src/execution_policy.rs:276-281 | an id comes before every id that extends it |
| `ExecutionVariants.SortSorts` | crates/mutsuki-runtime-contracts/src/execution_policy.rs:276-281 | the order is total and sorting keeps the members |
| `SampleWindow.FixedSampleWindow.QuantileOf` | crates/mutsuki-runtime-contracts/src/execution_policy.rs:388-398 | the quantile is that of the last min(n, 32) samples, and absent exactly when nothing was recorded |
| `SampleWindow.FixedSampleWindow.Record` | crates/mutsuki-runtime-contracts/src/execution_policy.rs:371-378 | the ring keeps exactly the last 32 samples |
| `SampleWindow.QuantileIsOrderStatistic` | crates/mutsuki-runtime-contracts/src/execution_policy.rs:388-398 | the quantile is a sample of the right rank and grows with the percentile |
| `SampleWindow.QuantileIsLeastCovering` | crates/mutsuki-runtime-contracts/src/execution_policy.rs:388-398 | the quantile is the least sample with at least the given percentage of the other samples at or below it |
| `SampleWindow.OrderStatisticUnique` | crates/mutsuki-runtime-contracts/src/execution_policy.rs:388-398 | no other value has that rank |
| `SampleWindow.RingIsLastSamples` | crates/mutsuki-runtime-contracts/src/execution_policy.rs:371-398 | the occupied part of the ring has the multiset and the quantiles of the last samples |
| `SampleWindow.RankInRange` | crates/mutsuki-runtime-contracts/src/execution_policy.rs:396 | the rank rounded up is within the window; zero and one hundred give the least and the greatest sample |
| `SampleWindow.FixedHistogram.Record` | crates/mutsuki-runtime-contracts/src/execution_policy.rs:342-351 | each bucket counts the samples between its bounds and the counts add up to the total |
| `SampleWindow.BucketOf` | crates/mutsuki-runtime-contracts/src/execution_policy.rs:342-348 | finds the one bucket whose bounds enclose the sample |
| `TaskAwaitAdapter.RunsKeepInv` | crates/mutsuki-runtime-sdk/src/lib.rs:637-706 | in every run of polls and cancels each tracked id points to a live suspended future and each call future hands out its child at most once |
| `TaskAwaitAdapter.RunOneKeepsTables` | crates/mutsuki-runtime-sdk/src/lib.rs:637-706 | a task that suspends is in both tables, one that finished or failed structurally is in neither, and other tasks keep theirs |
| `TaskAwaitAdapter.PollOutcome` | crates/mutsuki-runtime-sdk/src/lib.rs:637-706 | a poll completes exactly when the future is ready and is unsupported exactly when it is not and nothing pends; other futures and ids stay |
| `TaskAwaitAdapter.PollSettles` | crates/mutsuki-runtime-sdk/src/lib.rs:398-450 | a call is done exactly at a poll in which it had failed, or was submitted and has its answer |
| `TaskAwaitAdapter.CancelForgets` | crates/mutsuki-runtime-sdk/src/lib.rs:599-609 | a cancel removes the task last tracked under the id, or named by it, from both tables, and no other |
| `TaskAwaitAdapter.DropTakesEffect` | crates/mutsuki-runtime-sdk/src/lib.rs:599-609 | in every run a cancel step forgets exactly the task tracked under its id, or named by it |
| `TaskAwaitAdapter.FailedCallEnds` | crates/mutsuki-runtime-sdk/src/lib.rs:398-450 | a call that could not be prepared ends at its first poll and leaves the pending slot alone |
| `TaskAwaitAdapter.CancelReachesAllIff` | crates/mutsuki-runtime-sdk/src/lib.rs:537-550 | in every run a cancel by invocation id reaches all tasks suspended under it exactly when each of them is the task polled last under it, or is addressed by its own name |
| `TaskAwaitAdapter.CancelMissesATask` | crates/mutsuki-runtime-sdk/src/lib.rs:537-550 | two tasks suspended under one invocation id, of which the cancel leaves the first |
| `TaskAwaitAdapter.ChildReachesRuntimeIff` | crates/mutsuki-runtime-sdk/src/lib.rs:398-450 | a child submitted during a poll reaches the runtime exactly when the future stays pending and no later action polls an unblocked call that is new or not yet finished |
| `TaskAwaitAdapter.LostForGood` | crates/mutsuki-runtime-sdk/src/lib.rs:398-450 | a child not handed out when its call was submitted is never handed out later in the run |
| `TaskAwaitAdapter.JoinLosesAChild` | crates/mutsuki-runtime-sdk/src/lib.rs:398-450 | a task whose first poll joins two calls hands out the second child, and in no continuation of the run the first |
| `TaskAwaitAdapter.TaskAwaitRunnerAdapter.RunOneTask` | crates/mutsuki-runtime-sdk/src/lib.rs:637-706 | polls a task's future in place, creating it on first use and removing it when it is done |
| `TaskAwaitAdapter.TaskAwaitRunnerAdapter.RemoveInvocationByTask` | crates/mutsuki-runtime-sdk/src/lib.rs:545-550 | removes a future and every invocation id that points to it |
| `TaskAwaitAdapter.TaskAwaitRunnerAdapter.CancelInvocation` | crates/mutsuki-runtime-sdk/src/lib.rs:599-609 | cancels by invocation id or by task id in place |
| `StateStore.VersionCountsAccepted` | crates/mutsuki-runtime-core/src/state_store.rs:14-28 | in every run a version is the number of deltas accepted for its reference and the value is the last one's patch |
| `StateStore.CurrentMeansUntouched` | crates/mutsuki-runtime-core/src/state_store.rs:34-61 | expectations that hold at two points of a run held throughout, and every value they name is unchanged in between |
| `StateStore.OneWinnerPerVersion` | crates/mutsuki-runtime-core/src/state_store.rs:14-28 | of all deltas that expect the same version of a reference at most one is accepted |
| `StateStore.StateStore.Apply` | crates/mutsuki-runtime-core/src/state_store.rs:14-28 | applies a delta in place at the version it expects, else refuses without a change |
| `StateStore.StateStore.ValidateExpectations` | crates/mutsuki-runtime-core/src/state_store.rs:34-61 | succeeds exactly when every expectation holds, else reports the first that does not with the version found |

## Left out

- Saturation of 64-bit counters: totals, revisions, sequence numbers, ledgers and shared counters are unbounded here and so never saturate; only `Scheduler` models the machine word.
- Ready-queue indexes, candidate selection order, lane and byte budgets of a claim: a claim takes any duplicate-free list of ready tasks; an abort takes the list of live tasks that the index yields.
- Index guarantees: the pool steps assume what the indexes guarantee (claimed ids are ready and distinct, abort lists exactly the live tasks); every other refusal is modelled.
- Occupancy reports, event and trace records written beside a transition, and error texts: data plumbing.
- TaskPool wait_on_task, claim, wake, reclaim and abort as in-place methods: these are modelled on values, so update order inside one call is not captured for them.
- Memory ordering weaker than sequential consistency in the worker pool and the executor: each atomic operation is one step of one global order.
- Failing thread spawns and disconnected channels in `WorkerIsolation`: the source reports an error and stops.
- AsyncExecutor.HandlesMatchTasks: invocation ids are distinct here, so each call has its own place in the handle table; a second call under a listed id would replace the first handle.
- Pending-cancel lists, management handles and the core's own cancellation of tasks in the actor: they do not touch the two tables.
- The host-capacity figures (saturation, preferred batch size) shown to a policy: they inform its answer, which is arbitrary here.
- Isolation of a worker that was already replaced: its start and completion messages precede its exit message, so no running batch names it.
- Policy errors in a tick: an error ends the tick, so the reservations are those of the turns before it.
- Resource plans, parallel groups and version checks of a work batch: data plumbing around the conflict groups.
- ReceiptStore byte estimate: text lengths count characters, and the text of a number is an input.
- Fields of a variant that selection does not read (runner, plugin, version) and the floating-point moving average.
- Wire frames, codecs, process spawning, plugins, foreign interfaces and the async runtime itself: I/O and foreign code.
