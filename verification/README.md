# Rolling restarts, modelled and proved

`ydbops restart` restarts the nodes of a YDB cluster under locks that the cluster management system (CMS) grants.
It asks the CMS which lock actions are PERFORMED, restarts those nodes on a pool of workers, reports what is finished
with `CompleteAction`, refreshes the task and repeats. This project models that protocol, the checks and selections
around it, and the executable CMS of the end-to-end tests, and proves what the protocol keeps.

## How the model is built

| file | what it holds |
|---|---|
| `Progress.dfy` | the collector's updates (`handleRestartStatus`) as a fold, and why arrival order does not matter |
| `Dispatch.dfy` | one batch of goroutines as a step relation: push, take, restart, status send, delay, collect, close, semaphore, cancel; its inductive invariant |
| `DispatchSafety.dfy` | what holds in every interleaving: concurrency bounds, locks, refinement of the sequential loop |
| `DispatchOrder.dfy` | in which order actions and statuses go through a batch, and that outcomes arrive as they were |
| `DispatchLiveness.dfy` | a measure that falls at every step, deadlock freedom, and when a batch hangs |
| `DispatchPlan.dfy` | how the actions are split into handlers, and the limits for tenants read from the nodes |
| `Runs.dfy`, `RunTheorems.dfy` | whole runs of the loop against an arbitrary CMS: invariant, termination measure, exit |
| `Endings.dfy` | which rounds take away that a run can end, or that restarts are bounded |
| `Cancellation.dfy` | progress inside a batch, and runs that go on after a batch was cut short |
| `Rolling.dfy`, `LoopTheorems.dfy` | the `Rolling` object whose methods update its fields in place, and the loop end to end |
| `TurnTheorems.dfy` | which rounds the loop processes, what it knows and how it ends, from its turns alone |
| `MockCms.dfy`, `MockTheorems.dfy`, `ClosedSystem.dfy` | the mock CMS as an object, its limits counted in nodes, and the closed system of loop and CMS |
| `Makespan.dfy`, `TenantLocks.dfy` | greedy schedules and the lock duration, for `dispatchAll` and by tenant |
| `Pools.dfy` | a pool of workers in time: handing over at once yields a greedy schedule |
| `Timed.dfy`, `TimedSteps.dfy`, `TimedTheorems.dfy` | the steps of a batch in time: handlers are pools of workers, the semaphore is a pool of handlers; from there the bounds and the lock duration hold of the steps |
| `Compatibility.dfy` | the version check |
| `Selection.dfy`, `SelectionTheorems.dfy`, `Restarters.dfy` | the restarters' filter pipelines: as functions, what they select, and step by step |
| `SshArgs.dfy`, `Retries.dfy` | the SSH argument tokenizer and the retry wrapper |
| `Collections.dfy`, `Sums.dfy`, `Wrappers.dfy` | collection helpers of the program, and sums for the proofs |

Three layers carry the main results. A batch is a sequence of atomic goroutine steps (`Dispatch`). A run is a sequence
of rounds, each with a listing, a batch and a reply, all chosen by the environment (`Runs`). The `Rolling` object executes
turns of the loop, and its methods are proved equal to the functions the other two layers are about.
`DispatchActions` yields batches that satisfy what `DispatchMakesBatch` needs; `DispatchMakesBatch` yields the batches of
rounds; `LoopFollows` yields the rounds of the loop, and `LoopIsDecided` says which these are. In time,
`TimedTheorems` turns the steps of a batch into schedules.

### The environment

* The task has one single-action group for each distinct target node (`pkg/client/cms/cms.go:158-172`), so actions and
  nodes are distinct.
* A refreshed task lists the actions the CMS still holds. In a round whose completion is accepted, every action that
  was restarted but not reported is still listed as PERFORMED. `Endings.BoundedIffGrantsKept` proves that this is the
  weakest condition, `RunTheorems.GrantTakenBackRestartsAgain` shows a second restart without it, and
  `ClosedSystem.ListingIsOk` proves it of the mock CMS.
* An accepted completion removes the actions and returns one status per uid. A completion may also fail without effect,
  or take effect while its reply is lost.
* How a restart ends, when the context is cancelled and how goroutines interleave is arbitrary. Cancelling the context
  wakes everybody who waits on a queue, so no action is handed over afterwards. A worker that has already taken its
  action does not look at the context again before it calls `RestartNode`.

### What turned out different from what one expects

* A cancelled batch can hang for ever. The worker's status send (`pkg/rolling/restart_handler.go:75-79`) does not watch the
  context, and after cancellation nobody drains the channel. This can happen exactly when the batch has more actions than
  the channel has room: `DispatchLiveness.HangsIffLargerThanChannel`. The tasks are then not dropped.
* Restarts can begin after the context was cancelled (`pkg/rolling/restart_handler.go:55-74`): exactly those of the actions
  that a worker had taken and not begun, `DispatchSafety.BegunAfterCancel`. None begins if and only if there was no such
  worker: `DispatchSafety.NothingBeginsIff`.
* `NodesInflight` is not validated (`pkg/rolling/options.go:45-70`). With 0 a batch never finishes:
  `DispatchLiveness.FinishesIffWorkers`. A negative number is accepted as well; making the status channel
  (`pkg/rolling/rolling.go:353-358`) then panics, which the model, where it is a natural number, does not show.
* `RestartRetryNumber` 0 is accepted, but then the equality at `pkg/rolling/rolling.go:303` is never reached and attempts
  have no bound at all: `RunTheorems.BoundedIffLimitPositive`, `RunTheorems.ZeroLimitRunsForever`.
* A run that has not ended can no longer end if and only if the reply that would have ended it was lost:
  `Endings.StuckIffLastReplyLost`. From every state that can end this can happen: `Endings.LastReplyCanBeLost`.
* `GetRestartDuration` does not look at tenants. It covers every `dispatchAll` batch if and only if a retry is configured
  or there is nothing to cover: `Makespan.LocksCoverIff`. Dispatch by tenant can outlast it. It is covered if and only if,
  with every restart taking its whole time, no order of the tenants takes longer, a finite computation before the call:
  `TenantLocks.LocksCoverIffEveryOrder`.
* The error text of the version check says that nodes must not differ by more than one major
  (`pkg/rolling/rolling.go:646-655`). The code does not check that: `Compatibility.AnyNumberOfMajorsPasses`.
* An SSH argument list survives printing and parsing if and only if no argument is empty, whitespace is between quotes and
  all arguments *but the last* have balanced quotes: `SshArgs.RoundTripIff`. Only an escaped quote toggles quoting.
* An empty selected host selects, in Kubernetes, every node without a known pod. The Kubernetes pipelines equal the SSH ones
  if and only if no node is selected by its pod alone: `SelectionTheorems.PipelinesAgreeIff`.
* Targets come from the map of active nodes, so the count of inactive targets in `DoRestart` is always zero:
  `SelectionTheorems.TargetsAreActive`.
* A node without a start time is taken to have started in 1970, because the test for Go's zero time
  (`pkg/rolling/restarters/primitives.go:78-98`) does not see it. It passes if and only if the bound lies on the far side
  of 1970: `SelectionTheorems.MissingStartTimeIs1970`.

## Model

| member | source | states |
|---|---|---|
| Progress.FoldIsOrderFree | pkg/rolling/rolling.go:280-309 | Handling the statuses of distinct actions one by one adds, to both lists and the counter, each action that succeeded or failed for the last allowed time exactly once, and one failure for each failed node, a description without any order |
| Progress.ArrivalOrderIrrelevant | pkg/rolling/rolling.go:280-309 | Two arrival orders of the same statuses leave the same retries and progress and the same ids in both lists |
| Dispatch.FreshInv | pkg/rolling/rolling.go:343-393 | A batch starts in the invariant, whatever its options |
| Dispatch.LateInv | pkg/rolling/rolling.go:343-393 | So does a batch that starts after the context was cancelled |
| Dispatch.StepKeepsInv | pkg/rolling/restart_handler.go:37-98 | Every step of every goroutine, cancellation included, keeps the invariant: pending + dropped + taken is the batch, held + buffered + collected is what was taken, begun + just taken as well, the semaphore is respected, and the state is the fold of the collected statuses |
| Dispatch.InterleavingKeepsInv | pkg/rolling/rolling.go:386-395 | The invariant holds after every interleaving |
| DispatchSafety.ConcurrencyBounds | pkg/rolling/rolling.go:423-483 | In every interleaving, cancelled or not, at most NodesInflight nodes of a tenant are taken or restarting, nodes of at most TenantsInflight tenants, and at most the product in all; NodesInflight in all under dispatchAll |
| DispatchSafety.LocksOutliveRestarts | pkg/rolling/rolling.go:386-395 | When CompleteAction is called, and when the tasks are dropped after cancellation, no worker is inside RestartNode or about to call it; each restart was of a distinct action of the batch and has exactly one status |
| DispatchSafety.NothingTakenOnceCancelled | pkg/rolling/restart_handler.go:37-43 | No action is handed to a worker after the context is cancelled, in any interleaving |
| DispatchSafety.BegunAfterCancel | pkg/rolling/restart_handler.go:55-74 | The RestartNode calls that begin after the cancellation, together with those still to come, are exactly those of the actions taken and not begun at that moment; all of them have begun once the batch is over, and there are at most as many as NodesInflight times the handlers in flight |
| DispatchSafety.ToBeginBound | pkg/rolling/restart_handler.go:45-56 | At any moment a handler has at most NodesInflight calls to come, and none unless it is active |
| DispatchSafety.NothingBeginsIff | pkg/rolling/restart_handler.go:55-74 | After the cancellation no RestartNode call begins, in whatever follows, if and only if at that moment no worker had taken an action and not begun |
| DispatchSafety.LateBatchIsSilent | pkg/rolling/restart_handler.go:45-53 | A batch that begins under a cancelled context restarts nothing, and its state does not change |
| DispatchSafety.EverythingCollected | pkg/rolling/rolling.go:386-395 | An uncancelled batch that reaches CompleteAction restarted each action exactly once and consumed exactly one status for each |
| DispatchOrder.HandedOverInListOrder | pkg/rolling/rolling.go:434-437 | In every interleaving, cancelled or not, each handler hands over its actions in list order, and what it drops after a cancellation is the rest of its list |
| DispatchOrder.OutcomesAreTold | pkg/rolling/restart_handler.go:74-79 | In every interleaving the statuses about to be sent, in the channel and collected are exactly the RestartNode calls that ended, each with its action and with the way it ended |
| DispatchOrder.SentInOrder | pkg/rolling/rolling.go:280-287 | Statuses are collected in the order in which they were sent |
| DispatchSafety.RefinesSequentialLoop | pkg/rolling/rolling.go:280-309 | Every uncancelled interleaving ends in the state of the sequential loop over the actions in list order, with the outcomes the restarts had |
| DispatchLiveness.WorkFalls | pkg/rolling/restart_handler.go:45-91 | Every step, Cancel included, lowers a measure |
| DispatchLiveness.InterleavingsAreBounded | pkg/rolling/restart_handler.go:45-91 | The length of an interleaving and the measure of its last state are together at most the measure of its first |
| DispatchLiveness.NoDeadlock | pkg/rolling/rolling.go:386-395 | A batch that has not reached CompleteAction can always make a step other than Cancel, unless it hangs |
| DispatchLiveness.UncancelledNeverHangs | pkg/rolling/restart_handler.go:75-79 | An uncancelled batch does not hang |
| DispatchLiveness.UncancelledBatchFinishes | pkg/rolling/rolling.go:386-395 | An uncancelled batch in which nothing can move any more has reached CompleteAction |
| DispatchLiveness.FinishesIffWorkers | pkg/rolling/restart_handler.go:45-46 | A batch with something to restart can finish uncancelled if and only if NodesInflight is positive |
| DispatchLiveness.HungForever | pkg/rolling/restart_handler.go:75-79 | No step brings a hung batch back: it never reaches CompleteAction |
| DispatchLiveness.HangsIffLargerThanChannel | pkg/rolling/rolling.go:353-358 | Some cancelled interleaving hangs if and only if the batch has more actions than the status channel has room |
| DispatchPlan.AnyStorage | pkg/rolling/rolling.go:409 | Whether some action is on a node that is missing or not dynamic |
| DispatchPlan.DispatchAll | pkg/rolling/rolling.go:423-440 | One handler with all actions in list order, for any options |
| DispatchPlan.DispatchByTenant | pkg/rolling/rolling.go:442-483 | Two actions are in the same handler if and only if their nodes are of the same tenant; together the handlers hold exactly the actions, each in list order |
| DispatchPlan.DispatchActions | pkg/rolling/rolling.go:408-421 | Tenants are respected if and only if asked for and every action is on a known dynamic node; then two actions share a handler if and only if their nodes are of the same tenant; in both cases the batch is a permutation of the actions, well formed for any options |
| DispatchPlan.TenantLimitsHold | pkg/rolling/rolling.go:442-483 | At every step of every interleaving of a batch by tenant, at most NodesInflight nodes of one tenant, as the nodes say, are taken or restarting, and nodes of at most TenantsInflight tenants |
| DispatchPlan.PlannedBatchHangsIff | pkg/rolling/rolling.go:353-358 | A cancelled batch can hang if and only if it has more actions than NodesInflight, times TenantsInflight if that is set |
| DispatchPlan.TenantPlan | pkg/rolling/rolling.go:442-447 | In whatever order the map lists the tenants, the groups partition the actions by tenant |
| Runs.DispatchedAreOpen | pkg/rolling/rolling.go:363-384 | Only actions that are listed PERFORMED, held by the CMS and not finished are dispatched |
| Runs.RoundKeepsBounds | pkg/rolling/rolling.go:343-406 | A round cancelled at any point still keeps the bound on successes and attempts |
| Runs.RoundKeepsInv | pkg/rolling/rolling.go:343-406 | A round that is not cut short and takes no grant back while it is reported keeps: retries count the failures, every finished action is unreported or gone from the CMS, every other is held, lists are duplicate-free, the counter counts the finished |
| Runs.RunKeepsInv | pkg/rolling/rolling.go:221-274 | The invariant holds after every run |
| RunTheorems.AtMostOneSuccess | pkg/rolling/rolling.go:280-309 | Over every run, with any grants, outcomes and failed or lost completions, and a last round cancelled anywhere: at most one success and RestartRetryNumber attempts per action |
| RunTheorems.FinishedIsNeverRestarted | pkg/rolling/rolling.go:485-500 | Once finished, an action is not restarted in any continuation of the run |
| RunTheorems.RoundIsPaid | pkg/rolling/rolling.go:370-403 | A round with something PERFORMED lowers the remaining attempts, or uses up the credit that a failed completion left |
| RunTheorems.RunIsPaid | pkg/rolling/rolling.go:221-274 | From any reachable state, attempts made plus attempts left never grow, and rounds are paid by attempts and failed completions |
| RunTheorems.RunBounds | pkg/rolling/rolling.go:293-306 | At most N * RestartRetryNumber RestartNode calls, and at most that many rounds with something PERFORMED plus the failed CompleteAction calls |
| RunTheorems.SizesCompared | pkg/rolling/rolling.go:403 | The lengths compared at exit are the sizes of nested sets, so equality means equal sets |
| RunTheorems.ExitIsSound | pkg/rolling/rolling.go:236-238 | A round ends the loop if and only if its completion is acknowledged and the CMS holds no action of the task; then every target was restarted once or failed RestartRetryNumber times |
| RunTheorems.LostLastReplyNeverExits | pkg/rolling/rolling.go:343-347 | From a state in which the CMS holds nothing, every further listing is empty and no further round ends the loop |
| RunTheorems.ZeroLimitRunsForever | pkg/rolling/rolling.go:303 | With a retry limit of 0 there are runs that restart a failing node any number of times |
| RunTheorems.AttemptsBoundedIff | pkg/rolling/rolling.go:293-306 | A number bounds the attempts of every action in all runs if and only if RestartRetryNumber is positive and at most that number |
| RunTheorems.BoundedIffLimitPositive | pkg/rolling/options.go:55-57 | There is some bound on the attempts in all runs if and only if the limit is positive |
| RunTheorems.GrantTakenBackRestartsAgain | pkg/rolling/rolling.go:401 | If the CMS takes back a grant whose completion is unreported, clearing the list makes the loop restart the node a second time |
| Endings.CanCompleteIff | pkg/rolling/rolling.go:343-406 | From every reachable state some continuation ends the loop if and only if the CMS holds an action |
| Endings.EmptiedIffLost | pkg/rolling/rolling.go:395-405 | A round that leaves the loop open empties the CMS if and only if it lost the reply that would have ended the loop |
| Endings.StuckIffLastReplyLost | pkg/rolling/rolling.go:395-405 | A run from the start that has not ended has no continuation that ends it if and only if one of its rounds lost the reply that would have ended it |
| Endings.LastReplyCanBeLost | pkg/rolling/rolling.go:395-405 | From every state that can end there is a next round, part of a run, after which no continuation ends the loop |
| Endings.BoundedIffGrantsKept | pkg/rolling/rolling.go:401 | After a round from any reachable state, successes and attempts stay bounded in whatever follows if and only if, when its completion was accepted, all unreported actions were still listed PERFORMED |
| Cancellation.ProgressIsConserved | pkg/rolling/rolling.go:492-500 | Between rounds, and after each status handled in a round, cut short or not: the counter is the number of distinct remembered targets, at most the number of targets; the unreported list has no repeats and lies within them; what is remembered is done |
| Cancellation.CutKeepsKnowledge | pkg/rolling/rolling.go:280-309 | A round cancelled at any point, with any reply, still leaves: bounds on attempts, a correct counter, everything remembered done, and everything the CMS no longer holds remembered |
| Cancellation.SilentKeepsKnowledge | pkg/rolling/rolling.go:343-406 | A round whose batch begins under a cancelled context keeps that, whatever is listed and replied |
| Cancellation.ExitAfterCutIsSound | pkg/rolling/rolling.go:403 | If the loop ends on a round that was cut short, or on a later silent one, then all targets are done and the CMS holds none of the actions |
| Cancellation.SuppliedExitIsSound | pkg/rolling/rolling.go:236-238 | The exit test is sound wherever in the run the context is cancelled, with any number of rounds afterwards |
| Rolling.Rolling.constructor | pkg/rolling/rolling.go:502-545 | The run starts with empty lists, counters and known versions |
| Rolling.Rolling.AtomicRememberComplete | pkg/rolling/rolling.go:492-500 | Adds the id to both lists and counts it, and changes nothing else |
| Rolling.Rolling.AtomicHasActionInUnreported | pkg/rolling/rolling.go:485-490 | Whether the id is finished but unreported |
| Rolling.Rolling.HandleRestartStatus | pkg/rolling/rolling.go:280-309 | The new state is the fold of the received statuses over the old one |
| Rolling.Rolling.GetPerformedActions | pkg/rolling/rolling.go:311-341 | The actions whose status is PERFORMED, in list order |
| Rolling.Rolling.SelectForRestart | pkg/rolling/rolling.go:351-384 | Splits the PERFORMED actions into those already done, which are only reported again, and those to restart |
| Rolling.Rolling.ProcessActionGroupStates | pkg/rolling/rolling.go:343-406 | The new state and the result are those of the round, with the list of finished actions kept when the completion fails |
| Rolling.Rolling.TryDetectCompatibilityIssues | pkg/rolling/rolling.go:620-665 | A version is known afterwards if and only if it was before or is listed; the verdict is compatible if and only if what is known then is accepted, or it is the listing error |
| Rolling.Rolling.CmsWaitingLoop | pkg/rolling/rolling.go:212-278 | State, known versions and exit reason are those of the turns up to the first that ends the loop |
| LoopTheorems.DispatchMakesBatch | pkg/rolling/rolling.go:386-395 | Every interleaving of the dispatched batch is a batch as a round assumes it, whole when not cancelled |
| LoopTheorems.StatusesMakeBatch | pkg/rolling/rolling.go:386-395 | At every step of every interleaving the statuses sent so far are of distinct selected actions, and the state is the fold of the collected ones |
| LoopTheorems.PlanIsBatchOfRound | pkg/rolling/rolling.go:386-393 | What dispatchActions starts for the actions selected in a round is the batch of that round, with its retry limit and state |
| LoopTheorems.ProgressInEveryInterleaving | pkg/rolling/rolling.go:492-500 | At every step of every interleaving of a round's batch, cancelled or not, the counter is the number of distinct remembered targets and the unreported list lies within them without repeats |
| LoopTheorems.LateBatchMakesSilentRound | pkg/rolling/restart_handler.go:37-53 | Every interleaving of a batch that begins under a cancelled context makes a silent round |
| LoopTheorems.LoopFollows | pkg/rolling/rolling.go:221-274 | The state of the loop is that of the rounds it processed, and it ends as completed exactly on a completed round |
| LoopTheorems.WaitingLoopIsSafe | pkg/rolling/rolling.go:212-278 | For any turns and wherever the context is cancelled: successes and attempts are bounded, the counter is the number of remembered targets, which are done, and completion means that all targets are done and the CMS holds nothing |
| TurnTheorems.LoopIsDecided | pkg/rolling/rolling.go:221-274 | The loop takes the turns up to the first that has a reason to end it, or all; it processes, in order, the rounds of the first turn and of each turn after a successful refresh, and no other; it ends if and only if a turn has a reason |
| TurnTheorems.LoopEndsAt | pkg/rolling/rolling.go:236-273 | The first turn with a reason ends the loop for it: completed if its round is, else cancelled if the context is, else as its check says |
| TurnTheorems.LoopKnows | pkg/rolling/rolling.go:626-637 | At the end a version is known if and only if it was at the start or was listed in a turn of the loop that got to the check |
| TurnTheorems.ListingsAreComparedAcrossTurns | pkg/rolling/rolling.go:620-665 | Two listings, of turns that got to the check, that are not accepted together end the loop as incompatible |
| LoopTheorems.TurnExit | pkg/rolling/rolling.go:221-274 | A turn ends the loop as completed only after a completed round and then always, as cancelled only if it is, as incompatible only if versions are not accepted, as not listed only if the listing failed; it leaves it running only if nothing of this is so; a cancelled turn always ends it, a listing that ran out of retries never does |
| LoopTheorems.OnlyVerdictsAbort | pkg/rolling/rolling.go:265-273 | A loop that has ended was ended by one turn, the turns before it left it running, and that turn justifies the exit; so a listing that ran out of retries never ends it, and it ends as incompatible only on versions that are not accepted |
| MockCms.YdbMock.SetPendingOrPerformedDynNodes | tests/mock/cms-logic.go:32-64 | A dynamic node is granted if released already or while its tenant's quota lasts; without a quota it is left to the groups |
| MockCms.YdbMock.SetPendingOrPerformedStorageNodes | tests/mock/cms-logic.go:66-108 | A node is granted if and only if some group with it has few enough released nodes for the mode, and only then released |
| MockCms.YdbMock.SetPendingOrPerformed | tests/mock/cms-logic.go:20-30 | The quota decides first, then the groups; PERFORMED means released |
| MockCms.YdbMock.RefreshStatesForTask | tests/mock/cms-logic.go:219-227 | All actions are asked for again in task order, each seeing the grants before it |
| MockCms.YdbMock.CleanupActionByID | tests/mock/cms-logic.go:174-217 | Removes the action and frees its node, and does nothing for an unknown id |
| MockCms.YdbMock.CompleteAction | tests/mock/server.go:194-228 | The task keeps exactly the other actions, in order, and exactly the nodes of the completed ones are freed |
| MockCms.YdbMock.CreateMaintenanceTask | tests/mock/server.go:113-147 | The new task holds the actions with the statuses that asking in order gives |
| MockCms.YdbMock.DropMaintenanceTask | tests/mock/server.go:149-164 | All nodes of the task are freed |
| MockCms.RefreshedMeans | tests/mock/cms-logic.go:219-227 | An action is PERFORMED after a refresh if and only if its node is released then |
| MockCms.AskAllKeepsAvailable | tests/mock/cms-logic.go:66-108 | Asking for any list of locks keeps the limit of released nodes in each storage group |
| MockTheorems.QuotaGrantIff | tests/mock/cms-logic.go:32-64 | With a quota, the lock of a dynamic node is granted if and only if the node is released or fewer nodes of its own tenant are than the quota |
| MockTheorems.GroupGrantIff | tests/mock/cms-logic.go:66-108 | Any other lock is granted if and only if the node is released or a group with it has no released node, at most one in weak mode, or any number in force mode |
| ClosedSystem.TenantQuotaIsKept | tests/mock/cms-logic.go:32-64 | In every reachable state, lost refreshes included, no tenant has more nodes released than its quota |
| ClosedSystem.LostRefreshGrants | tests/mock/server.go:230-240 | What a refresh grants stays granted if its reply is lost, and the next refresh shows it |
| ClosedSystem.ListingIsOk | tests/mock/cms-logic.go:219-227 | The mock CMS lists its task and keeps unreported actions PERFORMED, as runs assume |
| ClosedSystem.TurnKeepsInv | tests/mock/server.go:194-240 | A refresh, a batch and a completion keep the invariant of loop and CMS together |
| ClosedSystem.StorageStaysAvailable | tests/mock/cms-logic.go:66-108 | In every reachable state, lost refreshes included, at most one node of a storage group is released in strong or smart mode and two in weak mode, counted as nodes; only released nodes restart, even in a cancelled round |
| ClosedSystem.SomethingIsPerformed | tests/mock/cms-logic.go:32-108 | While the task has actions, each refresh shows one of them PERFORMED |
| ClosedSystem.ClosedRunsEnd | pkg/rolling/rolling.go:221-274 | A run that is still open after k refreshes and did not lose the reply that would have ended it has k <= N * RestartRetryNumber + completions that failed with or without effect + refreshes whose reply was lost |
| Makespan.StartBound | pkg/rolling/restart_handler.go:45-91 | Job j of a greedy pool of k workers starts by floor(j / k) * (D + delay) |
| Makespan.BatchIsOverBy | pkg/rolling/restart_handler.go:45-98 | N jobs of at most D on a greedy pool are over, delays included, by ceil(N / k) * (D + delay) |
| Makespan.BoundIsTight | pkg/rolling/options.go:114-121 | When each job takes exactly D, the batch is over by a time if and only if that bound is |
| Makespan.LockDurationIsLeast | pkg/rolling/options.go:114-121 | The lock duration is the least time by which every batch is over in which each node takes at most all its attempts, RestartRetryNumber times the restart duration, in one go |
| Makespan.LocksCoverIff | pkg/rolling/options.go:114-121 | The lock duration covers all dispatchAll batches if and only if a retry is configured, the restart duration is zero, or there are no nodes |
| Pools.StartKeeps | pkg/rolling/restart_handler.go:37-56 | Handing an action at once to a worker that waits keeps the pool greedy: each job so far started in the past on a worker that was free first |
| Pools.AllLeft | pkg/rolling/restart_handler.go:93-98 | When nobody is at a job any more, the jobs form a greedy schedule that ends at that moment |
| TimedSteps.TimedRunKeepsInv | pkg/rolling/rolling.go:442-483 | After every event of a timed run, by tenant or not, each handler is a greedy pool of its workers and the semaphore a greedy pool of the handlers, each of which lasts as long as its clock says |
| TimedTheorems.TimedBatchIsGreedy | pkg/rolling/rolling.go:423-483 | In every timed run of a batch that reaches CompleteAction each handler followed a greedy schedule of exactly its actions, the semaphore ran the handlers greedily, and CompleteAction is reached exactly when that ends |
| TimedTheorems.CanBeCompleted | pkg/rolling/rolling.go:423-440 | From every moment of a timed run there is a continuation to CompleteAction, so time never gets stuck |
| TimedTheorems.TimedBatchIsOverBy | pkg/rolling/rolling.go:423-440 | At no moment of a timed run of dispatchAll is it later than ceil(N / k) * (D + delay) |
| TimedTheorems.TimedTenantsAreOverBy | pkg/rolling/rolling.go:442-483 | At no moment of a timed run of G handlers of at most m actions each, on t slots, is it later than ceil(G / t) * ceil(m / k) * (D + delay) |
| TimedTheorems.LocksOutliveTheBatch | pkg/rolling/options.go:114-121 | With a retry configured, no timed run of dispatchAll outlasts the lock duration |
| TimedTheorems.LocksOutliveTenants | pkg/rolling/options.go:114-121 | If the lock duration covers tenants of these sizes, no timed run by tenant outlasts it |
| TenantLocks.TenantsAreOverBy | pkg/rolling/rolling.go:442-483 | G tenants of at most m nodes on t greedy slots are over by ceil(G / t) * ceil(m / k) * (D + delay) |
| TenantLocks.LongerJobsAreLater | pkg/rolling/rolling.go:442-483 | If no tenant takes longer than in another batch, then at every moment no more slots are still taken than there |
| TenantLocks.GreedyEndsAt | pkg/rolling/rolling.go:442-483 | Whichever free slot each tenant takes, a greedy schedule of given durations is over by a time if and only if the computed end is |
| TenantLocks.LocksCoverIffEveryOrder | pkg/rolling/options.go:114-121 | The lock duration covers tenants of given sizes, however the restarts go and in whatever order the tenants come, if and only if for every order of the sizes the computed worst end is within it |
| TenantLocks.LocksCoverWhen | pkg/rolling/options.go:114-121 | Tenants of at most m nodes, in any order and with any restart times, are covered by the lock duration if ceil(G / t) * ceil(m / k) * (D + delay) is within it |
| TenantLocks.EqualTenantsCoverIff | pkg/rolling/options.go:114-121 | For tenants of equal size the lock duration covers all batches by tenant if and only if that bound is within it |
| TenantLocks.OneSlotCoversIff | pkg/rolling/options.go:114-121 | For one tenant at a time and any sizes, it covers them if and only if the rounds of all tenants together fit into it |
| TenantLocks.EnoughSlotsCover | pkg/rolling/options.go:114-121 | With a slot for every tenant and a retry configured it always covers them |
| TenantLocks.LocksCanExpireByTenant | pkg/rolling/options.go:114-121 | Three tenants of one node each and one tenant at a time: the locks last 61 seconds and do not cover the batch |
| Compatibility.Record | pkg/rolling/rolling.go:626-637 | The known versions grow by the parsed ones, and the unparsable are counted |
| Compatibility.RecordAddsReported | pkg/rolling/rolling.go:626-637 | A minor is known under a major if and only if it was before or is listed now; so the listing order does not matter |
| Compatibility.FindLowHigh | pkg/rolling/rolling.go:584-598 | The least and the greatest minor, in whatever order the map is visited, and the limits of int for none |
| Compatibility.CheckWithinOneMajor | pkg/rolling/rolling.go:600-605 | The message grows if and only if two minors are more than one apart |
| Compatibility.CheckWithPreviousMajors | pkg/rolling/rolling.go:607-618 | The message grows if and only if some earlier major has several minors |
| Compatibility.Check | pkg/rolling/rolling.go:639-646 | There is a message if and only if the known versions are rejected, for any order of visiting the map |
| Compatibility.VerdictMeans | pkg/rolling/rolling.go:584-618 | The check passes if and only if each major but the newest has one minor and the newest has at most two adjacent ones |
| Compatibility.RejectionIsPermanent | pkg/rolling/rolling.go:620-665 | No later listing turns a rejection into a pass |
| Compatibility.VerdictIgnoresListingOrder | pkg/rolling/rolling.go:626-644 | Listings of the same versions in any order and number lead to the same verdict |
| Compatibility.AnyNumberOfMajorsPasses | pkg/rolling/rolling.go:639-655 | Any number of majors passes if each has one minor, its own, contrary to the error text |
| SshArgs.ParseSSHArgs | pkg/utils/utils.go:42-71 | The arguments are those of the recursive scanner |
| SshArgs.Separators | pkg/utils/utils.go:42-71 | Between two letters exactly the 25 Unicode white space characters separate arguments; any other character becomes part of the argument |
| SshArgs.NothingSeparatesInQuotes | pkg/utils/utils.go:42-71 | Between escaped quotes neither any character nor a space after it separates |
| SshArgs.ParseLosesNothing | pkg/utils/utils.go:42-71 | For every input: no argument is empty, and their concatenation is the input with escapes resolved and unquoted whitespace removed |
| SshArgs.RoundTripIff | pkg/utils/utils.go:42-71 | Printed and parsed arguments come back if and only if none is empty, whitespace is between quotes, and all but the last have balanced quotes |
| SshArgs.ParseIsNormal | pkg/utils/utils.go:42-71 | Without bare quotes in the input, what was parsed survives printing and parsing |
| Retries.WrapWithRetries | pkg/utils/retries.go:33-82 | Calls up to the first outcome that is not transient and returns it; RetryExceeded with the last error if and only if all m are transient, after 2^(m-1) - 1 seconds of sleep; no call for m of 0 or less |
| Retries.TransientIff | pkg/utils/retries.go:33-50 | Tried again are status UNAVAILABLE and the gRPC error with code 14, the latter kept as it is |
| Retries.BackoffDoubles | pkg/utils/retries.go:29-31 | The waits are 1, 2, 4 and so on seconds, and 2^t - 1 in all after t attempts |
| Collections.Contains | internal/collections/collections.go:22-29 | Membership |
| Collections.GroupByFunc | internal/collections/collections.go:36-43 | Each key maps to its items in list order, and keys without items are absent |
| Collections.GroupsPartition | internal/collections/collections.go:36-43 | The groups, in any order of the keys, are together a permutation of the items |
| Collections.ToMap | internal/collections/collections.go:45-54 | The last item with each key |
| Collections.Values | internal/collections/collections.go:76-84 | One value for each key, in some order of the keys, and no other value |
| Collections.FilterBy | internal/collections/collections.go:95-105 | The items that satisfy the predicate, in order |
| Collections.FilterOfSum | internal/collections/collections.go:95-105 | Filtering keeps the order: the filter of a concatenation is the concatenation of the filters |
| Collections.LastWins | internal/collections/collections.go:45-54 | A key maps to the item with it after which no other has it |
| Collections.GroupIsFilter | internal/collections/collections.go:36-43 | A group is the filter of the list by its key |
| Restarters.FilterStorageNodes | pkg/rolling/restarters/primitives.go:20-26 | Exactly the storage nodes with an id below the static limit, in order |
| Restarters.FilterTenantNodes | pkg/rolling/restarters/primitives.go:28-34 | Exactly the dynamic nodes, in order |
| Restarters.IncludeByFilterNodeParams | pkg/rolling/restarters/primitives.go:104-122 | Of distinct nodes exactly the named ones, once each: first those named by datacenter, then the others named by host, then the others named by id, each in list order |
| Restarters.PopulateByCommonFields | pkg/rolling/restarters/primitives.go:124-130 | If the lists of datacenters, hosts and ids are all empty, all nodes; otherwise only nodes with their datacenter, host or id in them, and of distinct nodes all of these, once each |
| Restarters.ExcludeByCommonFields | pkg/rolling/restarters/primitives.go:132-182 | Keeps, in order, the nodes that pass the exclude, start-time and version tests |
| Restarters.ExcludeByTenantNames | pkg/rolling/restarters/primitives.go:184-201 | Keeps, in order, the nodes that the index lists under a selected tenant, each once |
| Restarters.MergeAndUnique | pkg/rolling/restarters/primitives.go:203-216 | The first node with each id, in the order of the slices; ids are distinct and none is lost |
| Restarters.PopulateTenantToNodesMapping | pkg/utils/utils.go:150-163 | An id is indexed under a tenant if and only if a dynamic node of that tenant has it |
| Restarters.PopulateWithK8sRules | pkg/rolling/restarters/storage_k8s.go:36-58 | All nodes if the three lists are empty; otherwise exactly the nodes whose host maps to a selected host, or to nothing if the empty host is selected |
| Restarters.ApplyStorageK8sFilteringRules | pkg/rolling/restarters/storage_k8s.go:60-74 | Of distinct nodes exactly the storage nodes that are named, also by pod, or none is, and pass all tests, once each |
| Restarters.ApplyTenantK8sFilteringRules | pkg/rolling/restarters/tenant_k8s.go:44-59 | Of distinct nodes exactly the dynamic nodes that are named, also by pod, or none is, are of a selected tenant and pass all tests, once each |
| Restarters.StorageSSHFilter | pkg/rolling/restarters/storage_ssh.go:37-50 | Of distinct nodes exactly the storage nodes that are named or none is, and pass all tests, once each |
| Restarters.TenantSSHFilter | pkg/rolling/restarters/tenant_ssh.go:41-54 | Of distinct nodes exactly the dynamic nodes that are named or none is, are of a selected tenant and pass all tests, once each |
| Restarters.RunRestarter.SetStorageOnly | pkg/rolling/restarters/run.go:56-59 | Storage-only mode switches dynnode-only mode off |
| Restarters.RunRestarter.SetDynnodeOnly | pkg/rolling/restarters/run.go:61-64 | Dynnode-only mode switches storage-only mode off |
| Restarters.RunRestarter.Filter | pkg/rolling/restarters/run.go:66-83 | Equals the SSH storage or tenant sequence in these modes, with the nodes these select, and is empty in neither mode |
| SelectionTheorems.UniqueMembers | pkg/rolling/restarters/primitives.go:203-216 | Merging leaves each id once, loses no id and invents no node |
| SelectionTheorems.IncludeOrder | pkg/rolling/restarters/primitives.go:104-122 | Distinct nodes are included in the order datacenter, host, id, and within these in list order |
| SelectionTheorems.ByPodsCount | pkg/rolling/restarters/storage_k8s.go:36-58 | A node is added as often as its pod is among the selected hosts |
| SelectionTheorems.NumbersAreOrdered | pkg/options/types.go:41-67 | The signs compare major, minor and patch in lexicographic order; a version without numbers satisfies none |
| SelectionTheorems.TextIsCompared | pkg/options/types.go:69-77 | Other versions are only compared for being equal or not |
| SelectionTheorems.StartIsCompared | pkg/rolling/restarters/primitives.go:78-98 | A node that started passes if and only if its start is on the asked side of the bound and is not Go's zero time |
| SelectionTheorems.PassesIff | pkg/rolling/restarters/primitives.go:132-182 | A node passes if and only if neither its host nor its printed id is excluded, it started in time, and its version is known and satisfies the version asked for |
| SelectionTheorems.ItoaIsDecimal | pkg/rolling/restarters/primitives.go:137 | Ids are printed as their decimal digits without leading zeros |
| SelectionTheorems.IndexMembers | pkg/utils/utils.go:150-163 | An id is indexed under a tenant if and only if a dynamic node of that tenant has it |
| SelectionTheorems.OwnTenant | pkg/rolling/restarters/primitives.go:184-201 | With an index built from the same nodes in any order, the tenant test looks at the node's own tenant |
| SelectionTheorems.SSHSelects | pkg/rolling/restarters/storage_ssh.go:37-50 | SSH pipelines return each node at most once, and exactly those of the role that are named or none is, of a selected tenant, and passing all tests; the index may be built from the nodes in any order |
| SelectionTheorems.K8sSelects | pkg/rolling/restarters/storage_k8s.go:36-74 | The same for the Kubernetes pipelines and any pods, where a node may also be named by its pod |
| SelectionTheorems.PipelinesAgreeIff | pkg/rolling/restarters/storage_k8s.go:36-74 | For any pods, the Kubernetes sequences equal the SSH ones if and only if no node is selected by its pod alone |
| SelectionTheorems.PipelinesAgree | pkg/rolling/restarters/tenant_k8s.go:44-59 | They are equal without known pods and without an empty selected host |
| SelectionTheorems.EmptyHostSelectsAll | pkg/rolling/restarters/storage_k8s.go:36-58 | Without known pods, an empty selected host selects all storage nodes that pass |
| SelectionTheorems.MissingStartTimeIs1970 | pkg/rolling/restarters/primitives.go:78-98 | A node without a start time passes if and only if the bound lies on the far side of 1970, so it can pass |
| SelectionTheorems.TargetsAreActive | pkg/rolling/rolling.go:159-186 | From the listing to the targets, for each restarter and whatever the order of the map and of the index: the targets are exactly the active nodes that are wanted, once each, found in the state under their id; none is inactive |
| SelectionTheorems.ExcludedByNumber | pkg/rolling/restarters/primitives.go:132-182 | Numbers among the excluded hosts exclude exactly the nodes with these ids |

## Left out

- DispatchLiveness.UncancelledBatchFinishes: assumes NodesInflight >= 1; the other case is FinishesIffWorkers.
- RunTheorems.AtMostOneSuccess: assumes RestartRetryNumber >= 1 and a CMS that takes no grant back in a round it acknowledges; without either it is false, as BoundedIffLimitPositive and BoundedIffGrantsKept show.
- TenantLocks.LocksCoverWhen: one direction only; the condition that is exact for all sizes is that of LocksCoverIffEveryOrder.
- TimedTheorems.TimedTenantsAreOverBy: timed runs are not cancelled, delays end exactly on time, and a step that is not a restart or a delay takes no time.
- Cleaning up maintenance tasks and the shape of `DoRestart` and `prepareState`: calls in sequence; what they establish for the loop is in `TargetsAreActive` and in the loop's starting state.
- Negative `NodesInflight`: the panic it leads to.
- `Validate`, `GetNodeIds`, `GetNodeFQDNs`: range checks and parsing of one value at a time.
- Panics on actions that are not locks, and all but the first action state of a group: the task is built with single lock actions.
- Several tasks at once, host scopes, node versions and the request log of the mock CMS.
- Lock deadlines at the CMS and per-action failure statuses inside a successful completion reply: the code does not inspect them.
- gRPC, authentication, flags, logging, signals, pod listing and the bodies of `RestartNode`: outcomes of calls are parameters.
- Regular expressions: a version is given as parsed or unparsable; the `~=` and `*` forms, for which the comparator has no case, never match.
- Rounding of the floating-point division, overflow of durations and truncation of node ids to 32 bits: mathematical integers.
