# Verified models of kubelet, controller and kubectl logic

Dafny 4.11 models of ten pieces of the Kubernetes-derived code base, with proofs about every input, every
run or every reachable state. `dafny verify dfyconfig.toml` checks the whole project.

| part | files | main results |
|---|---|---|
| Pod workers | `PodWorkers`, `PodWorkersClass`, `PodWorkerLedger`, `PodWorkerKills` | in every interleaving no send or close under the lock blocks or panics, a pod is busy exactly when one unit of its work exists, two syncs of one pod never overlap, every request is accounted for exactly once, and a kill is lost exactly under a stated condition |
| Rolling updater | `RollingUpdate`, `RollingUpdater`, `RollingBack` | from which sizes an update can finish at all, exactly, surge and availability bounds along every run, percentages in range exactly up to a bound, exactly when aborting works, and a rollback from anywhere leads back to the recorded size |
| Pod ownership | `Ownership`, `ClaimPasses`, `RefManager` | at most one controller in every interleaving with stale views, exactly which events end a controller's hold on a pod, one pass owns exactly what it should, a second pass is silent |
| Expectations | `Expectations`, `ExpectationStores`, `ExpectationRaces` | counters and UID sets agree with the trace of calls, exactly; every interleaving of the steps inside the calls is a sequential run of them, and reading the two counters one after the other is as good as reading both at once |
| Sig prefixes | `TestNames`, `PrefixTheory`, `SigPrefixes` | longest-prefix lookup is preserved, the loop ends exactly when there is no test or there are two sigs, and its result is a closed form that does not depend on any order |
| Pod phase | `PodPhase` | each phase is reported exactly under a condition on the first statuses of the declared names, and a terminal phase stays terminal |
| Container statuses | `ContainerStatuses` | one status per declared container, from the newest and second newest record |
| Docker keyring | `Keyring` | the index is the reverse-sorted set of keys for every map order, lookup returns exactly the matching credentials |
| Container deletion | `ContainerDeletor` | keeps the newest, deletes the rest, a repeated call deletes nothing |
| Node conditions | `NodeConditions` | the sort-and-compare form equals order-insensitive equality |

Automatic induction is switched off on every lemma, so that each proof is the one that is written down.
`Options` holds the option type. `Sorting` holds the string order and a sort that promises a sorted permutation only, as Go's
`sort.Sort` does; the stable sort of node conditions is in `NodeConditions`.

## How the models follow the code

* Code that changes things in place is a class with methods (`PodWorkers.PodWorkers`,
  `RollingUpdater.RollingUpdaterConfig`, `ExpectationStores.UIDTrackingControllerExpectations`,
  `RefManager.PodControllerRefManager`, `Keyring.BasicDockerKeyring`, `ContainerDeletor.PodContainerDeletor`) or a
  method with a loop. Each method is proved equal to a step, run or pass function, and the properties are proved
  about those functions for all runs.
* Goroutines, channels and the lock are a state machine. Each critical section is one step, a channel is a one-slot
  buffer with its reader, and channels that were closed but not drained stay in the state. A send to a nil or full
  channel is an outcome `Blocked`, a send to a closed channel or a second close is `Panicked`, and it is proved that
  neither occurs.
* The controllers on the server are kept apart from the copies of them that a configuration and the update loop
  hold. An update changes the server, and the copies only where the code does.
* The expectation stores are modelled twice: call by call on a class, and step by step on a memory in which counters
  that were looked up can be replaced before they are lowered.
* What the code cannot decide is a parameter: the clock, which pods are available, failing calls and callers that ask
  to stop (`Observation`), the live deletion check and failing patches (`Env`), stale views of pods, the order in which
  Go and Python walk a map, URL parsing and glob matching (`parse`, `matches`), eviction handlers and start failures.
* Integers are unbounded except where width matters: the 32-bit product in the reported percentage wraps, and
  `RollingUpdate.TurnFitsInt32` shows that the other arithmetic of a turn does not leave 32 bits.

## Where the code and its documentation disagree

* `pkg/kubelet/pod_workers.go:64-68` and `pkg/kubelet/types/pod_update.go:129-131` promise that a kill request is
  always delivered. `PodWorkerKills.KillsGetLost` gives two reachable counterexamples, and
  `PodWorkerKills.KillLostExactly` states for all runs exactly when a kill is lost.
* `pkg/kubectl/rolling_updater.go:263` reports a percentage. All updates over a given distance report values between 0
  and 100 exactly when that distance is at most 21474836 (`RollingUpdate.PercentageInRange`); above it some update
  reports a negative one in its first turn (`RollingUpdate.OverflowReported`).
* `pkg/kubectl/rolling_updater.go:207-225` records the original size on the server and in a local copy, not in the
  configuration. So aborting with the configuration that was passed to `Update` fails exactly when its own copy had no
  record (`RollingBack.UpdateThenAbort`, at one input `RollingBack.AbortFails`), and a second `Update` with that
  configuration overwrites the record with the current size (`RollingBack.RecordMade`, at one input
  `RollingBack.RecordOverwritten`). The command fetches the
  controllers anew (`pkg/kubectl/cmd/rollingupdate/rollingupdate.go:366-447`), and then the way back is complete
  (`RollingBack.UpdateThenRollback`).
* `pkg/kubectl/rolling_updater.go:183-322` cannot end at the desired size from every starting point. A new controller
  that is larger than desired is scaled down only while the old one still has pods and there is room under the surge
  limit. `RollingUpdate.FinishesExactly` states from which sizes some course of events leads to the end, `Finishes` from
  which sizes it is reached when all new pods are available in every turn, and `FinishesEventually` that from those it is
  reached or times out once enough turns find them available. From a new controller that is too large and alone it is
  never reached (`TooLargeForever`).
* `pkg/controller/controller_utils.go:224-226` overwrites the deletion counter while UIDs are still awaited, so a
  controller can be woken early (`Expectations.EarlyWake`). `Expectations.DeletionsCounted` states exactly when the
  counter is right.
* `hack/update_owners.py:139-151` never ends when all tests share one sig (`SigPrefixes.Run`). The call of
  `iteritems` at line 134 exists in Python 2 only, while other parts of the file need Python 3; the model reads it as a
  walk over the dictionary and takes text and white space as in Python 3.

## Model

| member | source | states |
|---|---|---|
| PodWorkerProtocol.StepSafe | pkg/kubelet/pod_workers.go:162-295 | every atomic step keeps the invariant (registered channels are exactly the open ones, busy exactly when one channel holds the token, a waiting update implies a registered channel and a busy pod) and neither blocks nor panics |
| PodWorkerProtocol.AcceptSafe | pkg/kubelet/pod_workers.go:205-240 | UpdatePod never blocks or panics and keeps the invariant |
| PodWorkerProtocol.SendSafe | pkg/kubelet/pod_workers.go:230-232 | a send for a busy pod whose token is nowhere finds an existing, open, empty channel |
| PodWorkerProtocol.ForgetSafe | pkg/kubelet/pod_workers.go:242-268 | forgetting never closes a channel twice and keeps the invariant, also in the middle of a sync |
| PodWorkerProtocol.CheckSafe | pkg/kubelet/pod_workers.go:286-295 | the hand-over at the end of a sync goes to an open, empty channel and keeps the invariant |
| PodWorkerProtocol.GiveUpToken | pkg/kubelet/pod_workers.go:270-295 | the goroutine that checks for updates held the only token of its pod |
| PodWorkerProtocol.ExecSafe | pkg/kubelet/pod_workers.go:162-295 | no run of any interleaving blocks or panics under the lock, and every state satisfies the invariant |
| PodWorkerProtocol.TokenCount | pkg/kubelet/pod_workers.go:162-295 | in every reachable state a pod is busy exactly when one unit of its work exists in open buffers, closed undrained buffers and running syncs together |
| PodWorkerProtocol.NoOverlap | pkg/kubelet/pod_workers.go:162-202 | two goroutines never sync the same pod at once, also when its worker is forgotten and made again |
| PodWorkerProtocol.UpdateRegisters | pkg/kubelet/pod_workers.go:205-228 | an update registers its pod with an open channel of that pod, and registers and unregisters no other |
| PodWorkerProtocol.UpdateIdle | pkg/kubelet/pod_workers.go:229-233 | an update for an idle pod is in its channel afterwards and the pod is busy; nothing waits that did not before |
| PodWorkerProtocol.UpdateBusy | pkg/kubelet/pod_workers.go:234-240 | an update for a busy pod takes the place of what waits unless that is a kill, and no channel changes |
| PodWorkerProtocol.ForgetsUndesired | pkg/kubelet/pod_workers.go:260-268 | exactly the registered pods that are desired stay registered, with their channels and waiting updates, and a channel is closed afterwards exactly if it was before or its pod is not desired |
| PodWorkerProtocol.ForgetsOne | pkg/kubelet/pod_workers.go:242-258 | the same for one pod: it alone is unregistered, and its open channel is closed |
| PodWorkerProtocol.ExitsExactly | pkg/kubelet/pod_workers.go:162-168 | a goroutine exits exactly when its channel is closed and empty and it is not syncing; that of a forgotten idle pod can, that of a registered pod cannot |
| PodWorkerLedger.SlotAlwaysChosen | pkg/kubelet/pod_workers.go:230-240 | in every run the update kept for a busy worker is the first kill requested since its last delivery, or else the most recent request |
| PodWorkerLedger.DeliversChosen | pkg/kubelet/pod_workers.go:286-295 | that choice is what the worker is handed next; without one it becomes idle |
| PodWorkerLedger.Conservation | pkg/kubelet/pod_workers.go:191-295 | over every run each request is exactly one of completed, superseded, discarded by a forget, buffered, running or waiting |
| PodWorkerLedger.CanWork | pkg/kubelet/pod_workers.go:162-202 | a busy pod, or one with a waiting update, always has a goroutine that can take the next step on it |
| PodWorkerLedger.RankStep | pkg/kubelet/pod_workers.go:162-295 | each goroutine step brings its pod exactly one step closer to idle and leaves other pods alone |
| PodWorkerLedger.Drains | pkg/kubelet/pod_workers.go:162-295 | left alone a pod is idle after at most six steps of its own, and then everything owed has been completed |
| PodWorkerLedger.ForgetsMeans | pkg/kubelet/pod_workers.go:242-268 | the forgets of a run are exactly the calls that unregister a registered pod |
| PodWorkerKills.SafeRun | pkg/kubelet/pod_workers.go:162-202 | an update that reached a channel is completed or still in flight in every continuation, also after a forget |
| PodWorkerKills.KillFate | pkg/kubelet/pod_workers.go:234-253 | a waiting kill stays until the first forget drops it or the first check hands it over, after which it is not lost |
| PodWorkerKills.KillHandedOverSoon | pkg/kubelet/pod_workers.go:234-295 | whatever callers do meanwhile, a waiting kill that is not forgotten is handed over within three goroutine steps on its pod |
| PodWorkerKills.KillLostExactly | pkg/kubelet/pod_workers.go:64-68 | a kill is lost if and only if another kill was waiting at the call, or the worker was busy and the pod is forgotten before the next check |
| PodWorkerKills.KillsGetLost | pkg/kubelet/types/pod_update.go:129-131 | both ways of losing a kill are reached from the initial state |
| PodWorkers.PodWorkers.constructor | pkg/kubelet/pod_workers.go:147-160 | the maps start empty, in the initial protocol state |
| PodWorkers.PodWorkers.UpdatePod | pkg/kubelet/pod_workers.go:205-240 | refines the update step of the protocol; its send is to an open, empty channel |
| PodWorkers.PodWorkers.RemoveWorker | pkg/kubelet/pod_workers.go:242-253 | closes and unregisters the channel and drops the waiting update of one pod, nothing else |
| PodWorkers.PodWorkers.ForgetWorker | pkg/kubelet/pod_workers.go:254-258 | refines the forget step of the protocol: the pod alone leaves the map, and a channel is closed afterwards exactly if it was before or belongs to the pod |
| PodWorkers.PodWorkers.ForgetNonExistingPodWorkers | pkg/kubelet/pod_workers.go:260-268 | for every order of the keys: the registered pods left are exactly those that are desired, with the channels they had, and a channel is closed afterwards exactly if it was before or its pod is not desired |
| PodWorkers.PodWorkers.Receive | pkg/kubelet/pod_workers.go:162-168 | takes the buffered update, also from a closed channel |
| PodWorkers.PodWorkers.Finish | pkg/kubelet/pod_workers.go:191-199 | the sync returned and the callback of its own update ran |
| PodWorkers.PodWorkers.WrapUp | pkg/kubelet/pod_workers.go:270-284 | refines the check step for the pod that was synced |
| PodWorkers.PodWorkers.CheckForUpdates | pkg/kubelet/pod_workers.go:286-295 | hands over the waiting update or marks the pod idle, and restores the invariant |
| RollingUpdate.TurnProgress | pkg/kubectl/rolling_updater.go:273-303 | the distance to the goal strictly falls in every turn that changes a count, and no count becomes negative |
| RollingUpdate.ScaleUpMost | pkg/kubectl/rolling_updater.go:327-356 | a new controller not larger than desired gets the largest size up to desired that the surge limit allows, any size without old pods; a larger one is brought to desired or left alone, exactly by the room under the limit |
| RollingUpdate.ScaleDownMost | pkg/kubectl/rolling_updater.go:361-410 | the old controller gets the smallest size that leaves the required minimum with the available new pods, or keeps its size; every smaller size would leave too few |
| RollingUpdate.MinAvailableMeans | pkg/kubectl/rolling_updater.go:238-245 | the required minimum is desired less what may be unavailable, at least 0 |
| RollingUpdate.TurnByCase | pkg/kubectl/rolling_updater.go:273-303 | for each failing call when it is reached, which of the two sizes are then on the server, and how many reports were made |
| RollingUpdate.EndOfRun | pkg/kubectl/rolling_updater.go:270-318 | how a run without failing calls ends: after exactly the turns until both sizes are reached, a turn is overdue against the time of the last change, or there is nothing more to observe; with two reports a turn and 100 in the end |
| RollingUpdate.PassesEachTurn | pkg/kubectl/rolling_updater.go:270-318 | the sizes after each scale-up and each scale-down of such a run are among those that the bounds speak about |
| RollingUpdate.Finishes | pkg/kubectl/rolling_updater.go:270-318 | with all new pods available in every turn the update ends at desired and 0 within the initial distance in turns, if and only if it started at most at desired or with old pods and room under the surge limit |
| RollingUpdate.FinishesEventually | pkg/kubectl/rolling_updater.go:270-318 | from those sizes, if nothing fails and as many turns as the distance find all new pods available, it ends there or times out, whatever the other turns find |
| RollingUpdate.FinishesExactly | pkg/kubectl/rolling_updater.go:327-410 | some course of events that finds no more new pods available than there are lets the update finish, if and only if that condition holds or one turn can establish it |
| RollingUpdate.NeverFinishes | pkg/kubectl/rolling_updater.go:327-410 | from all other sizes no such course of events does |
| RollingUpdate.TooLargeForever | pkg/kubectl/rolling_updater.go:333-342 | a new controller that is too large and alone keeps its size forever, whatever is observed |
| RollingUpdate.SurgeBound | pkg/kubectl/rolling_updater.go:327-356 | along every run, failing ones included, the total on the server never exceeds the larger of the initial total and desired plus surge, the new controller never exceeds desired or its initial size, the old one never grows |
| RollingUpdate.AvailabilityBound | pkg/kubectl/rolling_updater.go:361-410 | along every run in which counted pods stay available, old plus available new pods never fall below the smaller of the initial value and the required minimum |
| RollingUpdate.PercentageInRange | pkg/kubectl/rolling_updater.go:251-268 | all updates over a distance report percentages within 0 and 100, whatever they observe, if and only if the distance is at most 21474836 |
| RollingUpdate.OverflowReported | pkg/kubectl/rolling_updater.go:251-268 | for every larger distance an update that fits into 32 bits and reports a negative percentage |
| RollingUpdate.PercentageExact | pkg/kubectl/rolling_updater.go:256-265 | up to that goal the 32-bit computation gives the true quotient |
| RollingUpdate.ReportsRise | pkg/kubectl/rolling_updater.go:251-318 | along every run up to that distance, 0 included, the reports stay within 0 and 100 and never fall |
| RollingUpdate.TurnFitsInt32 | pkg/kubectl/rolling_updater.go:327-410 | no intermediate value of a turn leaves 32 bits while the total and desired plus surge fit |
| RollingUpdate.AbortRestores | pkg/kubectl/rolling_updater.go:656-678 | from wherever a forward run stopped, the reverse run brings the old controller back to its recorded size and the other to 0 |
| RollingUpdater.ScaleUpRc | pkg/kubectl/rolling_updater.go:327-356 | asks for the largest size within desired and the surge limit, writes the server only on a change, and goes on with the copy that comes back |
| RollingUpdater.ScaleDownRc | pkg/kubectl/rolling_updater.go:361-410 | the same for the old controller: the smallest size that leaves the required minimum, on every branch and clamp and for both failing calls |
| RollingUpdater.TurnRc | pkg/kubectl/rolling_updater.go:273-303 | one turn with its reports and failure points equals a turn of the run, on the copies and on the server |
| RollingUpdater.Loop | pkg/kubectl/rolling_updater.go:270-318 | the loop with its moving deadline equals the run: status and reports, and on the server exactly the sizes that moved |
| RollingUpdater.UpdateReports | pkg/kubectl/rolling_updater.go:251-318 | each report of an update is the part of the initial distance covered so far, in percent, twice a turn, and 100 once it is done |
| RollingUpdater.GetOrCreateTargetController | pkg/kubectl/rolling_updater.go:467-496 | the target with the right source is taken from the server, a missing one is created empty with its size as goal, anything else and a failing call is rejected |
| RollingUpdater.RecordOriginal | pkg/kubectl/rolling_updater.go:209-225 | the record is made on the server and in a new copy, and of a failing call on the server at most |
| RollingUpdater.SetUp | pkg/kubectl/rolling_updater.go:183-235 | the five rejections with what they leave on the server, and the sizes an update starts from |
| RollingUpdater.RejectedExactly | pkg/kubectl/rolling_updater.go:183-235 | without failing calls each rejection occurs if and only if its own condition on the server and the request holds |
| RollingUpdater.CallFailsExactly | pkg/kubectl/rolling_updater.go:183-225 | a failing call is the outcome exactly when it is reached |
| RollingUpdater.ReadyMeans | pkg/kubectl/rolling_updater.go:183-249 | an accepted update: every controller on the server, the goal, the limits and the two sizes it starts from |
| RollingUpdater.CleanUp | pkg/kubectl/rolling_updater.go:511-579 | the annotations of the update go, and the old controller is deleted, deleted and succeeded by name, or kept |
| RollingUpdater.CleanedUpMeans | pkg/kubectl/rolling_updater.go:511-579 | per policy which names are left, that the new controller keeps size and record under its own or the old name without the annotations of the update, and that others stay |
| RollingUpdater.Update | pkg/kubectl/rolling_updater.go:183-322 | rejected as the setup says, otherwise the run from the prepared sizes, followed by the server and, if it is done, by the cleanup; the copies of the configuration are otherwise untouched |
| RollingBack.AbortRollingUpdate | pkg/kubectl/rolling_updater.go:656-678 | swaps the controllers, sets the source annotation and takes the original size as target; without a record in the copy the swap stays and an error is returned |
| RollingBack.AbortedMeans | pkg/kubectl/rolling_updater.go:656-678 | the target of an abort field by field: its recorded size as goal, name and UID of the other controller as source |
| RollingBack.UpdateThenAbort | pkg/kubectl/rolling_updater.go:207-225 | aborting with the configuration just passed to Update succeeds if and only if its own copy came with a record, although the server has one |
| RollingBack.AbortFails | pkg/kubectl/rolling_updater.go:670-673 | an update that the caller stops after its first scale-up and that cannot be aborted |
| RollingBack.RecordOverwritten | pkg/kubectl/rolling_updater.go:209-225 | an update that is stopped and called again with the same configuration, and takes the record from 2 to 1 |
| RollingBack.RecordMade | pkg/kubectl/rolling_updater.go:209-225 | a record on the server survives an update if and only if the copy has one or the size is still the recorded one |
| RollingBack.RollbackStarts | pkg/kubectl/cmd/rollingupdate/rollingupdate.go:440-447 | with a record on the server the rollback is accepted and starts from the sizes on the server with the recorded size as goal |
| RollingBack.Rollback | pkg/kubectl/cmd/rollingupdate/rollingupdate.go:366-447 | the four rejections, and otherwise an update of the fetched controllers turned around |
| RollingBack.RollbackRecorded | pkg/kubectl/cmd/rollingupdate/rollingupdate.go:440-447 | with a record the rollback is accepted, and ends with the old controller at the recorded size and the new one deleted if and only if the sizes it finds allow an update to finish |
| RollingBack.UpdateThenRollback | pkg/kubectl/cmd/rollingupdate/rollingupdate.go:429-447 | an update of a fetched controller stopped anywhere or finished, then a rollback: exactly when it is refused, exactly when it restores the recorded size, and that it always does for a controller not larger than recorded |
| Ownership.PatchEffect | staging/src/k8s.io/apimachinery/pkg/api/validation/objectmeta.go:84-99 | an accepted patch keeps at most one controller per pod and no other controller loses a pod |
| Ownership.ClaimEffect | pkg/controller/controller_ref_manager.go:67-120 | whatever the view, and for failing calls that did or did not reach the server: a controller being deleted sends nothing, only the owners of the very object that was seen can change, others keep their pods and their references, and a claimed orphan is really controlled |
| Ownership.ClaimExactly | pkg/controller/controller_ref_manager.go:67-120 | for every manager, view, server and circumstance: a pod is claimed if and only if it is seen as own and matches, or is seen without a controller, matches, neither side is being deleted, the live check passes and the adoption is answered without error; what is sent, when there is an error and which, and what the manager remembers |
| Ownership.FirstController | pkg/controller/controller_ref_manager.go:68-73 | the controller of a pod is the first owner reference marked as one |
| Ownership.RejectsExactly | staging/src/k8s.io/apimachinery/pkg/api/validation/objectmeta.go:84-99 | a patch is rejected if and only if there is no such pod, another under its name, nothing to release, or another controller on the pod |
| Ownership.RunOk | pkg/controller/controller_ref_manager.go:211-249 | in every interleaving of claims with stale views and of creations, deletions and edits each pod has at most one controller |
| Ownership.ControlStep | pkg/controller/controller_ref_manager.go:67-120 | an event ends a controller's hold on a pod if and only if it deletes the pod or is a release of this very pod, seen as its own, by a manager of that controller, that reaches the server |
| Ownership.NeverStolen | pkg/controller/controller_ref_manager.go:67-120 | a controller keeps a pod throughout a run if and only if no event of the run is one of these |
| Ownership.DeniedForGood | pkg/controller/controller_ref_manager.go:43-50 | once the live check failed the manager never sends an adoption again |
| ClaimPasses.PassOwnsExactly | pkg/controller/controller_ref_manager.go:172-207 | with an up-to-date view a pass returns and controls exactly the pods that match and were its own or without a controller and not being deleted, and touches nothing else |
| ClaimPasses.SecondPassIsQuiet | pkg/controller/controller_ref_manager.go:172-207 | a second pass sends no patch, changes nothing and returns the same pods |
| ClaimPasses.FreshClaim | pkg/controller/controller_ref_manager.go:67-120 | a claim on an up-to-date view adopts, releases or leaves alone exactly as required, without error |
| ClaimPasses.DeletingPass | pkg/controller/controller_ref_manager.go:74-95 | a pass of a controller being deleted, whatever the views and circumstances, returns exactly the listed pods that it controls and that match, in list order, sends nothing, changes nothing and has no errors |
| ClaimPasses.OwnOfMembers | pkg/controller/controller_ref_manager.go:74-79 | those are, with their number, the listed pods that it controls and that match |
| ClaimPasses.WantedMembers | pkg/controller/controller_ref_manager.go:172-207 | the pods a pass is to return are, with their number, the listed ones that match and are its own or have no controller and are not being deleted |
| ClaimPasses.AddClaimMeans | pkg/controller/controller_ref_manager.go:190-207 | a claim adds its pod, its error and what it sent to the pass, each if there is one |
| RefManager.ApiServer.PatchPod | pkg/controller/controller_ref_manager.go:211-249 | the server accepts a patch only for the pod with that UID and without a second controller |
| RefManager.PodControllerRefManager.CanAdopt | pkg/controller/controller_ref_manager.go:43-50 | the live check is made at most once and remembered |
| RefManager.PodControllerRefManager.Match | pkg/controller/controller_ref_manager.go:176-188 | true exactly when the selector and all filters accept |
| RefManager.PodControllerRefManager.AdoptPod | pkg/controller/controller_ref_manager.go:211-222 | refines the adoption of the claim function, with what was sent |
| RefManager.PodControllerRefManager.ReleasePod | pkg/controller/controller_ref_manager.go:226-249 | refines the release; a missing pod or a rejected patch is not an error |
| RefManager.PodControllerRefManager.ClaimOne | pkg/controller/controller_ref_manager.go:67-120 | refines the claim function on all branches; claims exactly under the condition of ClaimExactly, and for a controller being deleted sends nothing and meets no error |
| RefManager.PodControllerRefManager.ClaimPods | pkg/controller/controller_ref_manager.go:172-207 | the loop equals the pass: claimed pods, errors, patches, server; of a controller being deleted it returns exactly its own matching pods and touches nothing |
| Expectations.CountersAgree | pkg/controller/controller_utils.go:332-383 | after every sequence of calls the UID set is the deletions still awaited and the counter is their number less what the last announcement of creations made it forget |
| Expectations.DeletionsCounted | pkg/controller/controller_utils.go:340-369 | the counter never exceeds the number awaited, equals it exactly when nothing was forgotten, and always equals it without announced creations |
| Expectations.FulfilledMeansSeen | pkg/controller/controller_utils.go:282-285 | a controller counts as done exactly when its creations were seen and at most the forgotten deletions are out |
| Expectations.HeldBackExactly | pkg/controller/controller_utils.go:183-214 | after every sequence of calls a controller is held back if and only if its expectations were announced and not deleted since, at most 300000000000 nanoseconds ago, and creations are out or more deletions than were forgotten |
| Expectations.TimestampAgrees | pkg/controller/controller_utils.go:218-222 | the stored time is that of the last announcement in the trace |
| Expectations.EarlyWake | pkg/controller/controller_utils.go:224-226 | a concrete run in which a creation announced over an awaited deletion, once seen, ends the wait |
| ExpectationStores.UIDTrackingControllerExpectations.SetExpectations | pkg/controller/controller_utils.go:218-222 | replaces the counters of one controller by fresh ones |
| ExpectationStores.UIDTrackingControllerExpectations.LowerExpectations | pkg/controller/controller_utils.go:233-239 | lowers the counters of one controller, if it has any, and no others |
| ExpectationStores.UIDTrackingControllerExpectations.ExpectCreations | pkg/controller/controller_utils.go:224-226 | refines the call; the UID set stays |
| ExpectationStores.UIDTrackingControllerExpectations.ExpectDeletions | pkg/controller/controller_utils.go:340-356 | refines the call; repeated UIDs count once |
| ExpectationStores.UIDTrackingControllerExpectations.CreationObserved | pkg/controller/controller_utils.go:251-253 | refines the call |
| ExpectationStores.UIDTrackingControllerExpectations.DeletionObserved | pkg/controller/controller_utils.go:359-369 | refines the call; unknown and repeated UIDs change nothing |
| ExpectationStores.UIDTrackingControllerExpectations.DeleteExpectations | pkg/controller/controller_utils.go:373-383 | forgets counters and UIDs of one controller |
| ExpectationStores.UIDTrackingControllerExpectations.SatisfiedExpectations | pkg/controller/controller_utils.go:183-214 | false exactly when counters are recorded, one of them is above 0, and they were announced at most 300000000000 nanoseconds ago |
| ExpectationRaces.StepStands | pkg/controller/controller_utils.go:218-258 | every step inside a call keeps the memory in agreement with the calls that have taken effect |
| ExpectationRaces.Linearizable | pkg/controller/controller_utils.go:218-383 | in every interleaving the counters a reader finds are those of a sequential run of the calls, in the order in which they took effect |
| ExpectationRaces.StepCounts | pkg/controller/controller_utils.go:233-239 | a call takes effect only at a step at which it begins or is under way |
| ExpectationRaces.EachOnce | pkg/controller/controller_utils.go:233-239 | each call begun has taken effect exactly once or is still under way |
| ExpectationRaces.QuietRun | pkg/controller/controller_utils.go:340-383 | once no call is under way, counters and UID sets are what a sequential run of exactly the calls made leaves |
| ExpectationRaces.CountersAgreeAlways | pkg/controller/controller_utils.go:359-369 | at every moment the deletion counter is the number awaited less what was forgotten |
| ExpectationRaces.CountersFall | pkg/controller/controller_utils.go:276-279 | counters in memory never rise in any interleaving |
| ExpectationRaces.TwoLoadsSuffice | pkg/controller/controller_utils.go:282-285 | a reader that loads the two counters at different moments answers as at the moment of its last load, and for stored counters as a sequential run of the calls would |
| TestNames.NormalizeShape | hack/update_owners.py:41-44 | a normalized name is its words, tags removed, joined by single spaces |
| TestNames.TagGoes | hack/update_owners.py:42 | a bracketed part without its closing bracket or a line end inside is removed, and what follows is treated in the same way |
| TestNames.OtherStays | hack/update_owners.py:42 | any other character stays: one that opens no tag, or a bracket not closed on its line |
| TestNames.WordThenRest | hack/update_owners.py:43 | white space of any kind ends a word |
| TestNames.SpaceCodes | hack/update_owners.py:43-44 | white space by code point |
| TestNames.ShortenNormal | hack/update_owners.py:144 | dropping the last word of a normal name gives the longest proper prefix of it made of whole words |
| TestNames.DropsToIsFewerWords | hack/update_owners.py:142-144 | a name begins with a shorter name at a space exactly when that one joins fewer of its words |
| PrefixTheory.CollapseInv | hack/update_owners.py:146-149 | a rewrite keeps the invariant: a collapsed test belongs to an entry that nothing extends |
| PrefixTheory.LookupKept | hack/update_owners.py:139-151 | after every rewrite the longest entry that begins a test carries the sig of that test |
| PrefixTheory.SigsKept | hack/update_owners.py:139-151 | the set of sigs never changes |
| PrefixTheory.StuckIsReference | hack/update_owners.py:150-151 | a table with nothing left to collapse is exactly the shortest uniform prefixes and the tests no uniform prefix covers |
| SigPrefixes.AllMatch | hack/update_owners.py:145-146 | true exactly when some entry begins with the shortened name and all of those have the sig |
| SigPrefixes.FirstCollapsible | hack/update_owners.py:141-146 | the first entry in list order that can be shortened, or none exists |
| SigPrefixes.Round | hack/update_owners.py:139-151 | a round keeps the table listed once each and the invariant, and strictly shortens the total length when there are two sigs |
| SigPrefixes.Compress | hack/update_owners.py:139-151 | the loop ends within total length plus one rounds without tests or with two sigs, and never with exactly one |
| SigPrefixes.StuckEnds | hack/update_owners.py:150-151 | the loop can end only without tests or with at least two sigs |
| SigPrefixes.CollectTests | hack/update_owners.py:134-137 | the tests that take part, in table order |
| SigPrefixes.TestsMeans | hack/update_owners.py:134-137 | a test takes part with a sig if and only if a row has both, the sig is not empty and the name nowhere holds the seven characters k8s.io/ |
| SigPrefixes.Group | hack/update_owners.py:153-155 | per sig its names in list order, and no empty list |
| SigPrefixes.Run | hack/update_owners.py:129-157 | ends exactly when there is no test or there are two sigs, and then returns the closed form, per sig strictly sorted, in which longest-prefix lookup gives every test its sig |
| SigPrefixes.OutputUnique | hack/update_owners.py:129-157 | the result is determined by the tests and sigs: neither the dictionary order nor the order of rewrites shows |
| PodPhase.GetPhase | pkg/kubelet/kubelet_pods.go:1223-1323 | each phase is returned if and only if its quantified condition holds; SucceededMeans, FailedMeans and RunningMeans give the conditions from the status list |
| PodPhase.CountKinds | pkg/kubelet/kubelet_pods.go:1253-1283 | each counter is the number of containers of its kind, and the kinds partition the containers |
| PodPhase.CountInits | pkg/kubelet/kubelet_pods.go:1228-1251 | the pending and the failed counter are positive exactly when such an init container exists |
| PodPhase.KindMeans | pkg/kubelet/kubelet_pods.go:1258-1283 | the kind of a container from the first status of its name: running, or else terminated with exit code zero or not, or else waiting with or without a last termination; without such a status unknown |
| PodPhase.InitMeans | pkg/kubelet/kubelet_pods.go:1228-1251 | an init container is pending without a status, while running, or waiting without a last termination; it failed by the exit code of its termination, or of the last one while it waits |
| PodPhase.SucceededMeans | pkg/kubelet/kubelet_pods.go:1300-1310 | succeeded if and only if not always restarted, initialized, and there are containers each of whose first status is terminated with code zero |
| PodPhase.FailedMeans | pkg/kubelet/kubelet_pods.go:1285-1315 | failed if and only if never restarted and an init container went wrong, or it is initialized, all containers are over and one did not terminate with code zero |
| PodPhase.RunningMeans | pkg/kubelet/kubelet_pods.go:1294-1319 | running if and only if initialized, all containers were started, and one is running or is to be restarted |
| PodPhase.FirstEvictionMeans | pkg/kubelet/kubelet_pods.go:1332-1340 | the eviction that counts is that of the first handler that asks for one |
| PodPhase.GenerateStatus | pkg/kubelet/kubelet_pods.go:1327-1369 | a terminal phase on the API server stays terminal, and stays itself unless the pod is evicted; otherwise the phase is the quantified one |
| PodPhase.PhasesExclude | pkg/kubelet/kubelet_pods.go:1285-1323 | failed needs policy Never, and the conditions of the phases exclude each other |
| ContainerStatuses.NewestGivesState | pkg/kubelet/kubelet_pods.go:1643-1715 | without a start failure the state is that of a newest record of the name and the last state that of a second newest one |
| ContainerStatuses.SeenStatus | pkg/kubelet/kubelet_pods.go:1568-1600 | a container with records: every field and its state by the runtime state of its first record, unless it failed to start and is due to be started again by policy and exit code; then it waits with the failure, and a termination becomes its last state |
| ContainerStatuses.SeenTwice | pkg/kubelet/kubelet_pods.go:1643-1715 | otherwise its last state is that of its second record |
| ContainerStatuses.SeenOnce | pkg/kubelet/kubelet_pods.go:1643-1715 | or empty without a second record |
| ContainerStatuses.UnseenStatus | pkg/kubelet/kubelet_pods.go:1602-1641 | a container without records: a terminated previous status stays, otherwise it waits with the reason ContainerCreating or PodInitializing and the restart count and last state of before; a failed start shows over that |
| ContainerStatuses.BaseStatuses | pkg/kubelet/kubelet_pods.go:1602-1641 | per container the waiting default, or what the last previous status of that name contributes |
| ContainerStatuses.ObserveRecords | pkg/kubelet/kubelet_pods.go:1645-1715 | per declared name the effect of its first two records; undeclared names and later records are ignored |
| ContainerStatuses.OverlayFailures | pkg/kubelet/kubelet_pods.go:1717-1752 | containers that will be restarted and failed to start show as waiting, all others stay |
| ContainerStatuses.PodStatus.FindByName | pkg/kubelet/container/runtime.go:352-359 | the first record of the name |
| ContainerStatuses.SortInitContainerStatuses | pkg/kubelet/types/types.go:74-86 | for every list of names and statuses, the in-place swaps give a permutation that begins with the named statuses in the order of the spec |
| ContainerStatuses.Order | pkg/kubelet/kubelet_pods.go:1759-1765 | init containers in the order of the spec, others strictly by name |
| ContainerStatuses.ConvertToAPIContainerStatuses | pkg/kubelet/kubelet_pods.go:1567-1767 | for distinct names exactly one status per declared container, in the promised order, for every order of the map; the records are left with the newest first |
| Keyring.AddAllCounts | pkg/credentialprovider/keyring.go:94-148 | each key gains each credential once per location that yields it |
| Keyring.AuthMeans | pkg/credentialprovider/keyring.go:101-108 | an entry with a provider stands for the provider, any other for its user, password and email |
| Keyring.KeyWithoutScheme | pkg/credentialprovider/keyring.go:110-113 | a location without http:// or https:// is filed as with https:// |
| Keyring.KeyMeans | pkg/credentialprovider/keyring.go:114-136 | the key is host and path without /v1 or /v2 at its beginning, or the host alone for an empty path or a slash; no key exactly when the location is no URL |
| Keyring.AddAllAppends | pkg/credentialprovider/keyring.go:137 | what a key held before stays in its place |
| Keyring.OrderIrrelevant | pkg/credentialprovider/keyring.go:99-138 | the order of the map shows only in the order of credentials under one key |
| Keyring.IndexUnique | pkg/credentialprovider/keyring.go:140-147 | a reverse-sorted index is determined by its keys |
| Keyring.SpecificFirst | pkg/credentialprovider/keyring.go:143-147 | a key comes before every key that is its proper prefix |
| Keyring.MatchingMembers | pkg/credentialprovider/keyring.go:258-270 | the collected credentials are exactly those of matching keys |
| Keyring.MatchingInOrder | pkg/credentialprovider/keyring.go:258-270 | the credentials come key by key in index order, those of one key in the order in which it holds them |
| Keyring.DefaultRegistryMeans | pkg/credentialprovider/keyring.go:158-180 | an image belongs to the default registry if and only if it does not begin with a slash and has no slash, or before its first slash docker.io, index.docker.io or neither a dot nor a colon |
| Keyring.BasicDockerKeyring.Add | pkg/credentialprovider/keyring.go:94-148 | for every map order, the index is the duplicate-free reverse-sorted list of exactly the keys |
| Keyring.BasicDockerKeyring.Lookup | pkg/credentialprovider/keyring.go:258-281 | the credentials of precisely the matching keys in index order, else those of the default registry, else none |
| ContainerDeletor.Match | pkg/kubelet/pod_container_deletor.go:54-69 | the container with the filter ID, the first one if there are several, or none |
| ContainerDeletor.Collect | pkg/kubelet/pod_container_deletor.go:71-80 | exactly the exited containers of the target name |
| ContainerDeletor.GetContainersToDeleteInPod | pkg/kubelet/pod_container_deletor.go:53-87 | deleted and kept together are exactly the candidates, the smaller of keep and their number is kept, every kept one is at least as new as every deleted one |
| ContainerDeletor.DoomedNumber | pkg/kubelet/pod_container_deletor.go:53-87 | as many are deleted as exited containers that the filter asks for exceed the number to keep |
| ContainerDeletor.DoomedWhich | pkg/kubelet/pod_container_deletor.go:53-87 | each deleted one is exited and asked for, and none that stays is older |
| ContainerDeletor.RepeatDeletesNothing | pkg/kubelet/pod_container_deletor.go:53-87 | on what is left the same question selects nothing, also when the filter container itself is gone |
| ContainerDeletor.PodContainerDeletor.DeleteContainersInPod | pkg/kubelet/pod_container_deletor.go:90-100 | asks the runtime for exactly the IDs of the chosen containers, newest first, and those alone are gone; removing all ignores the filter and keeps none |
| ContainerDeletor.PodContainerDeletor.DeleteTwice | pkg/kubelet/pod_container_deletor.go:90-100 | a second call asks for nothing, and removing all leaves no exited container |
| NodeConditions.SortStable | pkg/kubelet/kubelet_node_status.go:638-639 | sorted by type, conditions of one type in their order |
| NodeConditions.NodeConditionsHaveChanged | pkg/kubelet/kubelet_node_status.go:630-652 | false exactly when, type by type and heartbeat times aside, both lists hold the same conditions in the same order |
| NodeConditions.DistinctMeansPermutation | pkg/kubelet/kubelet_node_status.go:627-652 | with distinct types that is the same as being permutations of each other, heartbeat times aside |
| NodeConditions.UnchangedMeans | pkg/kubelet/kubelet_node_status.go:641-650 | nothing has changed exactly when, for every type, the conditions of that type agree one by one in type, status, transition time, reason and message |
| NodeConditions.DistinctMeansLike | pkg/kubelet/kubelet_node_status.go:627-652 | with distinct types exactly when each condition of either list has one in the other that agrees in those fields |

## Left out

- SigPrefixes.Run: takes a number of rounds after which it gives up, because the original does not end for a single sig; its contract covers every such number, so it also states which inputs never end.
- PodWorkerLedger.Drains: assumes that a sync returns, since the sync function is foreign code.
- RollingUpdate.Finishes: assumes that scaling calls reach exactly the requested size, which `scaleAndWait` is relied on to do.
- RollingUpdater.Update: takes the resolved fenceposts as numbers, and does not say how far the size in an old copy that came with a record was counted down.
- RollingUpdater.CleanUp: its calls do not fail, and its wait for the replicas is not modelled.
- RollingBack.Rollback: the two fetches of the command do not fail; its selector test, dry run and renaming are left out.
- RollingUpdater.GetOrCreateTargetController: controllers have names; names generated by the server are not modelled.
- ExpectationStores.UIDTrackingControllerExpectations.LowerExpectations: looking up and lowering is one step here, while `ExpectationRaces` has the steps inside it; counters do not wrap at 64 bits.
- PodPhase.GenerateStatus: covers the phase, reason and message, not the conditions, addresses and QoS class of the status.
- ContainerStatuses.ConvertToAPIContainerStatuses: leaves out the resource fields of in-place vertical scaling and requires distinct container names, which pod validation guarantees.
- ContainerDeletor.RepeatDeletesNothing: container IDs are distinct, as the runtime guarantees.
- `RaiseExpectations` and the non-UID `DeletionObserved`: the same counter arithmetic.
- Ref managers for replica sets and controller revisions: the same claim logic on other types.
- `pkg/cloudfabric-controller`: near copies of `pkg/controller`.
- API server behaviour other than the rules on owner references and UIDs, patch encoding and retries.
- The work queue, pod cache, events, metrics and logging around the workers.
- Lazy, union and fake keyrings, URL parsing and glob matching: library code or thin wrappers.
- Pod admission, volumes, networking, the global scheduler's own API types and all process start-up code.
