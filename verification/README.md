# Rolling update controller

This project models the controller of the Rolling Update Service and proves what it keeps,
what it reaches and where it falls short. The controller owns deployments. For each one a
worker runs a reconcile loop that compares the containers running on the nodes with the
deployment's spec and moves them from old revisions of the app spec to the newest one, a
step at a time, under the limits `maxSurge` and `maxUnavailable`. Around that loop are a
history of revisions with rollback and pruning, a status with a deadline, an interrupt
protocol between the two goroutines of a worker, and the stored form of a deployment.

## How the model is laid out

| file | what it holds |
|---|---|
| `Domain.dfy` | labels, apps, app specs, revisions and their comparisons |
| `Runtime.dfy` | running containers; doubling start batches and stops under an arbitrary environment |
| `RollSpec.dfy` | one rolling step as a function of limits and snapshot |
| `Controller.dfy` | the handlers' loops and the class `Cluster`, each method proved equal to that function |
| `Snapshots.dfy` | labels partition the apps, so the derived counts add up |
| `RollSafety.dfy`, `RollFloor.dfy` | surge ceiling; availability floor and exactly when it is guaranteed |
| `RollOrder.dfy`, `RollSelection.dfy` | which errors end a step, and exactly which apps it stops |
| `RollConvergence.dfy`, `RollRuns.dfy` | progress of one step; ceilings, floor and convergence over whole runs |
| `Deployments.dfy` | deployment records and the status update |
| `Revisions.dfy`, `Keys.dfy` | the revision store, its keys, and how the current revision is found |
| `Rollback.dfy`, `RollbackHistory.dfy` | rollback and pruning in place; what is left, and that it takes effect |
| `Selection.dfy` | when repeated reconciles settle on one revision |
| `Reconciles.dfy` | one pass of the reconcile loop with its ten checkpoints |
| `WorkerProtocol.dfy` | all interleavings of the worker's helper and main loop |
| `SerialRuns.dfy` | runs of tasks, passes, rolling steps and crashes under a clock that never goes back |
| `RollingPasses.dfy` | the rolling step a pass launches, under the limits of the spec |
| `Tracking.dfy`, `UnseenExample.dfy` | which running containers a worker can still find, and what quitting means |
| `ProtocolSteps.dfy` | the protocol's records and steps are those of stored deployments |
| `Persistence.dfy` | mapping to the stored form and back |
| `PurgeRace.dfy` | a purge of the history beside rollbacks |
| `Collection.dfy`, `DirectCollection.dfy` | concurrent collection in the indirect and in the direct modes, node sampling |
| `IndirectStop.dfy` | stops over several nodes |

**The environment.** Every call to the container runtime is one tick. An environment, a
function from ticks to effects, decides whether the call succeeds, fails without effect, or
reports a failure although it took effect. Lemmas quantify over all environments. The
goroutines of one batch are numbered in the order of their ticks, so that also covers every
schedule of a batch. Container names are a revision name and the serial number of the start
that created them, which stands for the unique suffix.

**Snapshots.** A rolling step works on the lists a reconcile collected, not on the
containers, and its counts are not refreshed between the two halves of a step; the model
keeps this. `Faithful` says that the lists show exactly the running containers, that each
container carries the labels of the revision that started it, that revisions have distinct
names, and that the counts were computed from the lists. Between two steps of a run
containers may crash; no step is in flight when the next snapshot is taken.

**Two layers.** The controller's loops are methods that change a `Cluster`, a `Record`, a
`RevisionRepo` or an array, as the handlers do. Each is proved against a specification, a
function or, where the store's order is open, a relation such as `Passes`, and the theorems
are about those. The events of a serial run are these same relations.

## Where the code and its documentation part

The model follows the code. These are results, each proved by the member named.

- A new revision with more than `appCount` apps is scaled down on the tail of its list,
  available or not, so the availability floor is lost exactly then (`FloorExactlyWhen`).
- With both limits zero a rollout that lacks new apps and has old ones never ends
  (`HealthyRunsConverge`, `StuckForEver`).
- A deployment with `appCount` 0 or a negative `maxUnavailable` never completes
  (`CompletionMeansDone`).
- In the direct node mode a failed stop goes unnoticed, because the error is assigned to a
  shadowing variable (`StopAppsInMode`).
- The comment in `StopAppsIndirect` promises one counted stop per app; what is counted are
  successful calls, so with two or more apps and nodes a second success of one app hides the
  failure of another (`VerdictIsSoundExactlyWhen`), and a tail shorter than asked for is
  always an error (`SucceedsExactlyWhen`).
- Unnamed rollback with a revision limit of one or two deletes the copy it has just saved
  (`RollbackSurvivors`), and then every reconcile adds a revision for good
  (`UnnamedRollbackSettlesExactly`). Named rollback deletes the current revision whenever it
  deletes any (`NamedPrunesCurrent`). One revision too few is left if a current revision
  that was not in the store kept a place, and if the named revision is another deployment's,
  which nothing checks (`RollbackLeaves`, `NamedRollbackLeaves`). A limit of zero never prunes.
- Containers are found by the labels of the stored revisions. Those of a revision that a
  rollback has deleted, or that a put no longer selects, run on unseen, so a worker can quit
  and its record be deleted while they run (`QuitsWhileRunning`). It also does in the indirect
  mode when it is given no nodes: no query fails, the lists are empty, and it quits whatever
  runs (`BlindPassQuits`, `QuitsBlindly`). `QuitsWithNothingRunningExactlyWhen` says exactly
  when nothing is left running.
- In the direct modes the goroutines that query containers share one error variable, so a
  failed query can drop the apps of the revisions that answered, depending on the schedule
  (`TwoRuns`, `SameBagsExactlyWhen`, `SameCountsExactlyWhen`).
- A put that takes back a stop comes too late once the stop has been signalled: the worker
  quits, and the record stays with nobody to reconcile it (`StopIsOutrun`,
  `LeavesLiveExactlyWhen`).
- A rollback beside a purge leaves its copy behind if it saves it after the purge has listed
  what to delete (`LeftExactlyWhen`).
- A `revision` label in the app spec or in the selector makes every reconcile add a revision
  (`HistoryGrowth`).
- Quotas are compared with missing keys read as zero: a map with a zero quota is taken for
  another one, unless it gives all three supported quotas (`QuotaComparisonIsExactWhen`).
- Eleven tasks that arrive while the main loop waits block the helper for ever, and with it
  the worker (`EleventhTaskWedges`).
- A reconcile that is past its last checkpoint overwrites what a task saved meanwhile, and one
  that is past the sixth with a deployment marked for deletion deletes it; no other reconcile
  can (`DestroyableExactlyWhen`), and the window is reached from every start
  (`WindowIsReached`). A handler that saves late brings a purged record back
  (`PurgeUndoneExactlyWhen`).
- After an automatic rollback the same pass still launches a rolling step, with the revision
  it had chosen before the rollback (`RollsExactlyWhen`).
- Unpausing a deployment that failed without automatic rollback does not resume it: its
  deadline still runs from the last put or rollback (`ExpiredNeverRolls`).
- Active flags are not stored; the status update recomputes all of them except Failure of a
  completed rollout (`PersistenceKeepsDecisions`).
- The query for a deployment's revisions also finds those of every namespace that its own
  namespace is a proper prefix of (`QueryFindsExactly`).

## Model

| member | source | states |
|---|---|---|
| Domain.QuotaComparisonIsExactWhen | internal/utils/utils.go:60-70 | among maps of supported quotas the comparison tells one from every other if and only if it has no zero quota or gives all three |
| Domain.MatchExactlyWhen | internal/domain/app.go:80-115 | two app specs match if and only if they are the same up to the other's labels, which may be more, the quotas and the version of the seccomp profile |
| Domain.RevisionsMatchExactlyWhen | internal/domain/revision.go:86-95 | two revisions compare equal if and only if they have one key, the other's selector is part of this one's and their app specs match |
| Runtime.DoublingStartsAreExact | internal/handlers/apps.go:360-396 | for every failure pattern attempts never exceed `appCount`, the reported successes are exact, success means no attempt failed and all were made, and on failure only the last batch failed and is at most one larger than all starts before it |
| Runtime.DoublingUsesFewestBatches | internal/handlers/apps.go:370-394 | a successful start used the least k batches with 2^k - 1 >= `appCount` |
| Runtime.BatchesExtend | internal/handlers/apps.go:89-141 | for every failure pattern starting removes and relabels nothing and adds at most the number asked for, all under the revision's labels and fresh names |
| Runtime.BatchesCount | internal/handlers/apps.go:360-396 | when no call fails the start succeeds and adds exactly the number asked for |
| Runtime.StartNExactly | internal/handlers/containers.go:23-54 | exactly the containers of the start calls that took effect are added, whether they reported so or not |
| Runtime.BatchesAreStarts | internal/handlers/apps.go:370-394 | however it is cut into batches, a start makes its attempts one after the other |
| Runtime.StartsOkExactly | internal/handlers/apps.go:383-395 | a start succeeds if and only if none of the calls asked for would fail |
| Runtime.StopSeqLoses | internal/handlers/apps.go:409-422 | stopping removes only containers it names, and exactly those when no call fails, however often one is named |
| Runtime.StopSeqExactly | internal/handlers/apps.go:409-422 | exactly the containers whose stop call took effect are gone |
| RollOrder.StopVerdict | internal/handlers/apps.go:58-87 | the verdict of a stop: any failed call in the docker mode, none in the direct node mode, always an error without nodes or in an unknown mode |
| RollFloor.StopAppsRemoves | internal/handlers/apps.go:58-87 | in each of the three modes, when nothing fails, exactly the last `appCount` apps of the list are gone |
| Controller.SelectMatching | internal/handlers/reconciliation.go:290-295 | the loop selects the apps matching the selector, in list order |
| Controller.CountMatchingApps | internal/handlers/reconciliation_utils.go:18-26 | the loop counts the matching apps |
| Controller.GetOldUnavailableApps | internal/handlers/reconciliation_utils.go:35-51 | the apps in list order that are neither available nor of the new revision |
| Controller.GetActiveRevisions | internal/handlers/reconciliation.go:540-561 | the revisions with running apps and their counts |
| Controller.SumOf | internal/handlers/reconciliation.go:403-406 | the active revisions' counts added up |
| Controller.CollectOldApps | internal/handlers/reconciliation.go:431-441 | the old revisions' apps in revision order, and their counts added up |
| Controller.Cluster.StartContainer | internal/handlers/containers.go:323-398 | one start call adds one fresh container or none, as the environment decides |
| Controller.Cluster.StopContainer | internal/handlers/containers.go:400-471 | one stop call removes the named container or none; it is idempotent |
| Controller.Cluster.RunBatch | internal/handlers/apps.go:373-384 | a batch makes exactly its starts, its channel ends with exactly the failures in it and is never full when one is sent |
| Controller.Cluster.StartAppsDirect | internal/handlers/apps.go:360-396 | the doubling loop computes the specified containers, successes and verdict |
| Controller.Cluster.StopAppsDirect | internal/handlers/apps.go:398-432 | stops exactly the tail of the list and fails if and only if some stop failed |
| Controller.Cluster.StopOnNodes | internal/handlers/apps.go:170-194 | one app is tried on every node; the counter is the successful calls so far, capped |
| Controller.Cluster.StopAllOnNodes | internal/handlers/apps.go:164-198 | the whole tail is tried on every node and the capped successes are counted |
| Controller.Cluster.StopAppsIndirect | internal/handlers/apps.go:143-205 | containers and verdict of a stop over several nodes, with its errors for no nodes and too few successes |
| Controller.Cluster.StartAppsInMode | internal/handlers/apps.go:13-56 | starting in each mode, with the errors for no nodes and an unknown mode |
| Controller.Cluster.StopAppsInMode | internal/handlers/apps.go:58-87 | stopping in each mode, including the error lost in the direct node mode |
| Controller.Cluster.Stop | internal/handlers/reconciliation.go:240-246 | stopping a deployment stops every app of the snapshot in its mode |
| Controller.Cluster.Scale | internal/handlers/reconciliation.go:510-538 | a revision is scaled by the difference to its recorded count |
| Controller.Cluster.ReconcileNewRevision | internal/handlers/reconciliation.go:382-425 | the new revision's half of a step refines its specification |
| Controller.Cluster.ScaleOldRevisions | internal/handlers/reconciliation.go:469-502 | the loop over the old revisions, with its budget, skips and early exits, refines its specification |
| Controller.Cluster.ReconcileOldRevisions | internal/handlers/reconciliation.go:427-508 | the old revisions' half of a step refines its specification |
| Controller.Cluster.RollStep | internal/handlers/reconciliation.go:288-311 | a whole rolling step refines `Roll`, about which safety and convergence are proved |
| Snapshots.EachAppMatchesOneRevision | internal/utils/utils.go:39-46 | an app matches the selector of the revision that started it and of no other |
| Snapshots.CarriedMatchesOnce | internal/domain/revision.go:45-68 | among any first n revisions an app matches exactly one if its own is there, else none |
| Snapshots.MatchesAddUp | internal/handlers/reconciliation.go:431-441 | the matches of all revisions together are as many as the apps |
| Snapshots.CountsAreMatches | internal/handlers/reconciliation.go:550-558 | each recorded count is the number of apps matching that revision |
| Snapshots.ActiveSumIsSum | internal/handlers/reconciliation.go:403-406 | summing over active revisions is summing over all |
| Snapshots.SumIgnoresOrder | internal/handlers/reconciliation.go:104-108 | sorting the active revisions does not change the sum |
| RollSafety.FaithfulCounts | internal/handlers/reconciliation.go:102-108 | the derived counts are those of the running containers, and old and new split them |
| RollSafety.ScaleOldLoses | internal/handlers/reconciliation.go:475-502 | however many old revisions are scaled down on the shared list, all stops stay in one tail of the budget's length |
| RollSafety.ReconcileOldLoses | internal/handlers/reconciliation.go:427-508 | the second half stops only unavailable old apps and that tail, whatever fails |
| RollSafety.ScaleUpBounds | internal/handlers/reconciliation.go:397-418 | the planned scale-up stays within the free capacity and the missing new apps |
| RollSafety.SurgeCeiling | internal/handlers/reconciliation.go:288-311 | for every failure pattern a step leaves at most max(total before, `appCount` + `maxSurge`) apps and max(new before, `appCount`) new ones |
| RollSafety.StartedCarry | internal/handlers/containers.go:23-54 | every started container carries the revision's labels, and in the docker mode its name whatever they say |
| RollOrder.FailedStartEndsStep | internal/handlers/reconciliation.go:303-306 | if any start of the missing new apps fails the step reports an error and every container that ran before still runs |
| RollOrder.StartsThenStops | internal/handlers/reconciliation.go:303-311 | otherwise the step starts exactly the missing new apps and then turns to the old revisions |
| RollOrder.FailedTrimEndsStep | internal/handlers/reconciliation.go:388-395 | if stopping a surplus new app fails in the docker mode the step reports an error and no old app is stopped |
| RollOrder.TrimsToTarget | internal/handlers/reconciliation.go:388-395 | when no call fails a new revision with too many apps is left with exactly `appCount` |
| RollOrder.PlanIsFollowed | internal/handlers/reconciliation.go:451-502 | for every environment the old half is a plan fixed beforehand, the unavailable old apps and then each old revision's share of the budget, carried out until a stop reports an error |
| RollSelection.MatchingSplits | internal/handlers/reconciliation.go:290-295 | the apps of a revision keep the order of the list |
| RollSelection.AppsOfSplits | internal/handlers/reconciliation.go:433-441 | the old apps come revision after revision, in list order within each |
| RollSelection.SparesAreTail | internal/handlers/apps.go:400-404 | the tail of the unavailable old apps is exactly the last of the listed apps that are neither available nor new |
| RollSelection.BudgetIsSpendable | internal/handlers/reconciliation.go:443-453 | the most that may be scaled down is running - (`appCount` - `maxUnavailable`) - (new - available new), in running and available containers |
| RollSelection.NothingToSpend | internal/handlers/reconciliation.go:454-457 | when that is not positive a step stops nothing, whatever the environment |
| RollSelection.OnlySparesGo | internal/handlers/reconciliation.go:459-478 | when no available app may go and no call fails, exactly the last unavailable old apps go, as many as that |
| RollSelection.StoppedExactly | internal/handlers/reconciliation.go:427-508 | exactly which containers a step stops when no call fails, with any number of old revisions |
| RollSelection.FailedSpareEndsStep | internal/handlers/reconciliation.go:462-466 | in the docker mode, if stopping one of those unavailable apps fails the step reports an error and every available app still runs |
| RollFloor.AvailabilityFloor | internal/handlers/reconciliation.go:427-508 | with at most `appCount` new apps, for every failure pattern and list order, at least min(available before, `appCount` - `maxUnavailable`) of the available apps survive |
| RollFloor.FloorExactlyWhen | internal/handlers/reconciliation.go:388-395 | the floor is guaranteed if and only if the new revision has at most `appCount` apps or no app need be available |
| RollConvergence.OldAppsAreNotNew | internal/handlers/reconciliation.go:431-441 | the old revisions' list holds as many apps as there are old ones and none of the new revision |
| RollConvergence.StartPhase | internal/handlers/reconciliation.go:397-424 | in a healthy cluster the first half starts exactly the planned new apps and touches nothing else |
| RollConvergence.StopPhase | internal/handlers/reconciliation.go:451-502 | the second half keeps every new app and stops at least one old app when the budget allows |
| RollConvergence.StopsWithinBudget | internal/handlers/reconciliation.go:469-488 | the second half stops no more apps than the budget |
| RollConvergence.UnavailableStoppedFirst | internal/handlers/reconciliation.go:451-466 | when no call fails, however few apps are available, the whole permitted tail of unavailable old apps is gone after a step |
| RollConvergence.HealthyStep | internal/handlers/reconciliation.go:288-311 | a step makes the measure smaller if and only if the rollout is not stuck, and never overshoots |
| RollConvergence.StuckForEver | internal/handlers/reconciliation.go:412-414 | with both limits zero and full capacity a step does nothing, whatever the environment |
| RollConvergence.HopelessStep | internal/handlers/reconciliation.go:382-508 | with both limits zero a rollout with old apps and missing new ones stays so |
| RollConvergence.FinishedIsLeftAlone | internal/handlers/reconciliation.go:384-387 | once only `appCount` new apps run a step starts and stops nothing |
| RollRuns.SurgeAlongRuns | internal/handlers/reconciliation.go:288-311 | both ceilings hold after every step of every run with failures and crashes |
| RollRuns.FloorAlongRuns | internal/handlers/reconciliation.go:303-308 | a run that starts with at most `appCount` new apps keeps the floor at every step |
| RollRuns.StopEmpties | internal/handlers/reconciliation.go:240-246 | stopping a deployment only removes containers, whatever fails, and removes all when nothing fails |
| RollRuns.StillCarried | internal/handlers/apps.go:13-56 | after a step each container still carries the labels of one of the revisions, so the next snapshot can be faithful |
| RollRuns.HealthyRunsConverge | internal/handlers/reconciliation.go:288-538 | a healthy run as long as the measure ends at exactly `appCount` new apps and no old ones if and only if a limit is positive, or no new app is missing, or no old one is left |
| RollRuns.NeverFinishes | internal/handlers/reconciliation.go:412-414 | otherwise old apps and missing new ones remain after every step |
| Deployments.Record.constructor | internal/domain/deployment.go:102-112 | a record holds the loaded deployment |
| Deployments.Record.NewState | internal/domain/deployment.go:201-210 | one state changes and keeps its time of last update |
| Deployments.Record.UpdateProgress | internal/handlers/reconciliation.go:566-581 | first half of the status update: availability and completion |
| Deployments.Record.CheckDeadline | internal/handlers/reconciliation.go:583-598 | second half: failure when the deadline has passed |
| Deployments.Record.UpdateStatusStates | internal/handlers/reconciliation.go:563-601 | the update changes the states and nothing else |
| Deployments.UpdateKeepsDeadline | internal/handlers/reconciliation.go:568-596 | an update never moves the time the deadline runs from |
| Deployments.FlagsAfterUpdate | internal/handlers/reconciliation.go:563-601 | each flag after an update, by an if-and-only-if |
| Deployments.StatesAfterUpdate | internal/handlers/reconciliation.go:563-601 | flag, message and time of every state after an update, from the counts, the limits and the clock |
| Deployments.KnownModes | internal/domain/deployment.go:71-83 | the three mode strings stand for the three ways to run containers, and no other string for any |
| Deployments.CompletionMeansDone | internal/handlers/reconciliation.go:567-573 | completion is reported if and only if something is asked for, `maxUnavailable` is not negative, and exactly `appCount` new apps run, all available, with no old one |
| Deployments.CompletedIsLeftAlone | internal/handlers/reconciliation.go:382-508 | in a completed rollout a step starts and stops nothing |
| Revisions.SortedNewestIsSorted | internal/domain/revision.go:97-109 | the specified order is newest first and a permutation |
| Revisions.SortNewestFirst | internal/handlers/reconciliation.go:272-272 | sorts the array in place, newest first, and permutes it |
| Revisions.RevisionRepo.constructor | internal/repos/revision_etcd.go:19-24 | a handle on a store that may hold revisions already |
| Revisions.RevisionRepo.Put | internal/repos/revision_etcd.go:26-41 | stores under the revision's own key and changes nothing else |
| Revisions.RevisionRepo.Get | internal/repos/revision_etcd.go:43-60 | the revision under a key, or not found |
| Revisions.RevisionRepo.Delete | internal/repos/revision_etcd.go:62-72 | removes one key and nothing else |
| Revisions.RevisionRepo.GetDeploymentOwned | internal/repos/revision_etcd.go:96-116 | lists exactly the owned revisions, each once |
| Revisions.RevisionRepo.DeleteDeploymentOwned | internal/repos/revision_etcd.go:80-94 | removes exactly the owned revisions, and none is left |
| Revisions.GetNewAndOldRevisions | internal/handlers/reconciliation.go:249-285 | the newest owned revision if its app spec matches, else a newly built valid one, and the others in order |
| Revisions.StoredCompareExactlyWhen | internal/domain/revision.go:86-95 | stored revisions compare equal only to themselves, so the others are all but the current one |
| Revisions.BuiltExactly | internal/domain/revision.go:26-70 | a built revision: whose labels win in the overlay, and everything else the deployment's; none for an unsupported quota |
| Revisions.LookupFailsExactlyWhen | internal/handlers/reconciliation.go:270-285 | no current revision if and only if the newest does not match and a quota is unsupported or a needed name is empty |
| Revisions.ChangedSpecIsRebuilt | internal/handlers/reconciliation.go:273-284 | a changed name, strategy, default action, system call rule or label never takes a stored revision as current: it is rolled out |
| Rollback.Prune | internal/handlers/reconciliation.go:362-372 | deletes exactly the revisions in the slots over the limit, as the slots are by then |
| Rollback.Candidates | internal/handlers/reconciliation.go:316-328 | the list a rollback chooses from, newest first only on the unnamed path |
| Rollback.RollbackDeployment | internal/handlers/reconciliation.go:314-380 | store, spec and states after a rollback made in a slot of the list pruned afterwards; nothing changes when it fails |
| Rollback.StatesAfterRollback | internal/handlers/reconciliation.go:374-377 | a rollback restarts every state's time, takes a failure back, sets progress and keeps the availability |
| RollbackHistory.ChosenListHoldsAll | internal/handlers/reconciliation.go:249-285 | the lookup's current revision and its others are exactly the owned revisions and the current one, each once, and the current one was stored if and only if the newest matched |
| RollbackHistory.RollbackSurvivors | internal/handlers/reconciliation.go:314-372 | exactly which owned revisions a rollback leaves, for every limit, named or not, whether or not the current one was stored and whoever owns the source |
| RollbackHistory.RollbackLeaves | internal/handlers/reconciliation.go:346-372 | exactly how many it leaves: min(n + 1, limit), one fewer if an unstored current revision kept a place, one fewer if the copy is another deployment's |
| RollbackHistory.CurrentCountsExactlyWhen | internal/handlers/reconciliation.go:320-323 | with the clock past the stored times, the first loss is avoided if and only if the current revision was stored, the limit is not reached or not positive, the rollback is named, or the limit is one |
| RollbackHistory.NamedRollbackLeaves | internal/handlers/reconciliation.go:334-372 | a named rollback leaves the due number if and only if the copy belongs to the deployment, and otherwise always one fewer |
| RollbackHistory.UnnamedSurvivors | internal/handlers/reconciliation.go:321-372 | with the current revision stored, the newest min(n, limit - 1) survive, the source, and from a limit of three on the copy |
| RollbackHistory.NamedPrunesCurrent | internal/handlers/reconciliation.go:334-372 | a named rollback deletes the stored current revision if and only if it deletes any |
| RollbackHistory.CopyIsOwnedExactlyWhen | internal/handlers/reconciliation.go:334-352 | when a copy belongs to the deployment, as a condition on its source, and on the selector alone if the source does |
| RollbackHistory.RollbackTakesEffect | internal/handlers/reconciliation.go:346-360 | the next lookup returns exactly the copy, every other owned revision as old, builds nothing, and the app spec is the source's under the new `revision` label |
| RollbackHistory.NewestIsFirst | internal/handlers/reconciliation.go:270-275 | a strictly newest owned revision comes first however ties among the others are broken |
| Selection.BuiltMatchesExactly | internal/domain/revision.go:26-70 | a built revision matches the app spec it was built from if and only if the labels agree |
| Selection.BuiltIsOwnedExactly | internal/domain/revision.go:48-51 | the deployment finds a built revision again if and only if its selector fixes no other `revision` or `deployment` label |
| Selection.BuiltIsWellFormedExactly | internal/domain/revision.go:48-68 | a built revision's containers match its own selector if and only if the app spec has no label beyond the selector's |
| Selection.SettledAddsNothing | internal/handlers/reconciliation.go:249-276 | with a strictly newest matching revision a reconcile leaves the store as it is |
| Selection.BuildingSettlesExactly | internal/handlers/reconciliation.go:270-285 | building one revision settles the store if the labels can settle, and otherwise none matches afterwards either |
| Selection.HistoryGrowth | internal/handlers/reconciliation.go:24-41 | n reconciles of an unchanged deployment add exactly one revision if the labels can settle, and n if they cannot |
| Selection.UnnamedRollbackSettlesExactly | internal/handlers/reconciliation.go:314-372 | n reconciles after an unnamed rollback add n revisions if the limit is one or two or the copy is not owned, which for a source of its own means the selector fixes another `revision` label, and none otherwise |
| WorkerProtocol.InvariantAlways | internal/handlers/worker.go:63-134 | in every interleaving the reconcile channel is open except while it is being replaced, and the token count stays within the channel |
| WorkerProtocol.InterruptedNeverSaves | internal/handlers/reconciliation_utils.go:62-69 | in every interleaving a reconcile at a checkpoint with a token pending neither saves nor purges |
| WorkerProtocol.EachTokenInterruptsOne | internal/handlers/reconciliation_utils.go:62-69 | while no task comes in the next reconciles give up, as many as tokens are pending, and the one after them does not |
| WorkerProtocol.QuitsOnlyWhenSignalled | internal/handlers/worker.go:113-121 | in every interleaving a worker quits only after a reconcile drained a deployment it had loaded as stopped or deleted |
| WorkerProtocol.DestroyedOnlyFromTheTail | internal/handlers/worker.go:71-82 | a task's saved record is overwritten or deleted by a reconcile that loaded before it only if, when its token was pushed, that was past its last checkpoint, or past the sixth with a record marked for deletion |
| WorkerProtocol.DestroyableExactlyWhen | internal/handlers/reconciliation.go:113-236 | an interleaving in which that happens exists if and only if the reconcile is there |
| WorkerProtocol.TailDestroys | internal/handlers/reconciliation.go:153-236 | the interleaving itself: the task is handled and saved, and then the old record is back, or none |
| WorkerProtocol.WindowIsReached | internal/handlers/worker.go:63-134 | from every start with a deployment to be kept or deleted a run leads into that window with any given task at hand |
| WorkerProtocol.PurgeUndoneExactlyWhen | internal/handlers/reconciliation.go:153-172 | a purged record can come back if and only if a handler had read it and not yet saved it |
| WorkerProtocol.WedgedForEver | internal/handlers/worker.go:75-75 | a wedged worker stays wedged in every continuation |
| WorkerProtocol.PushableExactlyWhen | internal/handlers/worker.go:71-75 | a received task can still be handled if and only if the worker is not wedged |
| WorkerProtocol.TooManyTasksWedge | internal/handlers/worker.go:42-42 | filling the channel while the main loop rests, and one task more, wedges the worker |
| WorkerProtocol.EleventhTaskWedges | internal/handlers/worker.go:42-75 | ten tasks are handled and saved while the main loop rests; one received after nine can still be handled, the eleventh never |
| WorkerProtocol.TenChecksToSave | internal/handlers/reconciliation.go:17-236 | a reconcile gets to its save by exactly ten checks, and to draining by exactly six |
| WorkerProtocol.LeavesLiveExactlyWhen | internal/handlers/worker.go:113-121 | once a stop is signalled, and with no put coming in any more, the worker can quit and leave a record that is not stopped if and only if one is stored or still at large with a handler or a reconcile |
| WorkerProtocol.StopIsOutrun | internal/handlers/update-service-grpc.go:64-91 | from every start with a stopped deployment a run in which a put is saved after the stop was signalled and the worker quits all the same |
| PurgeRace.LeftExactlyWhen | internal/repos/revision_etcd.go:80-94 | beside rollbacks, a purge leaves exactly the copies saved after it listed the revisions and not pruned since |
| PurgeRace.PurgeIsCompleteExactlyWhen | internal/handlers/reconciliation.go:153-172 | so it deletes the whole history if and only if there is no such copy |
| ProtocolSteps.TasksFollowProtocol | internal/handlers/worker.go:256-388 | each task handler does to a stored deployment's marks and spec what the interleaved protocol's handler does |
| ProtocolSteps.PassesFollowProtocol | internal/handlers/reconciliation.go:14-237 | a pass saves if and only if it is past the last checkpoint with a deployment to be kept, drains only past the sixth, and its saves, purges and stop signals are steps the interleaved protocol allows there |
| Reconciles.ReactToFailure | internal/handlers/reconciliation.go:196-208 | a failed deployment is paused or rolled back as specified, with the store a rollback leaves; it is not rolled back only if nothing precedes the current revision or the save fails |
| Reconciles.KeepRunning | internal/handlers/reconciliation.go:174-236 | status update, reaction to a failure, launch and save refine the specified pass at every checkpoint, store included |
| Reconciles.Drain | internal/handlers/reconciliation.go:118-172 | the stop and delete branches refine the specified ones and delete exactly the owned revisions, if any |
| Reconciles.ReconcilePass | internal/handlers/reconciliation.go:14-237 | a whole pass refines the specified one for every interruption: record, effects, lookup and store |
| Reconciles.PassSavesCurrent | internal/handlers/reconciliation.go:24-41 | past its second checkpoint a pass has saved exactly the revision it found, and only a purge or a rollback changes the store after that; before it changes nothing |
| Reconciles.RolledBackExactlyWhen | internal/handlers/reconciliation.go:199-204 | when a pass rolls back automatically: only past its eighth checkpoint, late, incomplete and not paused, and then always unless nothing precedes the current revision or the save fails |
| Reconciles.RollsExactlyWhen | internal/handlers/reconciliation.go:199-228 | when a pass launches a rolling step, by an if-and-only-if on record, observation, clock and checkpoint |
| Reconciles.SavesOnlyKept | internal/handlers/reconciliation.go:118-236 | a pass saves only deployments neither stopped nor deleted, unpauses nothing, and keeps the deadline running unless it rolled back |
| Reconciles.PausedExactlyWhen | internal/handlers/reconciliation.go:199-208 | past its eighth checkpoint a pass leaves a kept deployment paused if and only if it was, or it is incomplete, late and not rolled back automatically |
| Reconciles.CountsNoted | internal/handlers/reconciliation.go:91-95 | the five counts of apps a pass notes, and that it notes none before |
| SerialRuns.AlwaysSound | internal/handlers/worker.go:327-388 | in every serial run the stored record can be saved again, a deleted deployment is a stopped one, no stored state is active, and the deadline runs from the last put or rollback |
| SerialRuns.FindsExactlyWhen | internal/handlers/containers.go:264-274 | a query finds a container if and only if overlaying its labels with the filters changes nothing |
| SerialRuns.RollsOnlyInTime | internal/handlers/reconciliation.go:215-228 | a step is launched only for a deployment neither paused, stopped nor deleted, within its deadline or just rolled back |
| SerialRuns.FailsExactlyWhen | internal/handlers/reconciliation.go:583-598 | Failure is raised if and only if the rollout is incomplete, not paused, and later than the last put or rollback plus the deadline |
| SerialRuns.PausedAlongRuns | internal/handlers/reconciliation.go:199-236 | in every serial run a saving pass stores the deployment paused if and only if it was, or it fails without automatic rollback |
| SerialRuns.CreatedIsToRoll | internal/domain/deployment.go:145-180 | a deployment that a put creates is neither paused, stopped nor deleted, counts no app, and its deadline starts then |
| SerialRuns.PutRestarts | internal/handlers/update-service-grpc.go:53-69 | a put takes back a stop and a deletion but not a pause, keeps flags and messages and restarts all times |
| RollingPasses.LaunchKeepsBounds | internal/handlers/reconciliation.go:215-228 | the step a pass launches keeps the spec's `appCount` + `maxSurge` ceiling and `appCount` - `maxUnavailable` floor |
| RollingPasses.LaunchMakesProgress | internal/handlers/reconciliation.go:215-228 | on healthy apps it brings the rollout nearer if and only if the spec's limits leave it room |
| RollingPasses.PassSeesCompletion | internal/handlers/reconciliation.go:91-184 | what a pass observes on a faithful snapshot reports completion if and only if exactly `appCount` new apps run, all available, and no other |
| SerialRuns.ExpiredNeverRolls | internal/handlers/reconciliation.go:205-217 | once failed without automatic rollback, no continuation launches a step before a put or a rollback |
| SerialRuns.StoppedDrains | internal/handlers/reconciliation.go:118-151 | while stopped, until a put, no step is launched and containers only go away, whatever fails |
| Tracking.ListedUnlessDropped | internal/handlers/reconciliation.go:249-268 | a revision in use is listed by the next lookup if and only if the event did not prune, purge or deselect it |
| Tracking.TrackedOrDropped | internal/handlers/reconciliation.go:249-268 | in every serial run each running container is found by a listed revision or was dropped by an earlier event |
| Tracking.QuitsOnlyWhenNoneIsTracked | internal/handlers/reconciliation.go:138-172 | the worker quits only for a stopped deployment and, if its pass went to the docker daemon or had nodes, only when no container of a listed revision runs; with the record the listed revisions go too |
| Tracking.QuitsWithNothingRunningExactlyWhen | internal/handlers/reconciliation.go:138-172 | then nothing at all runs if and only if no container of a revision dropped earlier still does, and the pass could see containers or there was none to see |
| Tracking.BlindPassQuits | internal/handlers/apps.go:617-637 | a pass of the indirect mode without nodes quits, and deletes, whatever runs, and stops none of it |
| UnseenExample.QuitsWhileRunning | internal/handlers/reconciliation.go:363-371 | a run of a named rollback, a stop and a pass in which the worker quits while a container runs |
| UnseenExample.QuitsBlindly | internal/handlers/reconciliation_utils.go:80-95 | a run of a stop and a pass without nodes in which it quits while a container of a listed revision runs |
| Tracking.StoppingPassClears | internal/handlers/reconciliation.go:118-142 | when no call fails, one pass over a stopped deployment stops every container of a listed revision |
| Tracking.FaithfulExactlyWhen | internal/handlers/containers.go:264-321 | a pass's snapshot shows the containers faithfully, as the bounds assume, if and only if none runs, or the pass could see containers and a listed revision finds each of them |
| Tracking.AutomaticRollbackLeaves | internal/handlers/reconciliation.go:199-204 | the rollback inside a pass is one of the store with the current revision saved, and leaves as many revisions as any |
| Persistence.MapStatesOut | internal/mappers/proto/domain.go:209-214 | the loop stores every state under its type, without its active flag |
| Persistence.RoundTrip | internal/mappers/proto/domain.go:11-163 | a deployment can be saved if and only if its limits are present and its mode known; read back, it is the same up to active flags and the `deployment` label, or refused if and only if a quota is unsupported |
| Persistence.SaveFailsExactlyWhen | internal/mappers/proto/domain.go:111-163 | which missing part or unknown mode makes a save dereference nil or report an error |
| Persistence.ReadFailsExactlyWhen | internal/mappers/proto/domain.go:60-109 | the same for reading a stored deployment, whose quotas are looked at first |
| Persistence.PersistedOnce | internal/mappers/proto/domain.go:35-58 | a second round trip changes nothing more |
| Persistence.PersistenceKeepsDecisions | internal/mappers/proto/domain.go:232-242 | the status update reaches the same flags with and without the round trip if and only if the rollout is not complete with Failure active |
| Collection.GatheringIgnoresOrder | internal/handlers/apps.go:617-635 | the order in which one revision's nodes answer does not matter |
| Collection.CollectionIgnoresSchedule | internal/handlers/apps.go:207-248 | in the indirect mode, in whatever order the revisions' queries finish, and the nodes' within each, the same total, ready and available apps are collected, each as often, whichever queries fail |
| Collection.CountsIgnoreSchedule | internal/handlers/apps.go:207-248 | so in the indirect mode the counts per revision do not depend on the schedule |
| Collection.Collect | internal/handlers/apps.go:221-237 | the indirect mode appends the revisions' answers as they come in |
| Collection.Gather | internal/handlers/apps.go:609-638 | appending the nodes' answers as they come in, without those that failed |
| DirectCollection.CollectDirect | internal/handlers/apps.go:445-481 | the direct modes' goroutines as steps of querying and checking over the error variable they share |
| DirectCollection.TwoRuns | internal/handlers/apps.go:445-481 | two revisions of which one query fails: the other's app is lost in one order and collected in another |
| DirectCollection.AllCollected | internal/handlers/apps.go:453-481 | when no query fails every interleaving collects what all queries returned |
| DirectCollection.FailureLosesAll | internal/handlers/apps.go:466-472 | when one fails some interleaving loses the apps of every revision |
| DirectCollection.SameBagsExactlyWhen | internal/handlers/apps.go:436-492 | every interleaving collects the same apps if and only if no query fails or every successful one returned nothing |
| DirectCollection.SameCountsExactlyWhen | internal/handlers/apps.go:436-492 | every interleaving yields the same counts per revision if and only if no query fails or no app found belongs to any of the revisions |
| Collection.SplitPartitions | internal/handlers/apps.go:239-245 | new and old apps together are the collected ones, and matching the new revision tells them apart |
| Collection.UnmatchedSplits | internal/handlers/apps.go:239-245 | the old apps keep the order of the list |
| Collection.SplitApps | internal/handlers/apps.go:483-489 | the loop computes that split in list order |
| Collection.RemoveAt | internal/handlers/reconciliation_utils.go:109-109 | removes one element in place by moving the later ones down |
| Collection.PickedOrLeft | internal/handlers/reconciliation_utils.go:98-113 | every node is picked or left, once, for any source of random indices |
| Collection.SelectRandomNodes | internal/handlers/reconciliation_utils.go:98-113 | for every node list and percentage up to 100 no index is out of range, the ceiling of the percentage is selected, exactly the nodes the random source points at, and the caller's array is left with the others in front |
| IndirectStop.CountDeleted | internal/handlers/apps.go:187-192 | the capped counter of the concurrent stops |
| IndirectStop.DeletedCounts | internal/handlers/apps.go:187-192 | in every order the counter ends as the number of successful calls, capped |
| IndirectStop.SucceedsExactlyWhen | internal/handlers/apps.go:154-204 | with at most one success per app the stop succeeds if and only if the tail is empty or has exactly `appCount` apps that all stopped |
| IndirectStop.VerdictIsSoundExactlyWhen | internal/handlers/apps.go:200-204 | without that assumption a success means all stopped if and only if there is at most one app or one node |
| IndirectStop.IndirectVerdict | internal/handlers/apps.go:143-205 | a rolling step's indirect stop reports what the counter says, for every environment, so its success has the same exact condition |
| Keys.QueryFindsExactly | internal/repos/revision_etcd.go:74-78 | the prefix query finds exactly the organisation's keys in namespaces the given one is a prefix of |
| Keys.KeysAreDistinct | internal/repos/revision_etcd.go:122-128 | different revisions never share a key |

## Left out

- Docker, NATS, Magnetar, gRPC and etcd clients: replaced by the environment, by parameters and by an abstract map.
- Failing reads and deletes of the revision store, failing saves in serial runs, and crashes of the process between two store calls.
- `int64` wrap-around: counts, limits and timestamps are unbounded integers.
- Quotas are reals, so not-a-number, which no quota map equals, does not occur.
- The several clock readings of one operation are one instant; in serial runs a pass takes one instant as well.
- Overlapping rolling steps: a step runs in a goroutine the pass does not wait for; run theorems assume none is in flight at the next snapshot, since the code does not keep the bounds otherwise.
- Failed container queries in serial runs, which drop apps from a snapshot silently: there, and in the safety and convergence theorems, no query fails; what failed ones do to a collection is in `CollectionIgnoresSchedule` and `SameBagsExactlyWhen`.
- The nodes a pass lists are taken to be the ones that hold its deployment's containers, and in the direct node mode each query's random node to see all of them, as on the single machine that mode is for.
- Torn reads of variables that goroutines share, the error of `GetAppsDirect` and the channel of a worker: each step of a goroutine is atomic.
- RollConvergence.HealthyStep: is about the two direct modes; in the indirect mode a stop is also sent to nodes that do not run the app, so an environment in which no call fails does not describe it.
- RollFloor.FloorExactlyWhen: is about known modes and non-negative `appCount`; an unknown mode starts and stops nothing.
- Exact sizes of single old revisions after a step: the code scales them down on one shared list; `StoppedExactly` says which containers that stops.
- Rollback.RollbackDeployment: the nil dereference after a lookup without result is the outcome Crashed; within a pass it counts as a rollback that failed.
- Reconciles.ReconcilePass: a pass that returns on an error of the node query is the same as one interrupted at that point.
- Persistence.RoundTrip: maps records to records; wire encoding, nil maps, and the label written into a map shared with the deployment in memory are not captured.
- The registration of workers by topic (`internal/worker/worker.go`): a guarded set with easy claims; a worker that is going to quit counts as registered until it has, so a put meanwhile starts no other.
- The leaky-bucket limiter: its uses are commented out.
- Older per-app readiness and availability checks, logging, configuration, start-up and read-only requests.
