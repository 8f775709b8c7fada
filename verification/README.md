# Verified model of the tai-talea control plane

tai-talea is a control plane for GPU containers. This project models, in Dafny, the parts of it whose
correctness depends on more than one function at a time, and proves what those parts keep:

- the **capacity planner** (`PlannerTypes`, `PlannerPhases`, `PlannerRound` and the theorem files
  `PlannerRails`, `PlannerTheorems`, `PlannerProgress`, `PlannerNaming`, `PlannerSurvival`,
  `PlannerSurplus`, `PlannerRoles`, `PlannerCapacity`, `PlannerConvergence`, `PlannerPacing`,
  `PlannerTargets`, `PlannerActions`, `PlannerShapes`, `PlannerExamples`);
- the **durable transition engine** (`Domain`, `DurableStore`, `StoreRuns`, `StoreGuards`);
- the **container bootstrap** start/stop protocol (`Bootstrap`, `BootstrapRuns`, `BootstrapExits`);
- **draining against Router admission** and the **start-retry budget** (`Lifecycle`, `DrainProtocol`,
  `DrainController`, `DrainGrace`, `DrainExample`, `StartBudget`, `StartRetries`);
- **pull revocation grace** (`PullGrace`, `PullRuns`, `PullRules`), **event claim and recovery** (`Events`,
  `EventRuns`, `EventRecovery`) and **provision crash recovery** (`Provision`, `ProvisionRuns`);
- the **argument overlay** (`SglangArgs`).

Code that changes fields step by step is a class whose methods are proved against a specification
function; code made of expressions is functions. Concurrent protocols are state machines: a labelled
step per lock section, Router call or store write, a step that is not enabled changes nothing, so every
sequence of labels is a run, and the theorems quantify over all of them.

A method and its specification function follow the code; what they mean is stated apart from both, on the
columns of a row, the fields of a decision, the clock and literal constants: which pool a gear stands for
(`PlannerTargets`), when a row is written and with what (`StoreGuards`), which exit code a stop reports
(`BootstrapExits`), how long a drain waits (`DrainGrace`), when a start is taken or a budget re-armed
(`StartRetries`), and what a snapshot is turned into (`PullRules`).

## Findings

Some statements one would expect are false of this code. For each there is a concrete input, and the
exact condition under which the statement does hold:

- A round with capacity actions on can both give an idle instance back and start a worker on it
  (`GivenBackAndEmployed`); instances are named once exactly when the idle instance listed first is not
  also among those put to work (`NamedOnceExactlyWhen`).
- A round can leave a role without an untouched worker: by giving a serving worker back
  (`GivenBackTheLast`), by draining beyond `max_serving` while the other role is within its hold time
  (`SurplusTakesTheLast`), and by both together with nobody held (`GivenBackAndDrained`). One condition
  says exactly when, for every round that starts with both roles serving (`RolesSurviveExactlyWhen`).
  Giving back counts every worker that is not prefill as decode, regular ones included.
- An aggregated pool that serves exactly `max_serving` workers and has an idle spare loses a worker
  (`SpareDrainsAWorker`, exact condition `RegularDrainedExactlyWhen`).
- An identity update while a container is being prepared changes the address but keeps the recorded
  Router worker id; a start that dies after opening admission then leaves the next drain closing the
  wrong membership (`StaleIDMissesTheWorker`, exact conditions `LeavesStaleIDExactlyWhen` for the update
  and `EntersDrainingClosedExactlyWhen` for the drain).
- A pull round that ends at a refused event or at an ownership collision can hide that an instance was
  offered again, so that it is revoked before its grace is over (`AbortedRoundHidesAnOffer`); a revoked
  instance was absent for its grace exactly when no round of its partner hid an offer of it over a grace
  that ends there (`RevokedWasAbsentExactlyWhen`).
- A start the planner asks for is not held back by a spent retry budget: an instance that is lost and
  prepared again keeps its attempts and can get more starts than it had left (`SpentBudgetIsOverdrawn`).
  A run stays within its limits exactly when no such start finds the attempts used up
  (`WithinLimitsExactlyWhen`).
- `last_seen_at` moves back under a partner observation with a slower clock (`LastSeenMovesBack`).
- The branch of the reconciler that stamps a missing drain deadline without the instance lock is dead:
  a draining row always has one (`DrainingIsClosed`).

## Model

| member | source | states |
|---|---|---|
| SglangArgs.SameFlagInEverySpelling | internal/controller/sglang_args.go:5-19 | a flag is recognised whatever separator, value or padding follows it |
| SglangArgs.OverlayIsOverlay | internal/controller/sglang_args.go:21-29 | the recursive overlay keeps each mentioned flag once, in order of first mention, with its last argument |
| SglangArgs.OverlayUnique | internal/controller/sglang_args.go:21-29 | that description determines the result: no other argument list meets it |
| SglangArgs.MergeSGLangArgs | internal/controller/sglang_args.go:30-54 | the slice and index map compute the overlay of base followed by override |
| SglangArgs.MergingTwiceIsMergingOnce | internal/controller/lifecycle.go:235-237 | merging three layers pairwise equals overlaying their concatenation |
| SglangArgs.OverlaySettings | internal/controller/sglang_args.go:21-29 | the narrowest layer that mentions a flag decides its value |
| SglangArgs.StartArgs | internal/controller/lifecycle.go:235-237 | the vector handed to the bootstrap is the overlay of shared, role and instance arguments |
| Domain.LegalTable | internal/domain/state.go:188-240 | the legality verdict read row by row |
| StoreGuards.EdgesByTarget | internal/domain/state.go:50-126 | the two graphs read from where an edge leads |
| DurableStore.MergeReclaim | internal/store/sqlite.go:565-586 | a stored reclaim is merged into any stale row, or the row is refused |
| DurableStore.MergeQueuedUpdate | internal/store/sqlite.go:587-603 | a queued identity is applied, kept, replaced or dropped |
| DurableStore.DecideUpdate | internal/store/sqlite.go:536-640 | the whole decision about a stored row |
| DurableStore.DecideInsertion | internal/store/sqlite.go:524-533 | the decision about a missing row |
| DurableStore.SQLiteStore.ApplyTransition | internal/store/sqlite.go:507-653 | row and operation change together as decided, or nothing changes |
| DurableStore.SQLiteStore.TouchInstanceObservation | internal/store/sqlite.go:680-709 | an observation writes two columns of a touchable row and nothing else |
| StoreGuards.CommitsExactlyWhen | internal/store/sqlite.go:536-640 | a request is written exactly when every expectation it states equals the stored column and the row may undergo the change, on columns and flags alone |
| StoreGuards.ReclaimStores | internal/store/sqlite.go:565-574 | a reclaim marks the row, drops a queued identity, sets a missing deadline, and changes nothing else |
| StoreGuards.WriteStores | internal/store/sqlite.go:575-640 | every column any other write stores, and the few the store keeps |
| StoreGuards.QueueStores | internal/store/sqlite.go:594-603 | of two queued identities the later stays; a reclaimed or released row has none |
| StoreGuards.InsertsExactlyWhen | internal/store/sqlite.go:524-533 | when a first row is stored, and as what |
| StoreGuards.CommittedOperations | internal/store/sqlite.go:845-866 | which operations a commit records, keeps or closes, one by one |
| StoreGuards.ObservedExactlyWhen | internal/store/sqlite.go:680-709 | when an observation is recorded; it writes two columns |
| StoreGuards.RunIsGuarded | internal/store/sqlite.go:507-653 | over every run: no request changes a row that is not what it expects |
| StoreGuards.RunFollowsTheGraphs | internal/domain/state.go:50-86 | over every run containers and services move along the graphs, or the container is offered again |
| StoreRuns.StoredRowIsSound | internal/store/sqlite.go:604-640 | whatever a caller hands in, a stored row is legal, keeps id, partner and creation time, and its observations do not move back |
| StoreRuns.RunKeepsSound | internal/store/sqlite.go:507-709 | over every run: legal triples, partner kept, lease observation monotone, no queued identity beside a reclaim |
| StoreRuns.ReclaimIsLatched | internal/store/sqlite.go:565-586 | until RELEASED no stale writer takes a reclaim back or moves its identity or deadline |
| StoreRuns.QueuedUpdateIsNeverLost | internal/store/sqlite.go:587-603 | a queued identity leaves the row only by being applied, replaced by a later one, reclaimed or released |
| StoreRuns.OnlyAReofferRevives | internal/store/sqlite.go:553-564 | a released row lives again only through a reoffer under a new lease that closes the old operations |
| StoreRuns.ServingIsEarned | internal/domain/state.go:70-86 | SERVING is preceded by STARTING, HEALTHY and REGISTERING, in that order, in every run |
| StoreRuns.LastSeenMovesBack | internal/store/sqlite.go:700-702 | exactly when the stored last_seen_at moves back |
| PlannerTypes.MovableIsQueue | internal/planner/planner.go:1114-1129 | the queue holds exactly the candidates past their hold time, each once, oldest first |
| PlannerRails.ConversionTakesTheOldest | internal/planner/planner.go:1077-1085 | a worker is found exactly when one may move, and it is the oldest of those |
| PlannerPhases.ConvertWorkers | internal/planner/planner.go:917-966 | the conversion loop, with refused deficits set aside, terminates and computes its specification |
| PlannerRound.ComputePD | internal/planner/planner.go:780-967 | the phases share one list of actions and two counters, in this order |
| PlannerRound.ComputeAggregated | internal/planner/planner.go:994-1072 | the aggregated loops against their specification |
| PlannerRound.Planner.Plan | internal/planner/planner.go:675-973 | decision, error and remembered state of one round |
| PlannerTheorems.TargetsAddUp | internal/planner/planner.go:780-793 | targets add up to the total, fit the pool, and give both roles a worker from two on |
| PlannerTargets.TargetsAreTheGears | internal/planner/planner.go:740-793 | a round's targets are a third, half or two thirds of the instances it may use, rounded down, with both roles kept from two on; within the cooldown it plans nothing |
| PlannerTargets.ShareIsUnique | internal/planner/planner.go:42-46 | that description fixes the target |
| PlannerTargets.AggregatedTargets | internal/planner/planner.go:994-1005 | the target of an aggregated round, and none within the cooldown |
| PlannerTheorems.RoundGuardRails | internal/planner/planner.go:795-967 | action limit, hold times, every worker converted or given back is the oldest movable one of its role not named before it, one direction of conversion, and no instance named twice without a capacity verb or with a limit of one |
| PlannerTheorems.RoundTakesTheOldest | internal/planner/planner.go:1077-1085 | what that means on the queue of a round: the first worker of its role that no earlier action names |
| PlannerShapes.EveryRoundIsGuarded | internal/planner/planner.go:675-1072 | action limit and hold times in every mode |
| PlannerActions.EveryActionIsShaped | internal/planner/planner.go:675-1072 | which roles and which instance each kind of action names, in every mode |
| PlannerNaming.NamedOnceExactlyWhen | internal/planner/planner.go:611-620 | exactly when no instance is named by two actions |
| PlannerExamples.GivenBackAndEmployed | internal/planner/planner.go:871-901 | a round that names an idle instance twice |
| PlannerTheorems.OneCapacityVerb | internal/planner/planner.go:818-824 | a round asks for or gives back at most one instance |
| PlannerCapacity.AsksExactlyWhen | internal/planner/planner.go:530-594 | an instance is asked for exactly when requests wait, one role is pressured beyond the dead band and the ladder is at its end towards it |
| PlannerCapacity.GivesBackServingExactlyWhen | internal/planner/planner.go:603-659 | a serving worker is given back exactly from a quiet pool without idle instances, and of the less pressured role |
| PlannerNaming.VerbIsIdleRelease | internal/planner/planner.go:603-620 | the idle instance listed first is given back exactly from a quiet pool with room in the round |
| PlannerProgress.FillCount | internal/planner/planner.go:871-901 | how many idle instances are employed, and that they are the first in id order |
| PlannerProgress.ConvertToPrefillCount | internal/planner/planner.go:917-939 | exactly how many decode workers are converted |
| PlannerProgress.ConvertToDecodeCount | internal/planner/planner.go:940-960 | exactly how many prefill workers are converted |
| PlannerSurvival.FreeAfterRound | internal/planner/planner.go:825-967 | how many workers of each role no action names, as a number |
| PlannerSurvival.SurviveWithoutSurplus | internal/planner/planner.go:825-967 | without a surplus both roles keep an untouched worker exactly unless the verb gives back the last |
| PlannerSurplus.DrainsRunDry | internal/planner/planner.go:827-862 | what the surplus drains take from a role: exactly when every movable worker of it, and where the counters end |
| PlannerRoles.SurplusEmptiesExactlyWhen | internal/planner/planner.go:795-967 | with a surplus, exactly when a round names every worker of a role, a worker given back included |
| PlannerRoles.RolesSurviveExactlyWhen | internal/planner/planner.go:795-967 | both roles keep an untouched worker exactly unless one condition on the counts of the round holds for one of them; every round with both roles serving |
| PlannerRoles.RolesSurviveWithoutCapacityActions | internal/planner/planner.go:903-916 | with capacity actions off and no surplus both roles survive |
| PlannerExamples.GivenBackTheLast | internal/planner/planner.go:603-659 | a round that leaves no untouched decode worker |
| PlannerExamples.SurplusTakesTheLast | internal/planner/planner.go:827-862 | a surplus drain that takes the only decode worker |
| PlannerExamples.GivenBackAndDrained | internal/planner/planner.go:603-659 | a worker given back and two surplus drains name both decode workers, with nobody within a hold time |
| PlannerConvergence.RoundClosesGap | internal/planner/planner.go:780-967 | a fixed round in nobody's way plans min(limit, gap) actions, and carrying them out closes the gap by as many |
| PlannerConvergence.GapAfter | internal/planner/planner.go:675-973 | the gap after any number of rounds, exactly |
| PlannerConvergence.ReachesTargetAndRests | internal/planner/planner.go:675-973 | after ceil(gap / limit) rounds the pool is at its target, and then every plan is empty and the clock stands |
| PlannerTargets.RestsAtTheShare | internal/planner/planner.go:780-793 | the pool then holds exactly the share of its gear as prefill workers, and the rest as decode |
| PlannerExamples.PairConverges | internal/planner/planner.go:675-973 | a run that meets the hypotheses of the two rows above |
| PlannerPacing.ChangesAreCooldownApart | internal/planner/planner.go:740-767 | rounds that change something are a cooldown apart, for any clock and any settings in between |
| PlannerPacing.WindowHoldsFewChanges | internal/planner/planner.go:740-767 | a window holds at most window / cooldown + 1 changes |
| PlannerTargets.PlansAgainExactlyAfterCooldown | internal/planner/planner.go:740-745 | after a change a round plans again exactly once the cooldown is over |
| PlannerPacing.OneRung | internal/planner/planner.go:478-513 | the gear moves one rung towards the pressured role, exactly when sample, queue and gap call for it |
| PlannerPacing.StaysOnLadder | internal/planner/planner.go:419-453 | every remembered gear is supported |
| PlannerPacing.GearMovesOneRung | internal/planner/planner.go:751-768 | between rounds the gear in use moves at most one rung, upwards exactly under prefill pressure |
| PlannerTargets.GearOfRound | internal/planner/planner.go:478-513 | the gear of a round: configured, remembered, or one rung from it exactly as the load calls for |
| PlannerTargets.GearFollowsTheLoad | internal/planner/planner.go:746-768 | from one round in auto mode to the next the gear climbs, descends or stays exactly as the load says |
| PlannerPacing.RefusesExactlyWhen | internal/planner/planner.go:689-698 | a valid planner can come to refuse a round exactly when it was built without a supported gear |
| PlannerShapes.AggregatedGuardRails | internal/planner/planner.go:994-1072 | an aggregated round drains queued workers, then assigns idle ones as regular, names nobody twice |
| PlannerShapes.RegularDrainedExactlyWhen | internal/planner/planner.go:995-1041 | exactly when an aggregated round drains a regular worker |
| PlannerShapes.AggregatedProgress | internal/planner/planner.go:994-1072 | without max_serving no regular worker is drained and exactly the needed actions are planned |
| PlannerExamples.SpareDrainsAWorker | internal/planner/planner.go:995-1005 | a pool at max_serving loses a worker to its own spare |
| Bootstrap.SGLangService.EnterStart | bootstrap/tai_talea_bootstrap/service.py:205-222 | a start is refused exactly when busy, or takes a new generation |
| Bootstrap.SGLangService.Spawn | bootstrap/tai_talea_bootstrap/service.py:246-261 | spawning and publishing the child are one section, skipped when cancelled |
| Bootstrap.SGLangService.CheckGrace | bootstrap/tai_talea_bootstrap/service.py:267-277 | the verdict after the grace wait |
| Bootstrap.SGLangService.CompleteStop | bootstrap/tai_talea_bootstrap/service.py:368-393 | the reported exit code does not hide a crash |
| BootstrapRuns.StepKeepsSound | bootstrap/tai_talea_bootstrap/service.py:192-393 | the invariant behind the next rows is kept by every section, poll, death and observation |
| BootstrapRuns.NoChildIsOrphaned | bootstrap/tai_talea_bootstrap/service.py:203-393 | every live child is the one held, at most one lives, STOPPED means none, every spawn is counted |
| BootstrapRuns.StopCancelsEarlierStart | bootstrap/tai_talea_bootstrap/service.py:203-283 | once a stop entered, an earlier start spawns nothing and changes nothing recorded |
| BootstrapRuns.CurrentUntilStopped | bootstrap/tai_talea_bootstrap/service.py:203-283 | a start no stop overtakes keeps its generation |
| BootstrapRuns.AcceptedStartRuns | bootstrap/tai_talea_bootstrap/service.py:267-277 | a start is accepted exactly when its own child runs, is held, and is the only one alive |
| BootstrapRuns.AtRestStartsExactlyWhenNoneAlive | bootstrap/tai_talea_bootstrap/service.py:205-222 | at rest no phase is stuck, and a start is accepted exactly when no child lives |
| BootstrapRuns.StopEndsInOneOfTwoWays | bootstrap/tai_talea_bootstrap/service.py:332-393 | a stop ends STOPPED with none alive, or FAILED with the survivor held |
| BootstrapExits.StopReports | bootstrap/tai_talea_bootstrap/service.py:349-393 | over every run a stop reports 69 exactly when its deadline passed, else 0 for an exit it asked for, else 68 |
| BootstrapExits.NothingToStop | bootstrap/tai_talea_bootstrap/service.py:333-342 | a stop that finds nothing keeps the code of a failed service and reports 0 for any other |
| BootstrapExits.StopWaitsExactlyWhenAlive | bootstrap/tai_talea_bootstrap/service.py:333-344 | a stop waits for a child exactly when one is alive, and for the held one |
| BootstrapExits.FailuresAreReported | bootstrap/tai_talea_bootstrap/service.py:174-283 | which code each failure records, and that an overtaken start records none |
| BootstrapExits.StartEntersExactlyWhen | bootstrap/tai_talea_bootstrap/service.py:205-222 | when a start is let in, and what it clears |
| Lifecycle.ClosedExactlyWhen | internal/controller/lifecycle.go:1494-1517 | closing by recorded id or by URL closes the service URL exactly unless another worker's id is on record |
| DrainController.InstanceController.BeginDrain | internal/controller/lifecycle.go:919-1032 | admission is closed first, and DRAINING is written only if that succeeded |
| DrainController.InstanceController.FinishDrain | internal/controller/lifecycle.go:1044-1225 | a drain waits for known zero load, its deadline or the loss of the container, and ends only on a confirmed stop |
| DrainController.EntersDrainingClosedExactlyWhen | internal/controller/lifecycle.go:956-1005 | exactly when entering DRAINING leaves the service URL closed or absent |
| DrainGrace.ClosingSucceedsExactlyWhen | internal/controller/lifecycle.go:956-1005 | which Router answers closing admission needs |
| DrainGrace.DrainEnters | internal/controller/lifecycle.go:1001-1005 | what entering DRAINING marks, and what it leaves alone |
| DrainGrace.DrainGetsItsGrace | internal/controller/lifecycle.go:943-1070 | a drain leaves its grace, or the deadline of the reclaim, as the deadline; with traffic the wait lasts exactly that long |
| DrainGrace.TrafficGetsTheWholeGrace | internal/controller/lifecycle.go:919-1070 | the same over every run: whatever was written in between, a drain with traffic waits exactly until the deadline the step that began it gave |
| DrainGrace.DeadlineStands | internal/controller/lifecycle.go:907-1225 | as long as a row drains, no writer moves its deadline |
| DrainGrace.DrainEndsWith | internal/controller/lifecycle.go:1130-1190 | what a finished drain leaves: no service, no role, a fresh budget, the queued identity in force or the reclaim still marked |
| DrainProtocol.OpenerKeepsSound | internal/controller/lifecycle.go:170-373 | starts and repairs never open admission of a draining row |
| DrainProtocol.LockFreeKeepsSound | internal/controller/lifecycle.go:907-917 | reclaims, observations, and stale writers of rows that are not DRAINING and name their own worker, neither enter DRAINING nor lose its deadline |
| DrainProtocol.DrainKeepsSound | internal/controller/lifecycle.go:919-1225 | drains, locked rewrites and identity updates keep a draining row closed |
| DrainProtocol.DrainingIsClosed | internal/controller/lifecycle.go:919-1190 | over every run with fresh worker ids, DRAINING means the membership is closed or absent, and has a deadline |
| DrainProtocol.UpdateTakesEffect | internal/controller/events.go:322-385 | what an identity update of a container without a service writes |
| DrainProtocol.LeavesStaleIDExactlyWhen | internal/controller/events.go:378-394 | exactly which identity updates leave the worker id of the old address on record |
| DrainExample.StaleIDMissesTheWorker | internal/controller/events.go:378-394 | a run in which a draining instance is still admitted |
| StartBudget.BudgetController.FailStart | internal/controller/lifecycle.go:717-745 | the failed row and its park, as FailureParks reads it |
| StartBudget.BudgetController.RearmStartBudget | internal/controller/reconcile.go:630-713 | re-armed exactly when spent, parked, due and below the re-arm limit |
| StartBudget.BudgetController.RequeueService | internal/controller/lifecycle.go:817-866 | a fresh budget for a parked service, or no change |
| StartRetries.AssignedExactlyWhen | internal/controller/lifecycle.go:170-216 | when a start is taken, and what it counts |
| StartRetries.DispatchedExactlyWhen | internal/controller/reconcile.go:275-316 | when a retry is dispatched |
| StartRetries.ServedExactlyWhen | internal/controller/lifecycle.go:336-350 | when a worker is declared serving; success restores the budget |
| StartRetries.FailureParks | internal/controller/lifecycle.go:717-745 | a failure is parked exactly if it finds no attempt left |
| StartRetries.RearmedExactlyWhen | internal/controller/reconcile.go:630-690 | when a re-arm is taken, and what it gives back |
| StartRetries.RearmedExactlyAfterCooldown | internal/controller/reconcile.go:630-690 | a start that failed with no attempt left is re-armed exactly from one cooldown on; one with attempts left never |
| StartRetries.ParkedForOneCooldown | internal/controller/reconcile.go:630-690 | the same over every run that leaves the budget alone in between |
| StartRetries.FailureIsRetried | internal/controller/reconcile.go:275-316 | a failure with attempts left is retried instead |
| StartRetries.RequeuedExactlyWhen | internal/controller/lifecycle.go:817-866 | when an operator's requeue is taken, and that it restores the whole budget |
| StartBudget.StepAccounts | internal/controller/lifecycle.go:170-216 | every step from any row: a start by the reconciler or the planner costs one, failures and re-arms nothing, a reset restores everything; what a row outside its limits is forgiven is said exactly |
| StartBudget.StartsAreAccounted | internal/controller/lifecycle.go:170-216 | over every run without a reset: starts, first ones included, plus what remains equal what there was plus what was forgiven |
| StartBudget.KeepsSoundExactlyWhen | internal/controller/rebalance.go:233-248 | a step keeps the counters within their limits exactly unless an unguarded start, as the planner's are, finds the attempts used up |
| StartBudget.WithinLimitsExactlyWhen | internal/controller/rebalance.go:233-248 | a run stays within the limits throughout exactly when no step of it does that |
| StartBudget.SpentBudgetIsOverdrawn | internal/controller/lifecycle.go:116-126 | preparing a lost instance again clears its role but keeps its attempts: a run from there that starts twice on what remained for one |
| StartBudget.StartsAreBudgeted | internal/controller/reconcile.go:275-316 | such a run: starts, the planner's first ones included, plus what remains equal what there was; at most attempts times (re-arms + 1) between resets |
| StartBudget.RearmsAreCooldownApart | internal/controller/reconcile.go:630-690 | two re-arms are a cooldown apart under a monotone clock |
| PullGrace.Puller.PullAuthoritative | internal/controller/pull_reconcile.go:19-165 | events, clocks and verdict of a round, completed or not |
| PullRules.WantedExactlyWhen | internal/controller/pull_reconcile.go:93-134 | which offers add, which update, and which are left alone |
| PullRules.AbsenceRule | internal/controller/pull_reconcile.go:140-158 | what one absence does to a clock, and when it revokes |
| PullRules.EmittedExactlyWhen | internal/controller/pull_reconcile.go:58-165 | the events of a completed round are those its offers and absences call for, and no others |
| PullRuns.CompletedRoundPointwise | internal/controller/pull_reconcile.go:93-165 | a completed round treats each instance by itself: seen forgives, missed starts, waits or revokes |
| PullRuns.RoundOn | internal/controller/pull_reconcile.go:93-165 | what a round that may end early does to one instance |
| PullRuns.RevokedOutlastsGrace | internal/controller/pull_reconcile.go:136-165 | a revocation follows an earlier miss at least the grace before, with no offer reached in between |
| PullRules.RevokedOnceTheGraceIsOver | internal/controller/pull_reconcile.go:136-165 | over every run an absent instance is revoked by the first round a grace after it was first missed |
| PullRuns.PresentIsSeenOrHidden | internal/controller/pull_reconcile.go:58-134 | an offer of a snapshot is either reached or hidden by how the round ends |
| PullRuns.CompletedHidesNothing | internal/controller/pull_reconcile.go:93-134 | a round that gets as far as its absence sweep hides nothing |
| PullRuns.RevokedWasAbsentExactlyWhen | internal/controller/pull_reconcile.go:58-165 | a revoked instance was in no snapshot of its partner for the grace exactly when no round over a grace that ends there hid an offer of it |
| PullRuns.RevokedWasAbsentThroughout | internal/controller/pull_reconcile.go:136-165 | when no round of the partner hides an offer of it, the instance was in none of the snapshots for the grace |
| PullRuns.AbortedRoundHidesAnOffer | internal/controller/pull_reconcile.go:58-101 | two revocations before the grace is over: after a round that ended at a refused event, and after one that ended at a collision |
| Events.MatchesExactlySameIntent | internal/controller/events.go:138-162 | a redelivery matches exactly when it differs in timestamps only |
| Events.EventStore.ClaimEvent | internal/store/sqlite.go:172-206 | the first claim of an id wins and nothing is overwritten |
| Events.EventStore.HandleCapacityEvent | internal/controller/events.go:23-136 | the handler is asked exactly for a valid new id of the partner's own instance; the answer and record of every case, failed writes included |
| EventRuns.FinalMeansFinal | internal/controller/events.go:23-136 | an id keeps its payload; once not pending its record never changes and its handler is never entered |
| EventRuns.OnlyTheFirstPayloadRuns | internal/controller/event_recovery.go:47-75 | deliveries and recovery execute the payload first recorded |
| EventRuns.SettledExactlyWhen | internal/controller/events.go:119-136 | a reported result is recorded and answered, or the event stays pending, exactly by how the handler and the write ended |
| EventRuns.AnswersAgree | internal/controller/events.go:47-72 | an answer agrees with the record when it is given |
| EventRuns.FinalAnswersStayTrue | internal/controller/events.go:47-72 | a final answer names the result the event has at the end of every run |
| EventRecovery.RecoveryScan.ResumePendingEvents | internal/controller/event_recovery.go:30-52 | the events one pass visits and the cursor it leaves, wrap-around included |
| EventRecovery.PassMoves | internal/store/sqlite.go:288-298 | a pass visits the next 32 events and stands behind them |
| EventRecovery.NothingStarves | internal/controller/event_recovery.go:30-52 | ceil(n/32) + 1 passes visit all of n pending events from any cursor |
| EventRecovery.OnePassFewerStarves | internal/controller/event_recovery.go:30-52 | one pass fewer is not enough |
| Provision.ProvisionTracker.Update | internal/api/provision.go:172-206 | state and stage of a job and its row, but a cancelled job is never overwritten |
| Provision.ProvisionTracker.Hold | internal/api/provision.go:214-234 | a held job keeps its last cause, and a cancelled one is left alone |
| Provision.ProvisionTracker.Cancel | internal/api/provision.go:236-251 | only an outstanding job is cancelled |
| Provision.ProvisionTracker.Rename | internal/api/provision.go:257-287 | moves one job and its handle, clobbers none, loses none |
| ProvisionRuns.StepKeepsSound | internal/api/provision.go:561-840 | every name the job may still submit is taken, or is its current name with nothing created |
| ProvisionRuns.AtMostOneContainer | internal/api/provision.go:598-840 | one job creates at most one container over any crashes, restarts and lost writes, a lost write of its key repaired by a later one included, and its key names that one |
| ProvisionRuns.FiveNames | internal/api/provision.go:611-631 | a job goes by its own name and four more, in order, and by no other |

## Left out

What the model takes for granted or abstracts:

- Times are natural numbers with 0 for the zero instant; the RFC3339 text order of stored times is not modelled, and the event key is any strict total order.
- Planner ids are integers, gears are exact fractions and pressures reals; the rounding of `float64` in the target is not modelled.
- Notes, reasons, audit rows, metrics, alerts and log lines carry no decision and are left out.
- `sort.Slice` is a stable insertion sort; the order of equal keys is therefore fixed here, which matters only for repeated ids.
- DrainProtocol.DrainingIsClosed: assumes the Router derives a worker id from its URL, only this controller opens admission, and a Router call acts when it is made or never.
- DrainProtocol.LockFreeKeepsSound: writers without the lock other than reclaims and observations are one step that writes any row that is not DRAINING and whose worker id fits its address.
- DrainController.InstanceController.BeginDrain: handing back a container that runs no service is another operation and not part of it.
- DrainGrace.TrafficGetsTheWholeGrace: the load probe and the partner's list are inputs of the step that finishes the drain.
- StartBudget.StartsAreBudgeted: speaks of runs in which no unguarded start finds the attempts used up; a retry whose guard was read before another start of the instance is an unguarded start.
- PlannerConvergence.RoundClosesGap: states the case of a pool of at least two in fixed mode with nothing held, capped or left over; what limits any other round is counted by PlannerProgress and PlannerSurvival.
- BootstrapRuns.NoChildIsOrphaned: process-group inspection is a liveness that never returns once lost, and that may answer "alive" when it cannot read the process table; a non-numeric stop timeout, which the control server refuses, is not modelled.
- Bootstrap.SGLangService.EnterStart: role, model, port, command, timestamps and the phase history are not part of the state.
- PullGrace.Puller.PullAuthoritative: whether the control plane refuses an event is an input of the round; event ids, the audit row and the commit of the snapshot version are left out.
- EventRuns.FinalMeansFinal: event validation is an input of each delivery, and handlers are a step that reports any result.
- EventRecovery.NothingStarves: passes that run out of their time budget are not modelled.
- ProvisionRuns.AtMostOneContainer: assumes the platform never frees a taken name and says "in use" only of a name that was taken before the call; releasing an abandoned container is left out.
- Events.EventStore.HandleCapacityEvent: a failed read of the stored event or instance answers an error and changes nothing further; it is not a case here.
- The HTTP clients and servers, SQL text, migrations, JSON and time encoding, configuration and event validation, the replay cache, alert de-duplication, telemetry averaging, and the cryptography of credentials and signatures would add easy members only.
- SSH installation, wheelhouse tooling, the self-provisioning path and the vendor adapters rest on code outside the modelled files.
