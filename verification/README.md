# A verified model of the Memgraph operator's decision core

The operator drives a Memgraph high-availability cluster on Kubernetes. Each reconcile pass reads a
view that may lag, decides, and issues a few effects against three machines it does not control: the
Memgraph cluster, the StatefulSets with their pods, and the claims. Those machines move on their own,
refuse commands, lose answers and come back late. This project models what a pass decides and proves
what that means over whole runs.

`dafny verify dfyconfig.toml` checks all of it.

## How it is laid out

| layer | modules |
|---|---|
| registration planner and its execution | `Planner`, `PlanExactly`, `PlannerMeaning`, `Cluster`, `PlannerSafety`, `Convergence`, `RepeatedPasses`, `Replication`, `HandoverLoss`, `LeaderView`, `Memgraph`, `Resources` |
| replica counts under a stale cache | `Expectations`, `Replicas`, `Retirement`, `StaleCache`, `LostShed` |
| rolling restart | `Rollout`, `Observation`, `Roll`, `RollCompletion`, `MainRestart`, `LostWrites`, `Flags`, `Exemption` |
| storage expansion | `Volumes`, `Expansion` |
| settings and status | `Settings`, `RuntimeSettings`, `SettingsPass`, `Readiness` |
| shared | `Text`, `Decimal` |

Code that loops or changes state is a method proved against a function of its inputs or of the old
state; what the source promises is proved about those functions as lemmas, and beside each there is one
that says what it comes to in the fields it reads. A protocol is a state
machine with a `Step` relation, a `Run` over any number of steps, and lemmas about every state of
every run. The cluster's rules, those of the controller's own fake in
`internal/controller/fake_memgraph_test.go`, are `Cluster.Effect`; an environment chooses refusals,
lost answers and the winner of every election.

`Rollout.Next` is ghost: which MAIN, or leader, the source picks out of a map that names several
depends on the iteration order, and the model leaves that choice open. `Rollout.NextFor` is the
decision for a choice, and the methods compute it for the one their scans find.

## Assumptions

- A view has unique, non-empty names, at most one MAIN, and exactly one leader, which is a Raft member
  or the row of a fresh coordinator that only reports itself. Every coordinator row is that leader or a
  follower and none is MAIN; no data row is leader or follower; a coordinator row without an address is
  the leader that only reports itself (`PlannerMeaning.ValidRows`). A view that names a leader is that
  leader's.
- There is at least one declared coordinator and one declared data instance; that declared and retiring
  names are disjoint is proved.
- The operator is the only writer of StatefulSet specs, and a cache only moves forward.
- Declared counts change between passes and while the cache shows the newest write.
- During a roll the target revisions are fixed, each pass reads the pods as they are, and a pod goes
  down only by the operator's delete. A status that says it describes a generation names that
  generation's revision.
- Claims are read as they are; the StatefulSet beside them may be read long after it was replaced.
  Sizes only grow, and a role's claim templates stay the same set.
- The coordinators promote a reachable instance that no other reachable one is ahead of in one
  database and behind in none. Where two are each ahead in another database they may promote either.
- Nothing commits between the lag read and the demotion, or the delete of the MAIN's pod; where a restart
  is read off the lag view, the view has a row for every reachable instance.
- A digest of a flag value is neither empty nor broken over lines; flag keys are not empty and hold no
  `=` and no line break.
- Each pass reads the status last written.

## Where the code does less than its comments say

Each of these is proved as an exact condition, and the code is modelled as it is.

1. *Caught up is not everything.* `IsCaughtUp` looks at the databases a replica lists, so a replica
   that lacks one of the MAIN's databases is reported caught up (`Replication.CaughtUpWithoutADatabase`).
   A handover keeps everything the MAIN committed if and only if the instance that takes over has every
   database the MAIN wrote to (`Replication.HandoverLosesNothing`), and one can be carried out that does
   not (`HandoverLoss.HandoverCanLoseAWrite`). A restart of the MAIN keeps everything if and only if one
   reachable survivor's row lists every database the MAIN committed to, none behind
   (`MainRestart.RestartingMainLosesNothing`). Otherwise a write can be lost, even with each database held
   by some survivor (`LostWrites.RestartingMainCanLoseAWrite`,
   `LostWrites.RestartingMainCanLoseACoveredWrite`).
2. *A shrink whose answer is lost is expected of nobody.* The expectation is recorded after the apply
   answers. Every pass that acts counts what a fresh cache would have it count if and only if, after every
   shrink whose answer was lost, the cache has caught up by the time the next pass acts
   (`StaleCache.StaleCacheWritesFresh`). Otherwise that pass raises the count again; and since nothing is
   expected of the raise either, a later pass on the shrunken copy lowers the count by a plain apply,
   although shedding is meant to be the one place that does (`StaleCache.OnlyShedsLower`,
   `LostShed.LostShedIsUndoneAndRedone`).
3. *The last ordinal wraps.* `runningOrdinals` adds one to an int32, so a pod at ordinal 2147483647 is
   not counted (`Replicas.RunningCountCovers`). A StatefulSet that starts at ordinal 0 never runs such a
   pod; only a pod named by hand can be one.
4. *Two plans, or three.* Repeated passes settle in two plans unless a retiring MAIN that nobody could
   take over from in any of them gains a candidate later; its handover is then the third plan and the last
   (`Convergence.ConvergesInTwo`, `RepeatedPasses.AtMostThreePlans`), and three plans do happen
   (`RepeatedPasses.ThreePlansHappen`). With the lag view unchanged two are enough
   (`RepeatedPasses.AtMostTwoPlans`).
5. *A recreate can be undone by a stale read.* A pass that finds a claim to patch while it still reads
   a StatefulSet that is already gone goes on to apply the old template sizes, and one more recreate
   follows (`Expansion.OldSizesNeedAStaleRead`, `Expansion.OneRecreatePerGrowth`); `Expansion.RecreatedTwice`
   is a run with two recreates for one growth.
6. *A SET that lands without its answer* leaves the pass's read behind the instance for the rest of the
   pass, and only that does (`SettingsPass.ReadStaysCurrent`).
7. *Ready does not always follow.* In a cluster that served when last observed, a pass that reaches no
   verdict is to let Ready follow the other conditions. A Ready copied from Updated or Converged with a
   reason that is also a serving reason is kept instead: WorkloadsNotReady, set while a roll waits for a
   pod (`internal/controller/memgraphdbcluster_controller.go:1476`), stays over the expansion set at :298,
   and so does ApplyFailed, set for an exposure the cluster cannot serve
   (`Readiness.ReadyFollowsExactly`, `Readiness.ReadyCanStaySet`). Ready=True is honest all the same
   (`Readiness.ReadyIsHonest`), but can outlive a verdict whose status was not written
   (`Readiness.TrueIsBackedOnceWritten`, `Readiness.TrueOutlivesAnUnwrittenVerdict`).

## Model

| member | source | states |
|---|---|---|
| Planner.Plan | internal/planner/planner.go:349-435 | The loops over the declared members, the handover and the departures build exactly the commands, in order, that the situation read off the view needs: a list defined job by job, independently of the loops |
| Planner.FindMain | internal/planner/planner.go:354-364 | Which retiring instance holds MAIN, and whether a staying one does |
| Planner.CollectCandidates | internal/planner/planner.go:580-600 | The candidates for a handover in the order of the declared instances: those reachable and caught up |
| Planner.Registrations | internal/planner/planner.go:376-388 | The additions and registrations of members that are missing, and of no other |
| Planner.BoltServerUpdates | internal/planner/planner.go:445-460 | Only a member announced at another, reported address is re-announced |
| Planner.PlanDepartures | internal/planner/planner.go:405-434 | Unregistrations of every retiring instance that may leave, removals of retiring coordinators that do not lead, then the yield |
| Planner.PlanRemovals | internal/planner/planner.go:417-434 | The removals of retiring coordinators but the leader, and whether the leader is one of them |
| Planner.Registered | internal/planner/planner.go:503-517 | The number of the declared members the view has registered, of each role |
| Planner.SelectHolds | internal/planner/planner.go:349-435 | A plan holds exactly the jobs that are needed |
| PlanExactly.PlanHoldsExactly | internal/planner/planner.go:349-435 | Which commands a plan holds, said of the declared members, the fields of the rows and the lag rows alone: each other command exactly when it is wanted; and a promotion exactly when there is no MAIN or a retiring MAIN has somebody to take over, of all who may take over in declared order with the retiring MAIN to restore, or of the first choice with nobody to restore |
| PlanExactly.PromotesTheFirstUp | internal/planner/planner.go:602-616 | With no MAIN in the view the plan promotes, once, the first declared instance that is up or, when none is, the first declared one |
| PlanExactly.PlanIsOrdered | internal/planner/planner.go:349-435 | Additions, registrations, address updates, demotion, promotion, unregistrations, removals and the yield come in that order, each kind in declared order and the single ones once at most |
| PlanExactly.RetiredExactly | internal/planner/planner.go:483-496 | A retirement is over exactly when no retiring instance has a row and no retiring coordinator one with an address |
| PlannerMeaning.SituationReads | internal/planner/planner.go:354-396 | What the planner reads off a view means what it should: MAIN and leader are the ones reported, a candidate is a declared, reachable, caught-up instance, and a handover is planned exactly when a retiring instance is MAIN and there is one |
| PlannerMeaning.PlanIgnoresRowOrder | internal/planner/planner.go:349-435 | A view listed in another order gives the same plan |
| PlannerMeaning.EmptyPlanMeans | internal/planner/planner.go:349-435 | A plan is empty if and only if every declared member is registered at its declared (or, for data, unreported) address, there is a MAIN, no retiring coordinator is a member or leads, and a retiring data instance still registered is a MAIN without candidates |
| PlannerMeaning.EmptyPlanRetired | internal/planner/planner.go:483-496 | An empty plan has finished the retirement if and only if no retiring instance is MAIN; if it has not, that blocked MAIN is the one retiring member left |
| PlannerMeaning.NeverRacesAFailover | internal/rollout/rollout.go:45-50 | With all declared members in place and nothing retiring, the plan is empty if and only if some instance is reported as MAIN, whatever the health of any row and whatever the lag view says |
| Resources.TopologiesAreValid | internal/resources/topology.go:105-137 | Every topology derived from positive counts is one the planner can rely on: members distinct across declared and retiring, coordinators and data, with names and addresses that are not empty |
| Resources.DeclaredTopology | internal/resources/topology.go:105-137 | The declared members by ordinal, each at its own addresses, and the retiring ones |
| Resources.TopologyExactly | internal/resources/topology.go:105-276 | Every member of a topology by its ordinal, the retiring ones after the declared ones: its name, and each of its addresses on its own pod at its own port, but for the external one a declared member is announced at |
| Resources.PodsShareNoAddress | internal/resources/topology.go:236-276 | No two pods of a role share an address, at whatever ports |
| Resources.RolesShareNoAddress | internal/resources/topology.go:236-276 | Nor does a coordinator pod share one with a data pod |
| Resources.RetiringCoordinators | internal/resources/topology.go:190-206 | The coordinators of the ordinals from the declared count up to the applied one |
| Resources.RetiringDataInstances | internal/resources/topology.go:214-230 | The data instances of the ordinals from the declared count up to the applied one |
| Resources.InstanceNamesAreInjective | internal/resources/topology.go:61-63 | Different data ordinals give different instance names |
| Resources.RolesNeverShareAName | internal/resources/topology.go:55-63 | No coordinator shares its name with a data instance |
| Resources.PodOrdinalExactly | internal/controller/memgraphdbcluster_controller.go:928-938 | Printing and parsing a pod ordinal are inverses: for every int32 ordinal, the names accepted are exactly the names the StatefulSet prints |
| Decimal.ParseOfFormat | internal/controller/memgraphdbcluster_controller.go:933-936 | A printed ordinal parses back exactly when it fits an int32 |
| Decimal.PrintsInTens | internal/controller/memgraphdbcluster_controller.go:933-936 | A number prints as all but its last decimal digit, then that digit |
| Decimal.SignedParse | internal/controller/memgraphdbcluster_controller.go:933-936 | A number with a sign in front is read with it, exactly when it fits an int32 |
| Decimal.LastHyphenSplit | internal/volumes/volumes.go:236-246 | A name ending in a hyphen and a printed number splits in one way only |
| Cluster.CallsKeepTheRules | internal/controller/fake_memgraph_test.go:413-598 | Whatever call the cluster accepts, it never has a second MAIN or a second leader; a MAIN comes only from a promotion while there is none and goes only by a demotion, a leader comes only from a yield to a follower |
| Cluster.YieldKeepsTheRules | internal/controller/fake_memgraph_test.go:413-598 | After a yield the winner alone leads, and MAIN is where it was |
| Cluster.RunSetInstanceToMain | internal/planner/planner.go:182-213 | The candidates are promoted in order until one is accepted; when all are refused the demoted MAIN is restored; an error is reported unless a candidate took over |
| Cluster.RunCommand | internal/planner/planner.go:96-302 | Each command issues its one statement |
| Cluster.IssuedExactly | internal/controller/fake_memgraph_test.go:413-598 | A call changes the rows as the rules say unless the rules or anything else refuse it, and is acknowledged only when neither that nor a lost answer is in the way |
| Cluster.CommandIssues | internal/planner/planner.go:96-302 | Every command but the promotion is one call, the one of its name for what it names, and succeeds exactly when that is acknowledged |
| Cluster.PromotionSucceeds | internal/planner/planner.go:182-213 | A promotion succeeds exactly when some candidate is acknowledged, and tries no further; otherwise all were tried, then the restore, and it has failed whatever becomes of that |
| Cluster.ExecutePlan | internal/controller/memgraphdbcluster_controller.go:1527-1536 | The commands run in order until the first error, and leave exactly the state and log of running that prefix |
| Cluster.StopsAtTheFirstError | internal/controller/memgraphdbcluster_controller.go:1527-1536 | A plan runs up to the first command that fails, and the rest of it is never issued |
| Cluster.RunAllConcat | internal/controller/memgraphdbcluster_controller.go:1527-1536 | Running two lists one after the other is running the second where the first ended, or not at all when it failed |
| PlannerSafety.PlansRunSafely | internal/planner/planner.go:349-435 | Whatever the cluster refuses and whichever answers are lost: a plan never unregisters the MAIN of that moment, never removes the leader of that moment, never makes a second MAIN, and leaves a cluster that had a MAIN without one only when a demotion landed and no promotion did |
| PlannerSafety.PromotionRuns | internal/planner/planner.go:182-213 | Promotions with fallbacks: at most one lands, and all were tried if none did |
| PlannerSafety.RestoreIsLastInChain | internal/planner/planner.go:195-213 | Restoring the demoted MAIN is one more promotion after the candidates |
| Convergence.OnePass | internal/planner/planner.go:349-435 | With refusals only by the cluster's own rules, no planned command is refused, and the pass leaves the declared members in place with a MAIN and no retiring coordinator leading |
| Convergence.YieldElectsAStayer | internal/planner/planner.go:417-434 | A yield is never won by a retiring coordinator, because the others left earlier in the same plan, whoever is elected |
| Convergence.ConvergesInTwo | internal/planner/planner.go:349-435 | The third plan is empty if and only if no MAIN was blocked in both earlier passes and has a candidate now |
| Convergence.ConvergesInThree | internal/planner/planner.go:349-435 | The late handover is the last plan there is |
| RepeatedPasses.AtMostThreePlans | internal/planner/planner.go:349-435 | Over a chain of any number of passes: no planned command is refused; from the third pass on a plan is non-empty if and only if some MAIN was blocked in every earlier pass and is not now; and that happens at most once |
| RepeatedPasses.AtMostTwoPlans | internal/planner/planner.go:349-435 | While the lag view stays as it was in the second pass, only the first two plans of the chain hold any command |
| RepeatedPasses.ThreePlansHappen | internal/planner/planner.go:389-434 | Every topology that retires a coordinator and a data instance has a chain of three passes whose plans are all non-empty |
| RepeatedPasses.PlanHealth | internal/planner/planner.go:96-302 | A plan that creates no row under a name leaves its health as it was, or removes it; one that does leaves it up |
| Convergence.FreshViewIsValid | internal/controller/memgraphdbcluster_controller.go:2693-2699 | The view a fresh coordinator serves, itself alone and leading, meets everything the planner's lemmas assume of a view |
| Convergence.OnePassBootstraps | internal/planner/planner.go:376-404 | From a fresh coordinator alone, one pass nobody refuses registers every declared member and elects a MAIN, and the next plan is empty |
| Convergence.HandoverWorks | internal/planner/planner.go:389-396 | A demotion and the promotion after it are not refused, change nothing but the data instances' roles, and leave a MAIN |
| Memgraph.ReplicationLagFromRecord | internal/memgraph/bolt.go:334-370 | A record is read if and only if it names its instance and carries both counters of every database; and then each database is listed with the committed count and the count behind that its own entry carries |
| Memgraph.CaughtUpAsRecorded | internal/memgraph/client.go:142-152 | A row read off a record says caught up if and only if the record lists a database and no entry is behind |
| Memgraph.RowReads | internal/memgraph/client.go:59-75 | A row leads, is MAIN or is up exactly when its field spells so, in letters of either case; and no row is two of them |
| Memgraph.IndexReadsTheLast | internal/planner/planner.go:529-536 | Of the rows of one name the last counts |
| Memgraph.IndexLagReadsTheLast | internal/planner/planner.go:540-547 | And so of the lag rows |
| Memgraph.IndexOfUniqueNames | internal/planner/planner.go:529-536 | With unique names the index has each row under its name |
| Replication.CaughtUpHolds | internal/memgraph/client.go:142-152 | A caught-up row proves its instance holds everything the MAIN committed if and only if the instance has every database the MAIN wrote to |
| Replication.CaughtUpWithoutADatabase | internal/memgraph/client.go:142-152 | A replica without one of the MAIN's databases is reported caught up |
| Replication.HandoverLosesNothing | internal/planner/planner.go:389-396 | Whichever instance an executed handover leaves as MAIN is a candidate or the restored MAIN, and holds everything the old MAIN had committed if and only if it has every database the old MAIN wrote to |
| HandoverLoss.HandoverCanLoseAWrite | internal/planner/planner.go:389-396 | In every topology that retires an instance, a view, a lag and data for which the handover is planned, every command is accepted, and the new MAIN is without a write |
| Replication.UnknownIsNoCandidate | internal/planner/planner.go:580-600 | An instance the lag view does not list, or lists without a database, is never a candidate |
| Replication.FailoverLosesNothing | internal/rollout/rollout.go:266-289 | An instance no reachable one is ahead of holds everything the MAIN had committed if and only if some one reachable instance does |
| Replication.SomebodyMayBePromoted | internal/rollout/rollout.go:266-270 | Wherever an instance can be reached there is one no reachable instance is ahead of, and it is no further behind than the one given |
| Replication.LeaderHoldsWhatIsCovered | internal/rollout/rollout.go:266-270 | Where one instance is at least as current as every other in every database, it holds everything if and only if each database is held by some reachable instance |
| Replication.FailoverAsListed | internal/rollout/rollout.go:266-289 | The same on the lag view: if and only if the row of one reachable instance lists every database the MAIN committed to, none behind |
| LeaderView.ObserveCluster | internal/controller/memgraphdbcluster_controller.go:2704-2750 | The first coordinator that leads, or names a leader that can be reached, decides; without one, no leader is reported exactly when some coordinator answered without one |
| LeaderView.TriedExactly | internal/controller/memgraphdbcluster_controller.go:2704-2800 | A coordinator can be used exactly when it answers and leads itself, or names a leader that can be dialled where it is reached: at its pod, or else at the first address the view announces it at; and it is leaderless exactly when it answers and names nobody |
| LeaderView.PlansOnTheLeadersView | internal/controller/memgraphdbcluster_controller.go:2683-2703 | What is found is the leader's own view, and the connection is to the leader; a leader that answers is found |
| Expectations.StatefulSets.Expect | internal/expectations/expectations.go:65-71 | Records the write, over any earlier one of that name, and nothing else |
| Expectations.StatefulSets.Satisfied | internal/expectations/expectations.go:77-91 | True exactly when nothing is expected or the cached copy is gone, another object, or at least as new; a satisfied expectation is forgotten and nothing else changes |
| Expectations.TrustedFromTheWriteOn | internal/expectations/expectations.go:65-91 | Over any number of looks at a cache that only moves forward: after a write is expected, a look is trusted if and only if it shows that write or a later one, and the expectation is recorded until then and gone afterwards |
| Replicas.RunningOrdinals | internal/controller/memgraphdbcluster_controller.go:908-925 | One past the highest ordinal among the pods, with int32 addition |
| Replicas.RunningCountCovers | internal/controller/memgraphdbcluster_controller.go:903-925 | That count is above every pod's ordinal if and only if no pod has the last ordinal an int32 holds |
| Replicas.ResolveRole | internal/controller/memgraphdbcluster_controller.go:866-898 | The count applied is the larger of the declared one and the one the previous apply left; the role is unseen exactly when the cache is not trusted |
| Replicas.RecreateKeepsEveryPod | internal/controller/memgraphdbcluster_controller.go:882-898 | Re-applying a StatefulSet that is gone keeps every pod it left behind if and only if none is at the last ordinal an int32 holds, or the declared count is above that |
| Retirement.NoRegisteredPodIsShed | internal/controller/memgraphdbcluster_controller.go:2367-2406 | In every state of every run, with refusals, lost answers, crashes, restarts, failovers and elections anywhere, the ordinal of every registered member is below its role's newest replica count |
| Retirement.RunsKeepInv | internal/controller/memgraphdbcluster_controller.go:1402-1424 | The invariant that carries it: counts cover members and whatever a running pass is about to register or shed |
| Retirement.StepKeepsInv | internal/controller/memgraphdbcluster_controller.go:1335-1540 | Every single step of a pass, of the cluster and of the cache keeps it |
| Retirement.CommandAdds | internal/planner/planner.go:96-302 | A command makes a member of nobody but the declared one it names |
| StaleCache.StaleCacheWritesFresh | internal/controller/memgraphdbcluster_controller.go:863-898 | Over every run and for either role, operator restarts included: every pass that acts counts exactly what a perfectly fresh cache would have it count, if and only if after every shrink whose answer was lost the cache has caught up by the time the next pass acts |
| StaleCache.OnlyShedsLower | internal/controller/memgraphdbcluster_controller.go:2367-2371 | In such a run a role's newest count is lowered by the shedding of that role and by nothing else |
| LostShed.LostShedIsUndoneAndRedone | internal/controller/memgraphdbcluster_controller.go:2390-2398 | However far a data count is to be lowered, some run from the start loses the shrink's answer, raises the count again in the next pass, and lowers it in a later pass that only applies |
| StaleCache.CountIsFresh | internal/controller/memgraphdbcluster_controller.go:870-898 | A pass that acts on what it read counts the fresh count |
| Rollout.Outdated | internal/rollout/rollout.go:383-394 | The pods still to restart: labelled, not on the revision, not exempted; none while the role has no revision |
| Rollout.Updated | internal/rollout/rollout.go:399-410 | The pods on the revision or exempted |
| Rollout.HighestOrdinalExcept | internal/rollout/rollout.go:423-435 | The first pod of the highest ordinal off the named instance; none exactly when every pod is on it |
| Rollout.HighestIsFirst | internal/rollout/rollout.go:423-435 | Of several pods of that ordinal it is the first |
| Rollout.NextRestart | internal/rollout/rollout.go:180-217 | The decision its early returns and loops come to is the one the gates describe, for an instance reported as MAIN and one reported as leader, whichever the maps' order picks; with one of each at most, it is the decision |
| Rollout.DecisionReads | internal/rollout/rollout.go:180-323 | The whole decision said of the fields of pods, rows and lag rows: done, which pod goes, or what the wait is for and called |
| Rollout.RestartDataInstance | internal/rollout/rollout.go:223-289 | The data step, with its scans for the MAIN, the restarted pods and the survivors, for whichever reported MAIN is found first |
| Rollout.RestartCoordinator | internal/rollout/rollout.go:294-318 | The coordinator step, with its scans for the leader and the restarted coordinators, for whichever reported leader is found first |
| Rollout.DataRestarts | internal/rollout/rollout.go:180-289 | While a data pod is outdated, a pod goes if and only if no status is stale, every data pod is present, there is a MAIN and the step is safe; it is the highest ordinal off the MAIN, or the MAIN's with nothing else left; and the roll is not done |
| Rollout.CoordinatorRestarts | internal/rollout/rollout.go:204-318 | With no data pod outdated, a coordinator goes if and only if every pod of both roles is present, there is a leader and every restarted coordinator is reachable; the leader last; Done exactly when none is outdated |
| Rollout.DataInstanceRestarts | internal/rollout/rollout.go:223-289 | The data role's step alone: when it deletes, and which pod |
| Rollout.CoordinatorsRestart | internal/rollout/rollout.go:294-318 | The coordinator role's step alone: when it deletes, and which pod |
| Observation.ObserveRolloutRole | internal/controller/memgraphdbcluster_controller.go:1214-1266 | The pods below the applied count by their ordinal's name, a missing one left out and a deleted one not ready, measured against the status unless it is stale |
| Observation.RoleReadsExactly | internal/controller/memgraphdbcluster_controller.go:1214-1266 | The role as read: each pod, in ordinal order, field by field off the object of its ordinal, none left out; the status's revision; and stale exactly when the cache or the status is behind |
| Observation.NamedExactly | internal/controller/memgraphdbcluster_controller.go:1240-1252 | The object of an ordinal is the last listed one of the name the StatefulSet prints for it |
| Observation.PresentExactly | internal/rollout/rollout.go:363-376 | Present says that below the count every pod exists and is ready |
| Observation.WorkloadsReady | internal/controller/memgraphdbcluster_controller.go:2646-2676 | True if and only if both StatefulSets exist and each has as many ready replicas as were applied, or one fewer while it has all its replicas and some labelled pod is neither on the revision nor exempted; so never for a role that is short of replicas |
| Observation.StatusLagKeepsTheOrder | internal/controller/memgraphdbcluster_controller.go:1234-1237 | However far either status trails its template, a coordinator pod goes only when every data pod exists, is ready and is on the data template this pass applied, exempted, or without a revision label |
| Roll.RollIsSafe | internal/rollout/rollout.go:180-323 | In every state of every roll, wherever MAIN and leadership move between passes: at most one pod of both roles is down, every delete was of a different pod outdated when the roll began, no coordinator before the last data pod, and the MAIN's and the leader's pod last in its role, so once at most |
| Roll.DoneMeansDone | internal/rollout/rollout.go:204-206 | A pass reports Done only when every pod that was outdated has been restarted |
| Roll.RollFinishes | internal/rollout/rollout.go:180-323 | Once as many healed passes landed a delete as there were outdated pods, exactly those pods were deleted, once each, and a healed pass reports Done |
| RollCompletion.EveryRollCanFinish | internal/rollout/rollout.go:180-323 | From wherever a run has come, some continuation restarts every pod that is left, each by a healed pass, and ends in a pass that reports Done |
| RollCompletion.AnOutdatedRollFinishes | internal/rollout/rollout.go:180-323 | A run that starts with every pod of both roles outdated and has as many healed passes as there are pods |
| Roll.StepKeepsInv | internal/rollout/rollout.go:180-323 | Every step of a roll, operator's or environment's, keeps the invariant behind it |
| Roll.DeleteMayRestart | internal/rollout/rollout.go:223-318 | What holds of the world whenever a pass deletes: the pod is there and needs it, everything else is up, and a held instance is the last of its role |
| Roll.HealedPassIsDone | internal/rollout/rollout.go:180-206 | In a healed cluster a pass deletes exactly while something is left to restart |
| MainRestart.RestartingMainLosesNothing | internal/rollout/rollout.go:266-289 | Whoever the coordinators may promote when the roll restarts the MAIN holds everything the MAIN had committed if and only if the row of one reachable survivor lists every database it committed to, none behind; otherwise every survivor the decision could rely on is without some database |
| LostWrites.RestartingMainCanLoseAWrite | internal/rollout/rollout.go:266-289 | A decision that deletes the MAIN's pod although its one survivor is without a database, and the write to it that is lost |
| LostWrites.RestartingMainCanLoseACoveredWrite | internal/rollout/rollout.go:266-289 | A decision that deletes it with each database listed by one of two survivors, none behind; either may be promoted, and either loses a write |
| MainRestart.OneSurvivorIsEnough | internal/rollout/rollout.go:271-289 | With one reachable, caught-up survivor, the MAIN's pod goes whatever any other instance reports |
| Volumes.Decide | internal/volumes/volumes.go:161-197 | The loop over the claims in name order gives the decision the claims one by one add up to |
| Volumes.DecidedExactly | internal/volumes/volumes.go:161-197 | The patches are exactly the bound claims under-asking for their template, each to the desired size, in name order; a recreate is decided exactly when the StatefulSet exists, one of its templates is to grow and no claim is left to patch |
| Volumes.ReportsNameTheClaims | internal/volumes/volumes.go:155-197 | What is reported, claim by claim in name order: those asked to grow or still growing, by their name and the pod that mounts them, those given up on with the provider's words, and the errors of those still growing |
| Volumes.QuietExactly | internal/volumes/volumes.go:155-192 | Nothing is growing and nothing failed exactly when every claim holds what it should, or waits only for a pod to mount it |
| Volumes.KeepLiveSizes | internal/volumes/volumes.go:225-236 | In place: every template the live StatefulSet has gets the live size, every other keeps its own |
| Volumes.TemplateSizesExactly | internal/volumes/volumes.go:212-219 | Of the templates of one name the last counts |
| Volumes.Observe | internal/volumes/volumes.go:241-280 | A claim is read as a StatefulSet's if and only if it is named as one of its templates names it at an int32 ordinal; there is only one way to read it, and its resize is read off the status and the conditions |
| Volumes.ReadsExactly | internal/volumes/volumes.go:241-325 | Field by field, what a claim is read as off the listed object: its size, capacity and phase, whether it waits for a pod, and the first condition that is quoted |
| Volumes.OnlyTheStepIsQuoted | internal/volumes/volumes.go:282-325 | A resize counts as given up exactly when its status is infeasible, with or without a message; otherwise only an error of the step it is on is quoted, and one another step left behind changes nothing |
| Volumes.CollapseSettles | internal/volumes/volumes.go:325-329 | A quoted message is words with single spaces between them and none around, and quoting it again changes nothing |
| Volumes.CollapseExactly | internal/volumes/volumes.go:325-329 | It is the words of the message with one space between them |
| Volumes.ClaimNameSplits | internal/volumes/volumes.go:239-246 | A claim name belongs to one template and one ordinal at most |
| Expansion.Store.Reconcile | internal/controller/memgraphdbcluster_controller.go:1001-1058 | One pass over the role does to its objects exactly what the pass machine says: nothing while the StatefulSet is going, the patches, a conditioned delete, or the apply; and a pass with a refused patch deletes nothing |
| Expansion.Store.PatchClaims | internal/controller/memgraphdbcluster_controller.go:1020-1031 | The patches in order; a refused one is named and passed over, a conflicting one ignored, any other error ends the pass |
| Expansion.PatchesIssued | internal/controller/memgraphdbcluster_controller.go:1020-1031 | A claim comes to ask for a patch's size exactly when that patch landed and no earlier one failed otherwise than by a refusal or a conflict; every other claim is as it was |
| Expansion.PassExactly | internal/controller/memgraphdbcluster_controller.go:1001-1058 | Everything a pass does to the role's objects: nothing while the StatefulSet goes, the patches alone when one fails, the delete of the one that was read when nothing is to patch and a template grew, and otherwise the apply, which creates one only where there is none, with the sizes read |
| Expansion.RequestsNeverShrink | internal/controller/memgraphdbcluster_controller.go:1096-1117 | Over every run, no claim ever asks for less than it did |
| Expansion.RecreateComesLast | internal/controller/memgraphdbcluster_controller.go:1038-1054 | A StatefulSet is deleted only when it is the one that was read, a template is to grow and every bound claim already asks enough, so never while a patch stands refused |
| Expansion.StaleDeleteIsHarmless | internal/controller/memgraphdbcluster_controller.go:1040-1046 | A delete decided on a StatefulSet that has been replaced or is going changes nothing |
| Expansion.AppliesRestate | internal/controller/memgraphdbcluster_controller.go:288-303 | An apply to the StatefulSet that was read asks for exactly the template sizes it has |
| Expansion.OldSizesNeedAStaleRead | internal/controller/memgraphdbcluster_controller.go:288-303 | A StatefulSet comes back with old sizes only from a pass that still read the one that is gone and found a claim to patch; and from every such pass that is accepted |
| Expansion.GoneIsRecreated | internal/controller/memgraphdbcluster_controller.go:992-995 | A pass that reads no StatefulSet creates it with the desired sizes |
| Expansion.OneRecreatePerGrowth | internal/volumes/volumes.go:194-197 | Over every run: at most one recreate per growth, plus one for a StatefulSet too small at the start and one for each that a stale read brought back with old sizes |
| Expansion.GrowthCostsItsDebt | internal/controller/memgraphdbcluster_controller.go:1001-1058 | Undisturbed after the sizes grew, a run has made exactly as many recreates as the StatefulSet owed at the start and owes no longer; after two passes that find none on its way out that is one if it was too small, and none otherwise |
| Expansion.RecreatedTwice | internal/controller/memgraphdbcluster_controller.go:288-303 | A run in which the sizes grow once and the StatefulSet is recreated twice: a pending claim binds at its old size while the StatefulSet is gone, and a pass that still reads it brings the old sizes back |
| Expansion.ProposesExactly | internal/volumes/volumes.go:161-197 | A pass proposes nothing exactly when no claim is left to grow and no StatefulSet to recreate |
| Expansion.PassesOnlyShrinkTheMeasure | internal/controller/memgraphdbcluster_controller.go:1001-1058 | Whatever is refused, the claims under-asking and the recreate owed only ever shrink, strictly with every patch or delete that lands |
| Expansion.ExpansionConverges | internal/controller/memgraphdbcluster_controller.go:1001-1058 | Undisturbed, a run makes two proposals at most and then none ever again |
| Settings.NormalizeSettles | internal/settings/settings.go:67-69 | A canonical name has no hyphen and is its own canonical name |
| Settings.NormalizeExactly | internal/settings/settings.go:59-69 | The canonical name, character by character: leading dashes go, hyphens become underscores, nothing else changes |
| Settings.SpellingsAreOneFlag | internal/settings/settings.go:59-69 | Leading dashes, and hyphens for underscores, do not change the flag |
| Settings.SpellingsReachTheSetting | internal/settings/settings.go:71-76 | A flag of the table is found under every spelling of it, and no other name is |
| Settings.RoleFlags | internal/resources/flags.go:165-171 | Every flag of the role under its canonical name, at the value of the spelling that sorts last, over the defaults no key spells |
| Settings.EveryFlagIsWon | internal/resources/flags.go:165-171 | Of the spellings of a flag there always is one that counts |
| Settings.MergedIsUnambiguous | internal/resources/flags.go:165-171 | However the spec spells its flags, no two of the merged ones share a run-time setting |
| RuntimeSettings.TableIsValid | internal/settings/settings.go:40-57 | The operator's own table names different settings for different flags, and none of those a Secret sets |
| Settings.Diff | internal/settings/settings.go:126-139 | The diff, in setting order |
| Settings.DiffExactly | internal/settings/settings.go:126-139 | The changes are exactly the desired settings not reported at their value; none exactly when all are |
| Settings.Plan | internal/settings/settings.go:109-117 | The diff of the settings the flags are changed through; of two flags with one setting either may decide, and without such flags there is one outcome, whatever order they are visited in |
| Settings.License | internal/settings/secrets.go:42-51 | The changes are exactly the organization when it reads differently and the license when it does, in that order |
| Settings.Classify | internal/settings/settings.go:180-199 | By membership alone: the canonical names in SHOW CONFIG or left out of it are flags, those of the others in the coordinator settings are settings, the rest is unknown; each list sorted, no key lost |
| Flags.FlagsDigests | internal/resources/flags.go:195-207 | One line for each startup flag, in order |
| Flags.RenderedLines | internal/resources/flags.go:195-207 | The text line by line: each startup flag's key and digest, in key order, and nothing else |
| Flags.ParseFlagsDigests | internal/resources/flags.go:235-244 | The digests by key, malformed lines skipped, the last line of a key counting |
| Flags.LinesExactly | internal/resources/flags.go:235-244 | The lines are the text between the line breaks |
| Flags.ParsedExactly | internal/resources/flags.go:235-244 | A key has a digest exactly when the last line that gives the key one gives it that; a line with no key or no equals sign gives none |
| Flags.AnnotationRoundTrips | internal/resources/flags.go:195-244 | Parsing a rendered annotation gives back precisely the startup flags with their digests |
| Flags.ChangedFlags | internal/resources/flags.go:249-263 | The keys added, removed or digested differently, sorted |
| Flags.ChangedReads | internal/resources/flags.go:249-263 | When a key counts as changed between any two sets of digests |
| Flags.ChangedExactly | internal/resources/flags.go:249-263 | Between two rendered annotations, the changed keys are precisely the startup flags added, removed or given a value with another digest |
| Flags.RunTimeFlagsNeverShow | internal/resources/flags.go:58-67 | A change to run-time flags alone leaves the annotation as it is, to the letter |
| Exemption.ExemptCurrentPods | internal/controller/memgraphdbcluster_controller.go:1949-1987 | In place, both roles: a pod whose flags alone differ is marked by whether any of them is a flag, every other pod is left; the unclassified keys come back sorted, and the roll waits exactly while there are any |
| Exemption.ExemptRole | internal/controller/memgraphdbcluster_controller.go:1960-1981 | The same for one role's pods |
| Exemption.UnclassifiedExactly | internal/controller/memgraphdbcluster_controller.go:1960-1987 | The keys the roll waits for are exactly those changed on a pod of another revision and the same template, while either view is not known |
| Exemption.OutdatedAfterExemption | internal/rollout/rollout.go:378-394 | After the exemption a pod is outdated exactly when it is labelled, off the revision and not up to date by its flags |
| Exemption.DoneExactly | internal/rollout/rollout.go:180-206 | Done if and only if neither role's status is behind and, in each role with a revision, every labelled pod is on it or differs from its template only in keys that are no flags of the running Memgraph |
| Exemption.ExemptedByItsFlags | internal/controller/memgraphdbcluster_controller.go:1937-1948 | A pod started with one set of flags under a template for another is exempted exactly when they differ in some startup flag, and in none that the running Memgraph has |
| SettingsPass.PodSettings.ObserveSettings | internal/controller/memgraphdbcluster_controller.go:2105-2118 | The pod is read on the first call of the pass and never again, a failed read included |
| SettingsPass.PodSettings.ApplySettings | internal/controller/memgraphdbcluster_controller.go:2147-2194 | The planned SETs in order until one is not acknowledged, each acknowledged one recorded on the pass's read; no dial without a change |
| SettingsPass.ReadStaysCurrent | internal/controller/memgraphdbcluster_controller.go:2090-2096 | At any point of a pass, whatever was refused, the pass's read is what a fresh SHOW DATABASE SETTINGS would return if and only if no SET landed whose answer was lost |
| SettingsPass.DoneStepsAllHold | internal/controller/memgraphdbcluster_controller.go:2090-2096 | When every step is done, everything every step wanted holds at the end: none undoes another |
| SettingsPass.FairPassSetsEverything | internal/controller/memgraphdbcluster_controller.go:2147-2194 | If the pod can be read, every dial gets through and no SET is refused, every setting each step owns holds at the end |
| SettingsPass.AStepDialsToSet | internal/controller/memgraphdbcluster_controller.go:2160-2192 | A step whose dial fails issues nothing; with the dial through it issues its changes until one is not acknowledged, and is done exactly when none was |
| SettingsPass.UnreadableIsLeftAlone | internal/controller/memgraphdbcluster_controller.go:2105-2118 | A pod that cannot be read is left as it was, and no step on it is done |
| SettingsPass.NextPassIsSilent | internal/settings/settings.go:98-108 | The next pass on such an instance issues no SET |
| SettingsPass.StepsAreSeparate | internal/settings/secrets.go:24-37 | License, run-time flags and AWS credentials own different settings |
| Readiness.ClusterStatus.InitializeConditions | api/v1alpha1/memgraphdbcluster_types.go:437-450 | Every missing condition becomes Unknown, and no other changes |
| Readiness.ClusterStatus.SetStatus | internal/controller/memgraphdbcluster_controller.go:2613-2626 | The conditions given, in order, for this generation |
| Readiness.SetAllExactly | internal/controller/memgraphdbcluster_controller.go:2613-2626 | A condition is what the last setting of its type says |
| Readiness.SetAllLeaves | internal/controller/memgraphdbcluster_controller.go:2613-2626 | And one that nothing sets is as it was |
| Readiness.ClusterStatus.SummarizeReady | internal/controller/memgraphdbcluster_controller.go:2502-2512 | The verdict is folded into Ready and removed |
| Readiness.SummarizedLeaves | internal/controller/memgraphdbcluster_controller.go:2502-2512 | Only Ready changes and only the verdict goes |
| Readiness.ServingReasonsExactly | internal/controller/memgraphdbcluster_controller.go:2480-2488 | The reasons that read as not serving are exactly those a pass gives for not serving |
| Readiness.ReadyExactly | internal/controller/memgraphdbcluster_controller.go:2526-2569 | Ready is True if and only if all three conditions are True for the current generation and the cluster serves: by this pass's verdict or, without one, by the published Ready not saying otherwise |
| Readiness.ReadyNamesTheFirst | internal/controller/memgraphdbcluster_controller.go:2514-2525 | Otherwise Ready carries the reason of the first that stands in the way: serving, license, convergence, roll |
| Readiness.ReadyIsHonest | internal/controller/memgraphdbcluster_controller.go:2482-2569 | Over every sequence of passes and spec edits, Ready=True means the latest verdict written was that the cluster serves, and all three conditions True for the generation described; the verdict is never published |
| Readiness.TrueIsBackedOnceWritten | internal/controller/memgraphdbcluster_controller.go:242-254 | Over every run, status writes refused included: behind Ready=True some pass came to a verdict, and if the latest one was written it is that the cluster serves |
| Readiness.TrueOutlivesAnUnwrittenVerdict | internal/controller/memgraphdbcluster_controller.go:242-254 | A run in which Ready=True outlives a verdict against it whose status was not written |
| Readiness.ReadyFollowsExactly | internal/controller/memgraphdbcluster_controller.go:2521-2538 | Over every run: after a pass without a verdict in a cluster that served when last observed, Ready follows the other conditions if and only if the published one did not read as not serving, or reads what they add up to now; spelled out for a pass that recreates a StatefulSet and for one that ends early |
| Readiness.ReadyCanStaySet | internal/controller/memgraphdbcluster_controller.go:296-301 | Two runs in which it does not follow: a roll's WorkloadsNotReady kept over an expansion after an edit of the spec, and ApplyFailed kept over one under the same spec |

## Left out

- Kubernetes and Bolt input and output: the client, server-side apply, informers, dialing, TLS and credentials. An accepted, refused, conflicting or unanswered call is an outcome the environment chooses.
- Object builders (StatefulSets, Services, Gateway, monitoring, Vector, vmagent, ConfigMaps) and spec defaulting: field assembly.
- Custom resource types and admission rules: what admission guarantees is an assumption above.
- Events, log lines, condition messages and their truncation.
- SHA-256, template hashes and the system user's password hashing: a digest is a function parameter, a template hash a string that is equal or not.
- The mutex around expectations: one reconcile pass runs at a time for one cluster.
- Pod reads that lag, counts edited repeatedly under cache lag, pods evicted while their StatefulSet is absent, and pods still terminating during a recreate: the code promises no run property there.
- External addresses: which address a member is announced at is an input of the topology; coordinator settings written over Raft are diffed with the same `Settings.Diff` and not modelled as a machine of their own.
- Volumes.Decide: sorts claims by name through the set of their names, so it speaks of claims with different names, as a namespace has.
- Settings.Diff: visits the desired settings in sorted order instead of sorting the changes afterwards; the changes are the same list.
- Replication.HandoverLosesNothing: says nothing of transactions committed after the lag was read.
- Retirement.NoRegisteredPodIsShed: runs without a StatefulSet recreate; recreates are `Replicas.RecreateKeepsEveryPod` and the storage expansion runs.
- Roll.RollIsSafe: one role's StatefulSet is never recreated or resized during the roll.
- Expansion.ExpansionConverges: one role; the two roles' steps touch different objects, and a pass that recreates one ends before the other.
