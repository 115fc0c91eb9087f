# Nebula control plane: a verified model

This project models the state machines and control loops of Nebula, a container control
plane, and proves what they guarantee: leader election, the reconciler, worker-side
exclusion, the scheduler, the deployment service with crash recovery, and four smaller
cores (autoscaler, envelope encryption, audit chain, request deduplication).

`dafny verify dfyconfig.toml` checks everything.  Automatic induction is switched off on
every lemma: inductive proofs are spelled out.

## How it is organised

| files | what they hold |
|---|---|
| `Wrappers`, `Runs` | what is there or not; runs of a machine, for any kind of state and step |
| `AdvisoryLock`, `Election`, `ElectionObjects` | the lease lock, the timed protocol over any number of electors, the classes |
| `KeyedLock`, `ContainerOps`, `RuntimeObjects` | the reference-counted keyed mutex, Run and Stop requests over it, the classes |
| `Text`, `StableSort`, `Epsilon`, `Scheduler` | strings and sorting, the tolerance test, filter, rank and selection |
| `Diff`, `Cluster`, `Reconcile` | the diff, the world and its primitives, a reconciliation pass and its loops |
| `ReconcileSafety`, `DiffFacts`, `Convergence` | replica counts, unknown containers, one-pass convergence |
| `Deployments`, `Books`, `ServiceRuns`, `Placement`, `Backing`, `Routing` | the service and its loops, accounting, routing and running containers over whole runs, scaling, spread, where routes point |
| `PassOutcomes`, `ServiceOutcomes`, `RecoveryOutcomes`, `SecretOutcomes` | what each operation leaves, in the fields of the records alone |
| `Recovery`, `CrashSafety`, `PipelineWrites`, `RecoverySafety` | recovery, the pipeline write by write and its refinement of the service, crash anywhere then recover |
| `Autoscaler`, `Secrets`, `SecretSafety`, `Audit`, `AuditTampering`, `Idempotency`, `Objects` | the smaller cores, and the registry, router and idempotency store as objects |

Three kinds of model are used.  Concurrent protocols (`Election`, `KeyedLock`,
`ContainerOps`, `CrashSafety`, `Idempotency`) are machines with one step per shared access,
and their theorems quantify over every sequence of steps.  Control loops (`Reconcile`,
`Deployments`, `Recovery`, `Secrets`) are classes whose loops are proved equal to functions
on values; the theorems are about those functions.  What the environment decides (outcomes
of remote calls, the order in which a map or a registry lists its elements, new
identifiers, times) is always a parameter and arbitrary unless a condition is stated.

## Where the code does not do what one would expect

Each of these is a theorem about the code as it is, with the exact condition under which
the expected property holds.

- A Stop that gives the lock back while its elector still leads, has a grant in flight or has
  a decision under way breaks safety, and no other release does (`QuietReleaseIsExact`,
  `ReleaseSplitsBrainExactly`); a Stop that overlaps the elector's own tick is such a release
  (`NoisyReleaseSplitsBrain`).  An elector relying on its grant in any of these ways is
  overtaken by a rival's tick if and only if its lease has lapsed (`LapseIsExact`).
- A stop request that the engine fails leaves a record that the next run request ignores: two
  containers of one instance run if and only if the container was running when its stop
  failed (`FailedStopAllowsTwo`); a stop that is retried and honoured repairs it
  (`StopEndsAtRest`, `FailedStopCanBeRetried`).
- The 1e-9 tolerance in the ranking is exact for two capacities if and only if their product
  is below 10^9 times their greatest common divisor (`ExactnessThreshold`); beyond that the
  comparator can have cycles and the choice can depend on listing order
  (`ComparatorCanCycle`, `SelectionCanDependOnOrder`); three workers form a cycle if and only
  if two are within tolerance of the third but not of each other and the tie-breaks run
  against the ratios (`CycleExactly`).
- Stopping a deployment never lowers workload counters: the books balance afterwards exactly
  when no live instance held a slot (`StopLeaksExactlyHeldSlots`, `StopAfterDispatchLeaks`).
  Recovery does not lower them either: the books balance exactly when no live record of a
  deployment in flight had been counted (`AccountsAfterRecovery`).
- Neither recovery nor repair writes the router's table: it agrees with the records after
  recovery if and only if no instance of a deployment in flight was already routed
  (`RoutesAfterRecovery`), and after a repair if and only if the attempt leaves the instance
  as it was or the project has no routes (`RepairKeepsRoutesExactly`); `CrashAfterRouteMisroutes`
  and `FailedRepairMisroutes` are states on the failing side.
- A migration registers no new target, so the route stays at the drained worker: routes name
  the workers of their records afterwards if and only if the instance had no route
  (`MigrationPointsExactly`), and after a repair if and only if it stayed on its worker or had
  none (`RepairPointsExactly`).
- A count above the autoscaler's maximum is brought down to it, and under a high metric that
  step down is reported as SCALE_UP (`AboveMaximum`).
- The autoscaler comes to rest under constant load if and only if not both whole counts
  around the ideal one are allowed and out of tolerance (`RestsExactlyWhenNotOscillating`).
- The length and tip hash of an audit log do not determine it: another log passes for it if and
  only if some entry has a bar in its timestamp, event, actor or resource, details with two or
  more entries or an equals sign in the only one, or a bar in that entry's key or at the end of
  its value (`BoundExactlyWhenUnforgeable`, `ForgeLog`).
- Audit details share their canonical text with other details if and only if they have two or
  more entries or an equals sign in their only entry (`TwinExactlyWhenAmbiguous`).
- A secret shares its map key with another owner's if and only if there is a colon in its
  owner's ID or its name (`SharedExactlyWithColon`), and of two secrets set one after the
  other the first is lost exactly when they share it (`SharedKeyReplaces`).
- The comment on the SCHEDULING recovery branch speaks of cleaning up unstarted instances;
  no instance can exist at that point (`StepKeepsInv` of `CrashSafety`), so the branch never
  has anything to do for a state that the pipeline itself has left.

## Model

| member | source | states |
|---|---|---|
| `Election.StepKeepsInv` | internal/ha/election.go:67-119 | every step of acquire, renew, expiry, partition, promotion, step-down, stop, release and decision keeps: whoever leads, holds a grant or is deciding owns the lock, at its own last grant time |
| `Election.ElectionIsSafe` | internal/ha/election.go:246-333 | in every disciplined run of any number of electors there is at most one leader, it is the lock's owner, and every decision is stamped in a term its recorder owns, with terms and stamps in order |
| `Election.NoInterleavedDecisions` | internal/ha/election.go:320-333 | decisions of one ownership term are contiguous and all by one elector |
| `Election.GrantDeposesNobodyExposed` | internal/ha/election.go:67-92 | a grant never deposes an elector that still relies on the lock |
| `Election.BidOutcome` | internal/ha/election.go:274-317 | one tick of a standby elector makes it leader exactly when the lock is free, its own or expired |
| `Election.TimelinessIsExact` | internal/ha/election.go:67-92 | a rival's tick yields two leaders if and only if the leader has outlived its lease |
| `Election.StopFencesLeader` | internal/ha/election.go:246-272 | Stop fences the leader while its loop can still tick |
| `Election.StoppingLeaderIsPromotedAgain` | internal/ha/election.go:274-317 | the loop of a stopping leader wins its own lock once more and is promoted |
| `Election.StopDuringTickFreesTheLock` | internal/ha/election.go:246-255 | the elector ends up leader of a lock its own Stop has set free |
| `Election.NoisyReleaseSplitsBrain` | internal/ha/election.go:246-317 | a Stop that overlaps the elector's own tick lets any ready elector become a second leader with no time passing |
| `Election.QuietReleaseIsExact` | internal/ha/election.go:246-255 | from any protocol state with a release pending, a disciplined continuation can break safety if and only if the elector leads, has a grant in flight or has a decision under way |
| `Election.ReleaseSplitsBrainExactly` | internal/ha/election.go:246-333 | with a rival's tick after the release: two leaders iff the elector led, or iff it had an unfenced grant once that is promoted; a decision in the rival's term iff one was under way |
| `Election.LapseIsExact` | internal/ha/election.go:67-92 | for a leader, a grant in flight or a decision under way alike, a rival's tick breaks safety if and only if the lease has lapsed |
| `Election.LeaderRenews` | internal/ha/election.go:94-108 | a leader that owns the lock and can reach it renews: still leader, lease starting now, lock, term and every other elector as they were |
| `Election.LostRenewalStepsDown` | internal/ha/election.go:278-296 | a leader that is partitioned or no longer owns the lock ends its tick in standby, and the lock is as it was |
| `Election.BidWins` | internal/ha/election.go:67-92 | a standby bid on a free, own or expired lock: owner, lease start, lock ID, role and term afterwards |
| `Election.BidLoses` | internal/ha/election.go:67-92 | a bid on a lock held within its lease, or from behind a partition, changes nothing |
| `Election.StopAlone` | internal/ha/election.go:246-255 | a Stop with nothing else in flight leaves the leader in standby and the lock free |
| `Election.ForeignReleaseIsIgnored` | internal/ha/election.go:110-119 | a release by anyone but the owner, or under another lock ID, leaves the lock as it was |
| `ElectionObjects.MemoryAdvisoryLock.TryAcquire` | internal/ha/election.go:67-92 | in the fields: refused exactly while another holds the lock within its lease; a grant sets owner, lock ID and renewal time |
| `ElectionObjects.MemoryAdvisoryLock.RenewOrHold` | internal/ha/election.go:94-108 | in the fields: granted exactly to the reachable owner under its lock ID, whose renewal time becomes now; nothing else ever changes |
| `ElectionObjects.MemoryAdvisoryLock.Release` | internal/ha/election.go:110-119 | in the fields: the lock is freed exactly by its owner under its lock ID |
| `ElectionObjects.Elector.CampaignTick` | internal/ha/election.go:274-317 | a leader leads on exactly if its renewal is granted, a standby leads exactly if its bid is; whoever leads afterwards has a lease that starts now |
| `ElectionObjects.Elector.Stop` | internal/ha/election.go:246-255 | stopping a leader frees the lock once; stopping anyone else leaves it alone |
| `ElectionObjects.Elector.RecordDecision` | internal/ha/election.go:320-333 | a decision is recorded exactly when the instance leads |
| `KeyedLock.StepKeepsInv` | internal/runtime/idempotency.go:58-80 | every step keeps counts exact, one shared lock object per key and holders inside |
| `KeyedLock.KeyedLockIsCorrect` | internal/runtime/idempotency.go:58-80 | over every interleaving: mutual exclusion per key, all threads in flight share the mapped object, the reference count is their number, and an entry exists exactly while some thread is in flight |
| `KeyedLock.SomeThreadCanMove` | internal/runtime/idempotency.go:58-80 | the lock never wedges |
| `ContainerOps.StepKeepsHostInv` | internal/runtime/container_ops.go:90-298 | every step of any number of Run and Stop requests keeps, per instance, what the record, the engine and the request under way may look like together |
| `ContainerOps.OneContainerAlways` | internal/runtime/container_ops.go:90-298 | over every interleaving with failures and spontaneous exits, engine stops taking effect: at most one container per instance runs and the tracker's record names it |
| `ContainerOps.FailedStopAllowsTwo` | internal/runtime/container_ops.go:235-298 | when an engine stop fails, one more Run request gives the instance two running containers if and only if the container was running |
| `ContainerOps.EveryContainerIsVerified` | internal/runtime/container_ops.go:122-147 | over every interleaving, every container the engine has was created by a request whose own signature check had succeeded |
| `ContainerOps.RunOfUp` | internal/runtime/container_ops.go:98-120 | an undisturbed Run of an instance that is running or starting changes nothing |
| `ContainerOps.RunOfUnverified` | internal/runtime/container_ops.go:122-147 | a Run that fails verification records FAILED without a container and leaves the engine alone |
| `ContainerOps.CreateRefused` | internal/runtime/container_ops.go:149-200 | a refused creation records FAILED without a container |
| `ContainerOps.StartRefused` | internal/runtime/container_ops.go:200-222 | a refused start records FAILED with the container that was created and does not run |
| `ContainerOps.RunFromCreate` | internal/runtime/container_ops.go:149-232 | otherwise the container runs and the record names it |
| `ContainerOps.StopOfIdle` | internal/runtime/container_ops.go:235-262 | a Stop of an unknown or stopped instance changes nothing |
| `ContainerOps.StopOfOther` | internal/runtime/container_ops.go:262-298 | any other Stop: honoured, the container no longer runs and the record is STOPPED; refused, the record is STOPPING and the engine as it was |
| `RuntimeObjects.InstanceTracker.Reserve` | internal/runtime/idempotency.go:58-70 | finds or creates the key's lock object and counts the caller |
| `RuntimeObjects.InstanceTracker.Unreserve` | internal/runtime/idempotency.go:71-80 | uncounts the caller and deletes the entry with the last one |
| `RuntimeObjects.RunEndsAtRest` | internal/runtime/container_ops.go:90-232 | whatever a Run's outcome, every record tells which container may run |
| `RuntimeObjects.Operations.RunContainer` | internal/runtime/container_ops.go:90-232 | in the fields: started exactly if the instance is named, not up, verified, created and started; the record and the engine after each refusal; the at-rest invariant is kept |
| `RuntimeObjects.StopEndsAtRest` | internal/runtime/container_ops.go:235-298 | a stop the engine honours leaves nothing of the instance running and every record telling, even after an earlier stop failed |
| `RuntimeObjects.FailedStopCanBeRetried` | internal/runtime/container_ops.go:235-298 | a stop the engine refuses keeps what a retry needs |
| `RuntimeObjects.Operations.StopContainer` | internal/runtime/container_ops.go:235-298 | in the fields: which record and container change and when it succeeds; honoured, nothing of the instance runs, refused, it is left STOPPING and can be retried |
| `Epsilon.FarApartInWholeNumbers` | internal/scheduler/rank.go:58-64 | the tolerance test on two ratios as a condition on whole numbers |
| `Epsilon.ClosestPair` | internal/scheduler/rank.go:58-64 | workloads within capacity whose ratios differ by exactly gcd(c1,c2) over c1 c2 |
| `Epsilon.ExactnessThreshold` | internal/scheduler/rank.go:58-64 | the test is exact for two capacities if and only if c1 c2 < 10^9 gcd(c1, c2) |
| `Epsilon.SmallProductIsExact` | internal/scheduler/rank.go:58-64 | in particular it is exact whenever the product of the capacities is below 10^9 |
| `StableSort.SortInPlace` | internal/scheduler/rank.go:34-73 | the in-place sort computes the insertion specification, for any comparator whatever |
| `StableSort.SortedSettles` | internal/scheduler/rank.go:34-73 | for an asymmetric comparator the result is a rearrangement with no neighbours out of order |
| `Scheduler.Filter` | internal/scheduler/filter.go:23-82 | the loop with its early continues computes the recursive filter, whose rules FilterKeepsTheRules states in worker fields |
| `Scheduler.FilterKeepsTheRules` | internal/scheduler/filter.go:23-82 | a listed worker passes exactly if it is schedulable, READY, not UNHEALTHY, has max(1, required) slots free, carries every required label, and is a build worker exactly if a build is asked for |
| `Scheduler.FilterKeepsOrder` | internal/scheduler/filter.go:23-82 | the filter keeps order and multiplicity |
| `Scheduler.BeforeKeyByKey` | internal/scheduler/rank.go:37-73 | the comparator decides by count, then ratio beyond 1e-9, then workload, then key |
| `Scheduler.CountLookedUp` | internal/scheduler/rank.go:39-52 | a count is looked up under the worker ID, and under its key when that gives none |
| `Scheduler.Rank` | internal/scheduler/rank.go:29-73 | ranking a copy in place gives the sorted sequence |
| `Scheduler.ComparatorIsExact` | internal/scheduler/rank.go:37-73 | below the threshold the comparator is exact comparison by count, ratio, workload, key |
| `Scheduler.ExactIsTransitive` | internal/scheduler/rank.go:37-73 | exact comparison is transitive |
| `Scheduler.ExactIsTotal` | internal/scheduler/rank.go:37-73 | and total and asymmetric on distinct keys |
| `Scheduler.SelectionSpreads` | internal/scheduler/scheduler.go:44-83 | a placement fails exactly when no worker is feasible, and otherwise goes to a feasible worker with the fewest instances of the deployment |
| `Scheduler.SelectionKeepsTheRules` | internal/scheduler/scheduler.go:44-83 | in worker fields: a worker is chosen if and only if some listed one meets the rules, and the chosen one does |
| `Scheduler.SelectionIsLeast` | internal/scheduler/scheduler.go:44-83 | below the threshold the chosen worker is the unique least of the feasible ones |
| `Scheduler.SelectionIgnoresOrder` | internal/scheduler/scheduler.go:44-83 | and does not depend on the order in which the registry lists workers |
| `Scheduler.AnySortRanks` | internal/scheduler/rank.go:29-73 | below the threshold the ranking does not depend on the sorting algorithm: any rearrangement with no neighbours out of order is it |
| `Scheduler.ComparatorCanCycle` | internal/scheduler/rank.go:37-73 | three healthy workers each of which comes before the next |
| `Scheduler.CycleExactly` | internal/scheduler/rank.go:37-73 | the comparator is cyclic on three workers if and only if their counts are equal and, in some rotation, two are within tolerance of the third but not of each other with the tie-breaks against the ratios |
| `Scheduler.SelectionCanDependOnOrder` | internal/scheduler/rank.go:37-73 | with them, the choice depends on the listing order |
| `Diff.BuildIndex` | internal/reconcile/diff.go:59-75 | the index maps each name to the last desired entry carrying it as key or ID |
| `Diff.ComputeDiff` | internal/reconcile/diff.go:59-107 | one pass with the index computes the quadratic specification, whatever names collide |
| `Diff.RunningStateExactly` | internal/reconcile/diff.go:47-54 | a state counts as running exactly if it spells running, or begins with up, letter by letter in either case |
| `Diff.CandidateExactly` | internal/reconcile/diff.go:77-99 | a container is a candidate for the last entry with its instance key (or else its instance label) as key or ID, if it is up and has one |
| `Diff.DownIsExtra` | internal/reconcile/diff.go:77-99 | a container that is not up, or has no name, is extra, whatever is desired |
| `Diff.DiffConserves` | internal/reconcile/diff.go:59-107 | with no uniqueness assumption, the containers are exactly those of the pairs and the extras together, the desired entries exactly those of the pairs and the missing together, as multisets |
| `Diff.MatchingComesFrom` | internal/reconcile/diff.go:77-99 | each pair is a container with the entry it is the first candidate for |
| `Diff.MatchingIsInjective` | internal/reconcile/diff.go:77-99 | with no uniqueness assumption, no two pairs come from the same container index or the same desired index |
| `DiffFacts.FactsHold` | internal/reconcile/loop.go:144-224 | with unique instance names, pairs are exactly the served desired instances, missing exactly the unserved ones, extras exactly the unpaired containers, for any list order |
| `Reconcile.Reconciler.ListDesired` | internal/reconcile/loop.go:137-175 | the desired list is the running and repair-failed instances of RUNNING deployments |
| `Convergence.DesiredExactly` | internal/reconcile/loop.go:137-175 | which instances are desired, and every field of their entries |
| `Reconcile.Reconciler.ReconcileOnce` | internal/reconcile/loop.go:122-363 | the loops of a pass compute its phases one after another: world, action counters and remote calls in order; the phases are stated in the records' fields by PassOutcomes and ReconcileSafety |
| `Reconcile.Reconciler.Prune` | internal/reconcile/loop.go:305-341 | the backward walk over the matches equals its recursive specification |
| `PassOutcomes.OrphanOutcome` | internal/reconcile/orphan_policy.go:26-132 | an extra with an instance key, deployment ID or either label is stopped by its key, or by container ID if it has none; any other is only flagged; counters and containers in each case |
| `PassOutcomes.RepairTargetExactly` | internal/reconcile/repair.go:89-120 | a repair goes to the assigned worker if registered, HEALTHY and not DRAINING, and else to the scheduler's pick |
| `PassOutcomes.RepairNotMade` | internal/reconcile/repair.go:70-83 | at or above max(1, count) nothing happens; with no worker or no connection there is an error and nothing else |
| `PassOutcomes.RepairMade` | internal/reconcile/repair.go:139-205 | a repair runs the deployment's image under the instance's key on the target, marks the record RUNNING there and counts one more |
| `PassOutcomes.RepairRefused` | internal/reconcile/repair.go:155-178 | a repair the worker refuses marks the record REPAIR_FAILED and changes no container |
| `PassOutcomes.PruneTakesTheLatest` | internal/reconcile/loop.go:305-341 | pruning stops exactly the last so many matches of the deployment, the last one first |
| `PassOutcomes.MigrationStarts` | internal/reconcile/loop.go:454-481 | a migration starts the deployment's image under the instance's key, and the record names the new worker and container |
| `Reconcile.Reconciler.ReconcileDraining` | internal/reconcile/loop.go:410-514 | the drain loop equals one migration step after another |
| `ReconcileSafety.RepairCounts` | internal/reconcile/repair.go:65-83 | repair stays between the matched and the wanted count, and reaches what it can when nothing fails |
| `ReconcileSafety.PruneCounts` | internal/reconcile/loop.go:295-341 | after pruning a deployment with enough matches is at its wanted count, and none is below it |
| `ReconcileSafety.ReplicaCountOfAPass` | internal/reconcile/loop.go:249-341 | with m matched, x missing, D the recorded count or one if that is not positive, and any failures: never above D by repair, never below D by prune, D at the end when m >= D, min(D, m + x) when all repairs succeed |
| `ReconcileSafety.UnknownContainersSurvive` | internal/reconcile/orphan_policy.go:26-132 | across a whole pass with any failures, containers without a trace of the control plane are left as they were and no stop request reaches one |
| `Convergence.OrphansSwept` | internal/reconcile/loop.go:226-244 | with stops succeeding, the orphan phase removes exactly the managed extras |
| `Convergence.RepairStepKeeps` | internal/reconcile/repair.go:65-205 | one repair serves exactly one more instance and keeps every managed container employed by exactly one |
| `Convergence.PruneStepKeeps` | internal/reconcile/loop.go:305-341 | one prune stops exactly one served instance and nothing else |
| `Convergence.PruneKeepsRoutes` | internal/reconcile/loop.go:318-334 | pruning keeps the router's table exactly the running instances, even if the stop fails |
| `Convergence.RepairKeepsRoutesExactly` | internal/reconcile/repair.go:65-205 | router agreement survives a repair if and only if the project has no routes, nothing was attempted, or the instance was already in the state the attempt leaves it in |
| `Convergence.CleanIsQuiet` | internal/reconcile/loop.go:122-363 | a pass over a clean world takes no action and changes nothing, whatever the order of its lists |
| `Convergence.OnePassConverges` | internal/reconcile/loop.go:122-363 | from any world with unique names, at most one container per worker and key, no draining worker and calls that succeed, one pass leaves a clean world with each deployment at its recorded count (or with all it has served), and every later pass is quiet |
| `Convergence.CleanExactlyWhenQuiet` | internal/reconcile/loop.go:122-363 | under the same conditions a pass is quiet if and only if the world is clean |
| `Convergence.FullyServedIsQuiet` | internal/reconcile/loop.go:249-341 | where every desired instance is served and no deployment has more than its recorded count, a pass stops, starts and prunes nothing |
| `Cluster.UpdateKeepsIndexes` | internal/deployments/repository.go:227-243 | writing back a record without changing its ID or key keeps the repository's two indexes in agreement |
| `Cluster.Without` | internal/loadbalancer/router.go:124-136 | removing a target keeps exactly the others |
| `Cluster.KeptIDs` | internal/loadbalancer/router.go:124-136 | and takes exactly its instance off the list, without introducing duplicates |
| `Cluster.WithoutKeepsOrder` | internal/loadbalancer/router.go:124-136 | and the targets that stay keep their order and multiplicity |
| `Cluster.CountersStopAtZero` | internal/workers/registry.go:353-366 | a counter takes every change that keeps it at zero or above, and gives it back; otherwise it stops at zero |
| `Deployments.Service.DispatchInstance` | internal/deployments/service.go:683-848 | create, select, dial, run, assign, route and count as written, with every failure ending in a FAILED record |
| `Deployments.Service.DispatchInstances` | internal/deployments/service.go:683-848 | the loop stops at the first failure |
| `Deployments.Service.CreateAndDeploy` | internal/deployments/service.go:403-615 | the pipeline from QUEUED through build to RUNNING or FAILED |
| `Deployments.Service.RunPipeline` | internal/deployments/service.go:618-878 | SCHEDULING, STARTING, dispatch, RUNNING or FAILED; what it leaves is ServiceOutcomes.PipelineOutcome |
| `Deployments.Service.Stop` | internal/deployments/service.go:881-925 | every listed instance is stopped, marked and unrouted, then the deployment is STOPPED |
| `Deployments.Service.ScaleDeployment` | internal/deployments/service.go:1095-1272 | scale up by dispatching, down by retiring the last live ones, and the recorded count only on success |
| `Deployments.PreviousRelease` | internal/deployments/service.go:945-975 | the rollback target is a release of another deployment with a digest and no known failure, and none is returned only if none exists; it is the first (ServiceOutcomes.ReleaseChosen) |
| `Deployments.Service.RollbackTo` | internal/deployments/service.go:928-1035 | deploy the previous release, and only if that succeeds stop the old instances; what it leaves is ServiceOutcomes.RollbackRestores |
| `ServiceOutcomes.DispatchSucceedsExactly` | internal/deployments/service.go:703-790 | a dispatch succeeds if and only if some listed worker meets the rules for one slot and the deployment's labels, answers, and runs the container |
| `ServiceOutcomes.DispatchRecords` | internal/deployments/service.go:812-818 | a dispatch that succeeds adds one RUNNING record naming worker and container, and leaves every other |
| `ServiceOutcomes.DispatchStarts` | internal/deployments/service.go:759-787 | and a running container on that worker with the deployment's image and labels, the digest and the signature |
| `ServiceOutcomes.DispatchFails` | internal/deployments/service.go:710-810 | a dispatch that fails leaves a FAILED record on no worker, and changes no container, counter or route |
| `ServiceOutcomes.PipelineOutcome` | internal/deployments/service.go:618-878 | RUNNING with max(1, recorded count) new RUNNING records when all dispatches succeed, else FAILED; every container stamped with the image, digest and signature |
| `ServiceOutcomes.BuildOutcome` | internal/deployments/service.go:478-565 | what each way a build can end leaves of image, digest and status |
| `ServiceOutcomes.CreateSucceeds` | internal/deployments/service.go:403-615 | a create that succeeds is RUNNING with exactly max(1, count) RUNNING records and containers of the image that was built, and leaves all other deployments and records |
| `ServiceOutcomes.CreateFails` | internal/deployments/service.go:403-615 | a create that fails leaves the deployment FAILED; after a failed build no record or container was touched |
| `ServiceOutcomes.StopOutcome` | internal/deployments/service.go:881-925 | a stop leaves the deployment STOPPED and exactly its listed instances STOPPED |
| `ServiceOutcomes.ScaleRefused` | internal/deployments/service.go:1095-1110 | a scale to no replicas, or of a deployment that is absent or not RUNNING, changes nothing |
| `ServiceOutcomes.ScaleDownOutcome` | internal/deployments/service.go:1222-1266 | scaling down stops the last of the live instances, leaves the first ones as they were, and records the target |
| `ServiceOutcomes.ScaleUpOutcome` | internal/deployments/service.go:1139-1221 | scaling up adds the missing number of RUNNING records with containers of the same image and digest, and records the target only if all were started |
| `ServiceOutcomes.ReleaseChosen` | internal/deployments/service.go:950-970 | the release rolled back to is the first in the list that is another deployment's, has a digest, and whose deployment is not recorded FAILED |
| `ServiceOutcomes.RollbackRestores` | internal/deployments/service.go:928-1035 | a successful rollback leaves a RUNNING successor with that first release's image and digest and the old project, labels and count, its containers stamped with that image, digest and signature, and the old deployment ROLLED_BACK with its instances STOPPED |
| `ServiceOutcomes.RollbackRefused` | internal/deployments/service.go:938-975 | a rollback of an absent or already rolled back deployment, or without such a release, changes nothing |
| `ServiceOutcomes.RollbackFailsSafely` | internal/deployments/service.go:1013-1016 | a rollback whose successor cannot be started leaves the old deployment and its instances as they were |
| `Books.DispatchDoes` | internal/deployments/service.go:683-848 | a dispatch changes one record, and on success one counter and one route, of a registered feasible worker |
| `Books.DispatchGoesToFitWorker` | internal/deployments/service.go:703-725 | a dispatch that succeeds goes to a registered worker that meets every rule, in its fields |
| `Books.UnfitWorkerGetsNothing` | internal/workers/registry.go:248-272 | a draining, unschedulable, UNHEALTHY or full worker is given nothing |
| `Books.DispatchKeepsLedger` | internal/deployments/service.go:820-847 | a dispatch, failed or not, keeps every counter equal to the live records assigned, within capacity |
| `Books.RetireManyKeeps` | internal/deployments/service.go:1231-1256 | scaling down, whatever stops fail, keeps accounting and routing |
| `ServiceRuns.SchedulerPickFits` | internal/reconcile/loop.go:438-452 | the scheduler's answer over the registry's listing is a feasible registered worker |
| `ServiceRuns.UnfitWorkerIsNotPicked` | internal/reconcile/loop.go:438-452 | a migration never goes to a worker that is draining, unschedulable, UNHEALTHY or full |
| `ServiceRuns.MigrateKeepsLedger` | internal/reconcile/loop.go:464-480 | a migration moves one slot from the draining worker to the new one |
| `ServiceRuns.MigrationKeepsReplicas` | internal/reconcile/loop.go:426-510 | the replacement is started before the old container is stopped, is still running afterwards, an old container whose stop succeeds is gone, and no deployment's running records change |
| `ServiceRuns.RouterAgreesOverRuns` | internal/deployments/service.go:820-842 | after every operation of any run, even one that failed midway, each project's targets are exactly its running instances without duplicates |
| `ServiceRuns.AccountsBalanceOverRuns` | internal/deployments/service.go:1139-1266 | over any run of creating, scaling and migrating with partial failures, every counter equals the live assigned records and stays within capacity |
| `Placement.ScaleReachesTarget` | internal/deployments/service.go:1095-1272 | after a successful scale, live records = recorded count = target |
| `Placement.StopLeaksExactlyHeldSlots` | internal/deployments/service.go:892-911 | stopping leaves the books balanced if and only if no live instance held a slot |
| `Placement.StopAfterDispatchLeaks` | internal/deployments/service.go:892-911 | one instance dispatched and the deployment stopped leaves the books unbalanced |
| `Placement.CountIsOnWorker` | internal/deployments/repository.go:245-256 | the scheduler's count for a worker is the number of the deployment's records on it |
| `Placement.PlacementIsBalanced` | internal/deployments/service.go:683-848 | while a fresh deployment is placed, no worker ever holds more than one instance above any worker still feasible |
| `Routing.RoutesPointRightOverRuns` | internal/deployments/service.go:820-842 | over any run of creating, scaling, stopping and rolling back, every route names the worker its instance's record names |
| `Routing.MigrationPointsExactly` | internal/reconcile/loop.go:472-481 | after a migration routes still point right if and only if the instance had none |
| `Routing.RepairPointsExactly` | internal/reconcile/repair.go:180-190 | after a repair routes still point right if and only if the instance had none or stays on its worker |
| `Routing.FailedRepairMisroutes` | internal/reconcile/repair.go:155-178 | a routed instance whose container is gone and whose repair fails keeps its route |
| `Backing.RunningMeansBacked` | internal/deployments/service.go:618-1272 | over any run of creating, scaling, migrating, stopping and rolling back, with any calls failing, every RUNNING record has a running container under its key on its worker |
| `Backing.StopClears` | internal/deployments/service.go:892-911 | stopping takes down every container of the listed instances whose stop succeeds |
| `Backing.RetireClears` | internal/deployments/service.go:1240-1256 | scaling an instance away takes its container down if the stop succeeds, and adds none |
| `Backing.NewClusterFits` | internal/deployments/service.go:290-311 | a new cluster with idle workers meets the invariants of the run theorems |
| `Recovery.Stuck` | internal/deployments/recovery.go:69-83 | exactly the deployments in flight, each once |
| `Recovery.RecoveryEngine.StopVictims` | internal/deployments/recovery.go:221-241 | stopping the victims one by one, in any order, removes what their keys name |
| `Recovery.RecoveryEngine.CleanupPartialContainers` | internal/deployments/recovery.go:198-246 | the loop over workers skips unhealthy and silent ones and stops labelled containers by instance key |
| `Recovery.RecoveryEngine.RecoverDeployments` | internal/deployments/recovery.go:86-194 | world and report after recovery, status by status |
| `CrashSafety.WritesMakeDispatch` | internal/deployments/service.go:683-848 | the writes of one instance, uninterrupted, are the service's dispatch, whether it succeeds or fails |
| `PipelineWrites.WritesMakeCreate` | internal/deployments/service.go:403-878 | the machine refines the service: the writes of one pipeline taken without interruption, from creation through any way the build ends to the final status, are exactly the service's create, whatever fails |
| `PipelineWrites.WritesMakePipeline` | internal/deployments/service.go:618-878 | likewise from a queued image or a finished build to RUNNING or FAILED |
| `PipelineWrites.StatusWrite` | internal/deployments/service.go:403-865 | at which stage each status is written, which status it is, and which stage follows |
| `CrashSafety.StepKeepsInv` | internal/deployments/service.go:618-878 | every write of every interleaved pipeline keeps: no instance or container before STARTING, and keys that name only their deployment's containers |
| `CrashSafety.StepIsLegal` | internal/deployments/state_machine.go:23-53 | every status write of a pipeline follows the lifecycle table and begins at QUEUED |
| `RecoveryOutcomes.LifecycleIsForward` | internal/deployments/state_machine.go:23-65 | a move is legal exactly if it fails a deployment that is not final, stops or rolls back a RUNNING one, goes to the next stage, or skips the build |
| `CrashSafety.NewClusterFits` | internal/deployments/service.go:290-311 | a new cluster with no pipeline under way meets the crash invariant |
| `RecoverySafety.CleanUpDoes` | internal/deployments/recovery.go:198-246 | clean-up removes the deployment's containers from every healthy worker that answers, and no other container anywhere |
| `RecoverySafety.RecoverOneResolves` | internal/deployments/recovery.go:111-187 | whatever stage a deployment is in, it ends FAILED, without image and digest if it was BUILDING and with them otherwise, with all its records failed and everything else as it was |
| `RecoverySafety.CrashThenRecover` | internal/deployments/recovery.go:69-246 | whatever writes any pipelines have made, every deployment found QUEUED, BUILDING, BUILT, SCHEDULING or STARTING ends FAILED (a BUILDING one without image and digest), with no instance pending or running and no container on a healthy answering worker; every other is untouched; none is left in flight; only legal moves; and a second recovery does nothing |
| `RecoverySafety.ReportAddsUp` | internal/deployments/recovery.go:86-194 | the report accounts for every deployment found stuck exactly once |
| `RecoveryOutcomes.CleanUpExactly` | internal/deployments/recovery.go:198-246 | a clean-up stops exactly the containers labelled with the deployment whose worker is listed, HEALTHY and answers, by their instance keys, and counts each once |
| `RecoveryOutcomes.RecoverOneByStatus` | internal/deployments/recovery.go:111-187 | in any world, status by status: which records fail, which containers go, and that image and digest are cleared exactly for BUILDING |
| `RecoveryOutcomes.ReportIsTrue` | internal/deployments/recovery.go:86-194 | each counter of the report is the number of deployments found in the statuses it stands for, and the last the number of containers stopped |
| `RecoverySafety.RoutesAfterRecovery` | internal/deployments/recovery.go:144-180 | the router's table agrees with the records after recovery if and only if no instance of a deployment in flight was already routed |
| `RecoverySafety.CrashAfterRouteMisroutes` | internal/deployments/recovery.go:156-180 | a crash right after an instance was routed leaves a route that recovery does not take back |
| `RecoverySafety.AccountsAfterRecovery` | internal/deployments/recovery.go:156-180 | where counters were right up to records not yet counted, the books balance after recovery if and only if no live record of a deployment in flight had been counted |
| `Autoscaler.StaysWithinBounds` | internal/autoscaler/policy.go:66-125 | from a count within the bounds, any metric leads to a count within the bounds |
| `Autoscaler.DefaultsStandIn` | internal/autoscaler/policy.go:74-90 | one stands in for a minimum that is not positive, the minimum for a maximum below it or a count that is not positive, a tenth for the tolerance; without a positive target there is no action |
| `Autoscaler.AboveMaximum` | internal/autoscaler/policy.go:92-125 | a count above the maximum: brought down to it and called SCALE_UP under a high metric, kept within tolerance, lowered otherwise |
| `Autoscaler.EvaluateIsNextCount` | internal/autoscaler/policy.go:66-125 | for an even share of a constant load a decision goes to the nearest whole count on the other side, within bounds, or stays |
| `Autoscaler.RestsExactlyWhenNotOscillating` | internal/autoscaler/policy.go:66-125 | evaluation from any allowed count comes to rest if and only if the setting does not oscillate, and then within two steps |
| `Autoscaler.OneStepSuffices` | internal/autoscaler/policy.go:66-125 | one step suffices when floor(load/target) >= 1/tolerance |
| `Autoscaler.RestIsForever` | internal/autoscaler/policy.go:66-125 | at rest, every later evaluation returns the same count |
| `Autoscaler.OneAndAHalfAlternates` | internal/autoscaler/policy.go:66-125 | a load worth one and a half replicas alternates for ever |
| `Secrets.SecretService.constructor` | internal/secrets/kms.go:165-185 | a KMS with one master key, and data key version 1 generated under it |
| `Secrets.SecretService.PutSecret` | internal/secrets/store.go:110-145 | the value is stored sealed under the current data key with the next version number |
| `Secrets.SecretService.RotateKey` | internal/secrets/kms.go:105-124 | a new master key under the next version's name becomes current, or nothing changes when the KMS is down |
| `Secrets.SecretService.GenerateAndWrapKey` | internal/secrets/kms.go:187-209 | the data key is stored wrapped under the current master key |
| `Secrets.SecretService.ReWrapKeys` | internal/secrets/kms.go:239-256 | the loop re-wraps in the map's order up to the first error |
| `Secrets.SecretService.SnapshotForDeployment` | internal/secrets/store.go:194-220 | the loop copies the project's sealed secrets under the deployment |
| `Secrets.SecretService.GetSecretsForDeployment` | internal/secrets/store.go:223-242 | reading opens every secret of the deployment by name, or fails if one cannot be opened |
| `Secrets.SecretService.GetSecretsForProject` | internal/secrets/store.go:172-191 | likewise for a project |
| `SecretSafety.RotateNumbers` | internal/secrets/kms.go:117-121 | a rotation never reuses a master key name |
| `SecretOutcomes.RotationTakesOver` | internal/secrets/kms.go:105-124 | a rotation adds the new key under the next name and makes it current, keeping the others; without the KMS nothing changes |
| `SecretOutcomes.RotationDecidesWrapping` | internal/secrets/kms.go:187-209 | a data key generated after a rotation is wrapped under the new master key, and becomes current if its version is the highest |
| `SecretOutcomes.ReWrapIsComplete` | internal/secrets/kms.go:239-256 | a re-wrap over all versions succeeds if and only if the KMS answers every call made; then none is left under the old master key, those that were hold the same data key under the new one, and the others are as they were |
| `SecretOutcomes.OldMasterCanGo` | internal/secrets/kms.go:239-256 | so once it has completed, the old master key can be destroyed and every version still reads as its data key |
| `SecretSafety.ApplyKeeps` | internal/secrets/kms.go:105-256 | every operation keeps data keys properly wrapped and secrets properly sealed, and changes no data key's meaning |
| `SecretSafety.GeneratedKeySurvives` | internal/secrets/kms.go:187-256 | after any run of rotations, re-wraps (even ones stopped by an error), generations and outages, a version reads as the key first generated for it |
| `SecretSafety.NewVaultFits` | internal/secrets/kms.go:42-54 | the vault the constructors build meets the invariant, before and after they generate version 1 |
| `SecretSafety.FirstKeySurvives` | internal/secrets/kms.go:165-185 | the version the constructor generates reads as its key after any run |
| `SecretSafety.ReusedVersionBreaks` | internal/secrets/kms.go:187-209 | generating a version already in use keeps its meaning if and only if the key is the same |
| `SecretSafety.SnapshotReadsAsProject` | internal/secrets/store.go:194-220 | a fresh snapshot reads as the project does |
| `SecretSafety.SnapshotIsFrozen` | internal/secrets/store.go:194-242 | whatever is set, rotated, re-wrapped, generated or snapshot for others afterwards, the snapshot reads as the project's secrets did when it was taken |
| `SecretSafety.DeploymentReadsWhatProjectRead` | internal/secrets/store.go:172-242 | what the deployment reads at any later moment is what the project read when the snapshot was taken |
| `SecretSafety.KeyInjective` | internal/secrets/store.go:125 | a colon-free owner and a name are recovered from their map key |
| `SecretSafety.SharedExactlyWithColon` | internal/secrets/store.go:125 | a secret's map key is shared with another owner if and only if there is a colon in its owner's ID or its name |
| `SecretSafety.SharedKeyReplaces` | internal/secrets/store.go:110-145 | of two different secrets set one after the other, the first is still held exactly if they do not share a map key |
| `SecretOutcomes.SetSecretOutcome` | internal/secrets/store.go:110-145 | a secret is set exactly if the current data key can be read: sealed under it, under the next version number of its name, reading back as given, with nothing else changed |
| `SecretOutcomes.NewestKeySeals` | internal/secrets/store.go:110-145 | a data key of a new highest version is what secrets are sealed under from then on |
| `SecretOutcomes.ReusedVersionLosesSecrets` | internal/secrets/kms.go:187-209 | generating a used version anew leaves a secret sealed under it readable if and only if the key is the same |
| `SecretOutcomes.SnapshotCopiesRecords` | internal/secrets/store.go:194-220 | a snapshot copies each of the project's secrets whole, and no other |
| `SecretSafety.ColonsCollide` | internal/secrets/store.go:125 | a concrete pair of secrets that share a map key |
| `Audit.SortIgnoresOrder` | internal/observability/audit.go:55-59 | whatever order the map yields its keys in, they sort to the same list |
| `Audit.AuditRepository.ComputeHash` | internal/observability/audit.go:54-79 | the hash is that of the canonical text, whatever order the map yields its keys in |
| `Audit.AuditRepository.Append` | internal/observability/audit.go:105-138 | the entry links to the tip and carries the hash of its own text |
| `Audit.AuditRepository.VerifyChain` | internal/observability/audit.go:182-205 | accepts exactly the logs whose entries all link and hash, and otherwise names the first fault and its kind |
| `Audit.AppendedLogsVerify` | internal/observability/audit.go:105-138 | every log built by appending is accepted |
| `Audit.LogHoldsRecords` | internal/observability/audit.go:105-138 | a log built by appending holds every record's fields at its place, in the order they came |
| `Audit.AcceptedByFields` | internal/observability/audit.go:182-205 | a log is accepted exactly if each entry carries its place, the hash of the entry before (64 zeros for the first), and the hash of its own text |
| `Audit.CanonicalOfTwo` | internal/observability/audit.go:54-65 | two details read as two key=value pairs joined by &, the lesser key first |
| `Audit.CanonicalInjective` | internal/observability/audit.go:54-65 | the sorted key=value encoding is injective on details with no `=` or `&` in keys and no `&` in values |
| `Audit.TwinExactlyWhenAmbiguous` | internal/observability/audit.go:54-65 | details share their canonical form with others if and only if they have two or more entries or an `=` in their only entry |
| `Audit.CleanRawInjective` | internal/observability/audit.go:67-75 | of two entries both free of separators, equal hashed text means equal fields |
| `Audit.CleanLogsAreBound` | internal/observability/audit.go:182-205 | with a collision-free hash, two accepted logs both free of separators and of the same length and tip are the same log |
| `Audit.CleanAppendedLogIsBound` | internal/observability/audit.go:105-138 | so an accepted log free of separators with the length and tip of an appended one that is too is that log |
| `AuditTampering.RawInjective` | internal/observability/audit.go:67-75 | the hashed text of an entry that cannot be forged determines every field against any other entry whatever, both following bar-free hashes |
| `AuditTampering.ForgeLog` | internal/observability/audit.go:182-205 | an accepted log with a forgeable entry has a different accepted log of the same length and tip |
| `AuditTampering.BoundExactlyWhenUnforgeable` | internal/observability/audit.go:182-205 | with a collision-free, bar-free hash, an accepted log is the only accepted one of its length and tip if and only if none of its entries is forgeable; nothing is asked of the other log |
| `AuditTampering.AppendedLogIsBound` | internal/observability/audit.go:105-138 | a log built by appending is bound by its length and tip if and only if no record appended is forgeable, which can be checked before appending |
| `Audit.SeparatorsCollide` | internal/observability/audit.go:61-65 | a concrete pair of details with the same canonical form |
| `Idempotency.StepKeepsInv` | internal/api/idempotency.go:42-88 | every lock, memory and channel operation of every request keeps the entry in step with its executor's progress |
| `Idempotency.IdempotencyHolds` | internal/api/handlers_deployments.go:19-104 | over any interleaving of any number of requests, per key exactly one executes, its channel is closed at most once, and every other caller returns exactly the stored status, headers and body |
| `Idempotency.SomeoneCanMove` | internal/api/idempotency.go:60-88 | no request is ever stuck: it can move, or its executor can |
| `Objects.Registry.FindWorker` | internal/workers/registry.go:368-376 | lookup by key first, then by ID |
| `Objects.Registry.UpdateWorkload` | internal/workers/registry.go:353-366 | moves the counter of the named worker, not below zero, and no other's, in both indexes at once |
| `Objects.Registry.Register` | internal/workers/registry.go:66-126 | in the fields: a known key keeps its ID and counter, a new one is added under both indexes; either way READY, HEALTHY and schedulable with the announced capacity and labels; bad announcements change nothing |
| `Objects.Registry.Drain` | internal/workers/registry.go:248-272 | the worker by that key, or else by that ID, becomes draining and unschedulable, no other changes |
| `Objects.Router.RegisterTarget` | internal/loadbalancer/router.go:82-121 | the rebuilt target list is the old one without the instance, then the instance |
| `Objects.Router.UnregisterTarget` | internal/loadbalancer/router.go:124-136 | the rebuilt target list is the old one without the instance |
| `Objects.IdempotencyStore.GetOrReserve` | internal/api/idempotency.go:42-56 | the first caller for a key gets a new open entry and is told to execute; later callers get that entry |
| `Objects.IdempotencyStore.Complete` | internal/api/idempotency.go:60-78 | stores the response and closes the key's entry, and touches no other |

## Left out

- Dashboard, CLI, HTTP routing and middleware, gRPC and generated code, configuration, logging, tracing, metrics and events: plumbing.
- Postgres repositories, PostgresAdvisoryLock, the Docker client, remote KMS and registry clients, image building: foreign services; a build is an outcome, workers behave as the in-repo worker client (run replaces by instance key, stop removes).
- AES-GCM, SHA-256, signing, PKI, WAF: ciphertexts are symbolic and carry no nonce, the hash is any function (collision-free where stated).
- Floating point: utilization and autoscaler arithmetic are over rationals and reals, without rounding.
- Election.ElectionIsSafe: assumes distinct non-empty owner IDs, that an elector relying on a grant is within the lease whenever a step is taken, and that a release is quiet; both conditions are shown necessary.
- Election: a lost or delayed reply from the lock, and the promotion and demotion callbacks.
- StableSort.SortInPlace: models the insertion phase of the library's stable sort, which is all of it up to twenty elements; the merge of longer blocks is not modelled (below the threshold Scheduler.AnySortRanks makes the algorithm irrelevant).
- Scheduler.Rank: rests on that sort for comparators beyond the threshold.
- Scheduler: the policy switch other than spreading, which the ranking does not use.
- Reconcile.Reconciler.ReconcileOnce: cycle timeouts, service discovery, and the contents of environment variables and ports are not modelled; which workers could be listed is part of the environment's container list.
- Convergence.OnePassConverges: assumes unique non-empty instance names that are not container IDs, and new container IDs that are no instance's name.
- ReconcileSafety.UnknownContainersSurvive: assumes container IDs apart from instance keys and instance keys filled from the label, as workers list them.
- ServiceRuns.RouterAgreesOverRuns: assumes target URLs parse; a target's URL is the worker it names, without port; projects with an empty ID have no targets; recovery, repair and prune are not among the operations (see RecoverySafety.RoutesAfterRecovery, Convergence.RepairKeepsRoutesExactly and Convergence.PruneKeepsRoutes).
- ServiceRuns.AccountsBalanceOverRuns: operations run one at a time; stop, rollback, prune and rescheduled repair do not call UpdateWorkload and are not among the operations.
- Backing.RunningMeansBacked: assumes instance keys that differ from one another and from container IDs, and new names that are new.
- Deployments: the project lock, leadership check, secret injection, release and event records; concurrent placements for different projects.
- Cluster: workers are keyed by ID; Objects.Registry shows that the registry's two indexes give that view.
- CrashSafety.StepKeepsInv: assumes new deployment, instance and container names do not clash (instance keys are built from the first eight characters of the deployment ID).
- PipelineWrites.WritesMakeCreate: assumes the deployment's name and every instance's names are new when their turn comes, as the machine does.
- RecoverySafety.CrashThenRecover: repository writes during recovery succeed, as in memory they do; the resume policy is not implemented by the source.
- Recovery: legality of Stop and Rollback status writes from arbitrary states, which the service does not check.
- Worker health transitions, heartbeats, and the service registry's indexes.
- SecretSafety.SnapshotIsFrozen: assumes colon-free deployment and project IDs and a KMS that is up when reading.
- Audit, AuditTampering: timestamps are their formatted text, so a forged one need not be a time; the unsigned 64-bit index does not wrap.
- Idempotency.IdempotencyHolds: handlers do not panic; requests without a key are not deduplicated.
