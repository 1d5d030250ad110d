# Firkin in Dafny

A model of the logic of Firkin that keeps state, plans or transforms, with proofs over all inputs and all runs.

**Admission control** (`Budgets`, `Keys`, `OrderedQueues`, `Capacity`, `WarmPool`, `AdmissionRuns`,
`Shelves`, `AdmissionReference`, `ActiveAdmission`, `Replenishment`; `Wrappers` holds the small shared values). The
capacity ledger and the warm pool are classes; each method is tied to a transition function on values that holds
in every state, coupled or not. The coupling invariant (the warm counter is the exact total of the pooled budgets,
nothing is over-committed, no empty queue is stored, keys are sorted, every entry is filed under its own key) is
kept by every operation. The main results are the run theorems `EveryRunIsConsistent`, `EveryRunIsFifo` and
`EveryRunMatchesReference`, the planner theorems `PlanPredictsExecutor`, `BackpressureClosedForm` and
`PlanIsGreedyPartition`, and `ReplanningIsIdle`.

**Runtime use of it** (`RuntimePool`, `RuntimeRuns`). Restored sessions are kept in a second ordered map beside
the pool. The session map stays a mirror of the pool on every run, a replenishment pass with arbitrary launch
failures never fails in the ledger, and an admitted request never fails to reserve. Two objects of the runtime
keep such a map: the snapshot warm pool (maintain, checkout, replenish) and the adapter's state (admission with
evictions). The run theorem mixes the operations of both on one state, so the runs of either object are those
that use only its own operations.

**Mounts** (`MountPaths`, `MountOrder`). Destinations are strings; splitting, normalising and rendering are
modelled on characters. Normalising keeps the place a path names. The arrangement mounts parents
first among absolute destinations, and it is proved exactly which destinations always come before what lies below.

**Profile summary** (`SymbolLookup`, `StackWalk`, `ProfileSummary`, `ProfileRun`, `ProfileInput`). Symbol search against
a linear scan, stack walking over cyclic tables, and counters against declarative sums, joined into the whole
summary, whose every counter is a sum over the rows of the input. Weights are real numbers.

**Soak runner, start gate, escaping** (`SoakRunner`, `StartGate`, `XmlEscape`). The backend's and the guest's
answers are parameters, so every statement holds for every pattern of failures; the gate is a state machine
over any interleaving of containers, in which each container runs its own retry loop.

## Findings

- A refused `checkout` would lose the popped entry. `RefusedCheckoutLosesEntry` says exactly when that happens,
  and `CheckoutKeeps` that it cannot happen while pool and ledger are in step.
- `evict_until_available` would not end on a pool whose first queue is empty (`EvictionPassProgress`). No
  operation ever stores an empty queue.
- Parent mounts come first among absolute destinations (`ParentsComeFirst`), but not in general. A mount on `.` or
  `..` declared after one on a child stays after it, and one on `../..` comes last even when declared first
  (`CurrentDirectoryHidesChild`, `ParentDirectoryHidesChild`, `GrandparentDirectoryComesLast`); an absolute mount
  can also end up over a relative one. `AlwaysFirstIff` is exact: a destination comes before everything below it,
  for every other mount, declaration order and starting directory, if and only if it is the root or a relative
  path whose normal parts are non-empty and do not start with `..`.
- The symbol search misses a covering symbol when three or more later symbols start at or below the address
  (`NestedSymbolsAreMissed`); `SearchAgreesIff` is the exact condition at one address and `SearchAgreesEverywhereIff`
  the one on the table. Disjoint ranges always meet it.
- Two stages with one name that contain the same sample charge it twice (`OverlappingNamesDoubleCount`);
  `StageIsTally` gives the exact multiplicity, and `StageIsWithinRunIff` says that stage counters stay within the
  run's for all samples if and only if no two stages of the name overlap.
- A saved snapshot's deletion is asked for if and only if its source sandbox could be deleted first
  (`SavedSnapshotFate`); over a run the missing deletions are exactly the stuck sources (`SnapshotsAskedBack`).

## Model

| member | source | states |
|---|---|---|
| `Budgets.Add` | crates/admission/src/budget.rs:36-45 | budget addition saturates in all three dimensions (sizes too, see crates/types/src/lib.rs:800-806) and is exact if and only if the true sum is representable |
| `Budgets.Sub` | crates/admission/src/budget.rs:46-55 | budget subtraction saturates at zero and is exact if and only if the true difference is representable |
| `Budgets.AddIsGreatest` | crates/admission/src/budget.rs:36-45 | a saturating sum is the greatest representable amount not above the true sum, so it admits exactly the requests the true sum admits |
| `Budgets.SubIsLeast` | crates/admission/src/budget.rs:46-55 | a saturating difference is the least representable amount not below the true difference |
| `Budgets.Shortfall` | crates/admission/src/active.rs:200-223 | reports an error exactly when the request does not fit |
| `Budgets.ShortfallIsFirst` | crates/admission/src/active.rs:200-223 | the error names the first short dimension in the order CPU, memory, disk, with both numbers |
| `Capacity.AvailableIsExact` | crates/admission/src/capacity.rs:41-48 | in a solvent ledger neither the sum nor the difference behind `available` saturates |
| `Capacity.ReserveIsExact` | crates/admission/src/capacity.rs:54-75 | both reservations are admitted exactly when the exact total stays within capacity, and then change exactly one counter |
| `Capacity.CapacityLedger.constructor` | crates/admission/src/capacity.rs:17-23 | a new ledger has the given capacity and no reservations |
| `Capacity.CapacityLedger.ReserveActive` | crates/admission/src/capacity.rs:54-61 | in every state: the error and the whole new ledger are those of the transition function that the run and reference theorems are about |
| `Capacity.CapacityLedger.ReserveWarmPool` | crates/admission/src/capacity.rs:67-74 | the same for a warm reservation |
| `Capacity.CapacityLedger.ReleaseActive` | crates/admission/src/capacity.rs:76-78 | the same for a release of active resources, saturation included |
| `Capacity.CapacityLedger.ReleaseWarmPool` | crates/admission/src/capacity.rs:80-82 | the same for a release of warm resources, saturation included |
| `Capacity.CapacityLedger.PromoteWarmPoolToActive` | crates/admission/src/capacity.rs:89-114 | the same for a promotion: an error and no change when the warm counter does not cover the budget |
| `Capacity.CapacityLedger.CheckAvailable` | crates/admission/src/capacity.rs:115-136 | no error if and only if the request fits what is available; otherwise the first short dimension with both numbers |
| `Keys.KeyTransitive` | crates/admission/src/warm_pool.rs:12-18 | the derived key order is transitive |
| `Keys.KeyTotal` | crates/admission/src/warm_pool.rs:12-18 | the derived key order is total |
| `Keys.KeysAreInFieldOrder` | crates/admission/src/warm_pool.rs:12-18 | the key order is that of the fields, both ways: the first of repository, template and runtime profile in which two keys differ decides |
| `Keys.PrefixComesFirst` | crates/admission/src/warm_pool.rs:12-18 | a text comes before every longer text that it starts |
| `Keys.FirstDifferenceDecides` | crates/admission/src/warm_pool.rs:12-18 | texts that agree up to a position and differ there compare as their characters there do |
| `WarmPool.WarmPoolLedger.Maintain` | crates/admission/src/warm_pool.rs:93-104 | in every state of pool and ledger: reserve first, then queue the entry at the back of its key |
| `WarmPool.WarmPoolLedger.Checkout` | crates/admission/src/warm_pool.rs:110-127 | in every state: the pop happens before the promotion, and an emptied or empty queue is removed |
| `WarmPool.WarmPoolLedger.Expire` | crates/admission/src/warm_pool.rs:129-141 | in every state: the oldest entry of the key is removed and its reservation released |
| `WarmPool.WarmPoolLedger.Contains` | crates/admission/src/warm_pool.rs:144-148 | true if and only if something is queued under the key |
| `WarmPool.WarmPoolLedger.Count` | crates/admission/src/warm_pool.rs:151-153 | the number of entries queued under the key |
| `WarmPool.WarmPoolLedger.EvictUntilAvailable` | crates/admission/src/warm_pool.rs:158-176 | terminates on every pool without an empty queue and computes the eviction function that EvictionIsShortestPrefix and the reference theorem describe |
| `WarmPool.EvictionPassProgress` | crates/admission/src/warm_pool.rs:163-173 | one pass of the eviction loop removes an entry if and only if the first queue is not empty; otherwise it changes nothing, so the loop would never end |
| `WarmPool.RefusedCheckoutLosesEntry` | crates/admission/src/warm_pool.rs:110-127 | in any state a checkout is refused if and only if the head entry exceeds the warm counter, and then the entry is already gone |
| `WarmPool.MaintainKeeps` | crates/admission/src/warm_pool.rs:93-104 | keeps pool and ledger in step; succeeds exactly when the budget fits; a failure changes nothing; only the entry's key changes |
| `WarmPool.CheckoutKeeps` | crates/admission/src/warm_pool.rs:110-127 | in step, a checkout is never refused, moves exactly the head entry's budget from warm to active, and touches one key only |
| `WarmPool.ExpireKeeps` | crates/admission/src/warm_pool.rs:129-141 | in step, an expiry lowers the warm counter by exactly the head entry's budget and touches one key only |
| `WarmPool.EvictKeeps` | crates/admission/src/warm_pool.rs:158-176 | eviction keeps pool and ledger in step, and capacity and active as they were |
| `WarmPool.FlattenDetermines` | crates/admission/src/warm_pool.rs:84-86 | a valid pool is determined by its key-ordered, oldest-first listing |
| `AdmissionRuns.EveryRunIsConsistent` | crates/admission/src/capacity.rs:41-114 | on every run: capacity fixed, warm counter = pooled budgets, active counter = held reservations, both exact and together within capacity |
| `AdmissionRuns.DeniedChangesNothing` | crates/admission/src/warm_pool.rs:93-127 | in every reachable state a denied operation changes nothing, and a checkout is never denied |
| `AdmissionRuns.EveryRunIsFifo` | crates/admission/src/warm_pool.rs:93-176 | on every run and for every key: entries taken, in order, followed by those still queued, are the entries successfully maintained |
| `AdmissionReference.EveryRunMatchesReference` | crates/admission/src/warm_pool.rs:87-177 | on every run all replies equal those of a reference with one arrival-ordered list, no counters and unbounded arithmetic |
| `Shelves.LeastKeyIsLeast` | crates/admission/src/warm_pool.rs:168-170 | the reference's eviction key is on the shelf and no key there is smaller |
| `ActiveAdmission.PlanAdmission` | crates/admission/src/active.rs:25-49 | the nested loops with their labelled break compute the plan that the next rows describe, for any pool and ledger |
| `ActiveAdmission.PlanIsShortestPrefix` | crates/admission/src/active.rs:25-49 | in every state, saturation included: the plan gives up the shortest prefix that makes room by exact sums, or everything; error if and only if that is not enough |
| `ActiveAdmission.PlanPredictsExecutor` | crates/admission/src/active.rs:25-49 | in step: the planned evictions are entry by entry what eviction removes, and the plan's error is exactly what the reservation then answers |
| `ActiveAdmission.EvictionIsShortestPrefix` | crates/admission/src/warm_pool.rs:154-176 | eviction removes the shortest prefix of the key-ordered listing that makes room, or all, and keeps the rest in order |
| `ActiveAdmission.EvictionFollowsKeys` | crates/admission/src/warm_pool.rs:158-176 | in step, planned and real evictions go by repository, then template, then runtime profile, and no entry kept comes before one given up |
| `ActiveAdmission.AdmittedIffActiveLeavesRoom` | crates/admission/src/active.rs:11-15 | warm inventory never blocks active work: admitted if and only if the request fits capacity minus active |
| `ActiveAdmission.PlanBackpressure` | crates/admission/src/active.rs:128-173 | computes the backpressure plan that the closed form describes, for any pool and ledger |
| `ActiveAdmission.BackpressureClosedForm` | crates/admission/src/active.rs:128-173 | when a request is admitted, queued (and where), refused as oversized or refused for a full queue, with the evictions and numbers reported |
| `ActiveAdmission.QueuedIsAdmittedOnceIdle` | crates/admission/src/active.rs:107-111 | a queued request is admitted after any further run that ends with no reservation held |
| `ActiveAdmission.ReleasingAllIsIdle` | crates/admission/src/capacity.rs:76-78 | releasing one reservation after another gets there |
| `ActiveAdmission.OversizedForever` | crates/admission/src/active.rs:93-104 | an oversized request stays oversized, with the same error, after every further run |
| `Replenishment.PlanReplenishment` | crates/admission/src/replenish.rs:98-129 | the loop computes the plan that the next rows describe, for any pool and ledger |
| `Replenishment.PlannedIsExact` | crates/admission/src/replenish.rs:105-126 | in every state the planned total is exact and within availability, so nothing in the planner saturates |
| `Replenishment.PlanIsGreedyPartition` | crates/admission/src/replenish.rs:98-129 | the plan is an order-preserving partition into maintained and skipped, chosen greedily by exact arithmetic; each capacity skip records what earlier targets left |
| `Replenishment.GreedyIsUnique` | crates/admission/src/replenish.rs:98-129 | there is only one greedy choice, so the description determines the plan |
| `Replenishment.PlanIsMaximal` | crates/admission/src/replenish.rs:98-129 | every target is warm, scheduled, or too large for what the whole plan leaves |
| `Replenishment.SkippedNeverFitsLater` | crates/admission/src/replenish.rs:115-124 | no target skipped for capacity fits what is left at the end |
| `Replenishment.ReplanningIsIdle` | crates/admission/src/replenish.rs:98-129 | running a plan never meets a capacity error, and planning again for the same targets, duplicate keys included, schedules nothing |
| `RuntimePool.SnapshotWarmPool.Maintain` | crates/runtime/src/warm_pool.rs:423-461 | disk probe, launch, ledger, session, in that order; the session is kept only if the ledger accepts the entry |
| `RuntimePool.SnapshotWarmPool.Checkout` | crates/runtime/src/warm_pool.rs:467-501 | promotion first, then the session; a missing session gives the promoted resources back |
| `RuntimePool.SnapshotWarmPool.Replenish` | crates/runtime/src/warm_pool.rs:517-552 | plans, then restores each planned target, and reports maintained, skipped and failed |
| `RuntimePool.AdapterState.Admit` | crates/runtime/src/adapter.rs:441-519 | one pass: plan, replay the planned evictions key by key with their sessions, reserve; or take a place in the queue, refused when it is full by then; or reject |
| `RuntimePool.WaitsIff` | crates/runtime/src/adapter.rs:499-514 | exactly when a request waits; when the queue has not grown since the plan, taking the place is never refused |
| `RuntimePool.HostMaintainKeeps` | crates/runtime/src/warm_pool.rs:423-461 | a restored session is kept exactly when its budget fits; otherwise nothing changes; the session map stays a mirror of the pool |
| `RuntimePool.HostCheckoutKeeps` | crates/runtime/src/warm_pool.rs:467-501 | in step, a checkout hands out the oldest session with its own entry and never misses a session |
| `RuntimePool.PassFailsOnlyOutside` | crates/runtime/src/warm_pool.rs:517-552 | for every pattern of failing probes and launches, a replenishment pass fails only where the outside failed, never in the ledger |
| `RuntimePool.ReplayIsEviction` | crates/runtime/src/adapter.rs:460-489 | expiring the planned keys one by one is exactly the executor's eviction, and drops exactly the sessions of the evicted entries, in order |
| `RuntimePool.AdmitIsSound` | crates/runtime/src/adapter.rs:441-519 | admitted if and only if active work leaves room; the reservation then never fails; a request not admitted changes nothing |
| `RuntimePool.AdmitAnswersExactly` | crates/runtime/src/adapter.rs:441-519 | the whole answer from what the request met: the sessions of the shortest prefix that makes room, the shortage against capacity, a full queue with the numbers of the plan, or the order to wait |
| `RuntimePool.KeepAnswersExactly` | crates/runtime/src/warm_pool.rs:423-461 | the whole answer to keeping a session, with the target's own key, manifest id and budget or the first shortage; a kept one goes to the back of its own key and nowhere else |
| `RuntimePool.MissingSessionGivesBack` | crates/runtime/src/warm_pool.rs:467-501 | out of step: a checkout whose session is missing leaves the active counter as it was |
| `RuntimeRuns.EveryRunIsOrderly` | crates/runtime/src/warm_pool.rs:363-552 | on every run of the runtime: sessions mirror the pool, counters are exact, and every reply is, as a whole, the one fixed by what its operation met; none is an internal error (missing session, refused promotion, failed reservation, replenishment failing in the ledger) |
| `MountPaths.NormalizeMountDestination` | crates/core/src/builder.rs:1695-1731 | the loop over components computes the normal text the next rows describe |
| `MountPaths.NormalizedForm` | crates/core/src/builder.rs:1695-1731 | absolute results hold no `.` and no `..`; relative results are a run of `..` followed by names; absoluteness is kept |
| `MountPaths.NormalizeIdempotent` | crates/core/src/builder.rs:1695-1731 | normalising twice is normalising once |
| `MountPaths.NormalizeKeepsMeaning` | crates/core/src/builder.rs:1695-1731 | from every starting directory the normalised path leads to the same place |
| `MountPaths.AbsoluteIsCanonical` | crates/core/src/builder.rs:1719-1725 | an absolute path normalises to the text of the place it names |
| `MountPaths.RenderRoundTrip` | crates/core/src/builder.rs:1719-1730 | joining parts and splitting the text again gives the parts back |
| `MountPaths.ComponentsConcat` | crates/core/src/builder.rs:1695-1718 | a slash separates the components before it from those after it |
| `MountPaths.ComponentsOfPiece` | crates/core/src/builder.rs:1695-1718 | a text without slashes is one component, or none when it is empty or `.` |
| `MountPaths.ResolveByPieces` | crates/core/src/builder.rs:1695-1718 | the place a path names, piece by piece: from the directory or the root, each piece stays, goes to the parent or goes down by its name |
| `MountOrder.CleanAndSortMounts` | crates/core/src/builder.rs:1683-1694 | computes the arrangement the next rows describe |
| `MountOrder.ArrangementIsStableDepthSort` | crates/core/src/builder.rs:1683-1694 | every mount exactly once with only its destination normalised, in non-decreasing depth, in declaration order within a depth |
| `MountOrder.SortIsUnique` | crates/core/src/builder.rs:1692-1692 | only one sequence of the same elements is ordered by the sort key |
| `MountOrder.DepthOfRendered` | crates/core/src/builder.rs:1732-1737 | the depth of a normalised destination is its number of parts, except that `.` counts as one |
| `MountOrder.ParentsComeFirst` | crates/core/src/builder.rs:1683-1694 | among absolute destinations, a mount comes after all mounts on places above it, and mounts on one place keep declaration order, however written |
| `MountOrder.PrefixIsShallowerIff` | crates/core/src/builder.rs:1732-1737 | a proper prefix has the smaller depth if and only if it is not the current directory over a direct child |
| `MountOrder.AlwaysFirstIff` | crates/core/src/builder.rs:1683-1694 | a destination is arranged before every mount below it, for all mounts, orders and starting directories, if and only if it is the root, or relative with non-empty normal parts that do not start with `..` |
| `MountOrder.RelativeOrder` | crates/core/src/builder.rs:1683-1694 | any two relative destinations are ordered by number of normal parts, `.` counting as one, then by declaration |
| `MountOrder.CurrentDirectoryHidesChild` | crates/core/src/builder.rs:1683-1694 | a mount on `.` declared after one on a child stays after it although it lies above, from every directory |
| `MountOrder.ParentDirectoryHidesChild` | crates/core/src/builder.rs:1683-1694 | so does a mount on `..` |
| `MountOrder.GrandparentDirectoryComesLast` | crates/core/src/builder.rs:1683-1694 | a mount on `../..` comes after one on a child in either declaration order |
| `SymbolLookup.ResolveSymbol` | scripts/samply-hot.py:168-185 | binary search plus window returns the last covering symbol among the one after the bound and the three before it, or none |
| `SymbolLookup.SearchIsExact` | scripts/samply-hot.py:168-185 | on starts and sizes alone: a symbol is returned if and only if it is the last with the address in its bytes and the third one after it does not start at or below the address |
| `SymbolLookup.SearchAgreesIff` | scripts/samply-hot.py:168-185 | for any sorted symbols the search agrees with the linear scan if and only if the scan finds nothing or fewer than three later symbols start at or below the address |
| `SymbolLookup.SearchAgreesEverywhereIff` | scripts/samply-hot.py:168-185 | search and scan agree at all addresses if and only if every address that a symbol covers, and at or below which the third symbol after it starts, is covered by some later symbol too |
| `SymbolLookup.SearchFindsTheCoveringSymbol` | scripts/samply-hot.py:168-185 | on disjoint ranges the search finds exactly the covering symbol, or none |
| `SymbolLookup.NestedSymbolsAreMissed` | scripts/samply-hot.py:181-184 | a long symbol with three short ones inside it before the address is missed |
| `StackWalk.StackFrames` | scripts/samply-hot.py:232-249 | terminates on every table with one frame per row of a longest chain, resolved from the row's own entry in the frame column |
| `StackWalk.WalkIsLongestChain` | scripts/samply-hot.py:232-249 | on the columns themselves: the rows visited have frames, each is the prefix entry of the one before, none repeats, and whatever row comes next is repeated or has no frame |
| `StackWalk.ChainsArePrefixes` | scripts/samply-hot.py:232-249 | every chain from the same start is a prefix of a longest one, so it is unique |
| `StackWalk.WalkIsBounded` | scripts/samply-hot.py:232-249 | at most one frame per table row |
| `ProfileSummary.AddToEach` | scripts/samply-hot.py:458-470 | adding to each key of a set, in any order, adds the weight once per key |
| `ProfileSummary.CountersAreSums` | scripts/samply-hot.py:445-470 | all four counters equal their declarative sums, each sample counted once |
| `ProfileSummary.CountersAreNested` | scripts/samply-hot.py:445-470 | leaf <= inclusive <= inclusive of the group <= total, for non-negative weights |
| `ProfileSummary.LeafIsConserved` | scripts/samply-hot.py:445-457 | the leaf counter distributes the whole weight and the grouped leaf counter is its exact regrouping |
| `ProfileRun.Summarize` | scripts/samply-hot.py:426-507 | the nested loops over threads, samples and stages compute the summary of exactly the zipped, walked and filtered samples |
| `ProfileRun.SummaryIsTally` | scripts/samply-hot.py:436-470 | sample count, total weight and run counters are those of all samples and all non-empty stacks |
| `ProfileRun.StageIsTally` | scripts/samply-hot.py:471-507 | a stage's counters and weight are those of the hits charged to its name, once per stage of that name containing the time |
| `ProfileRun.SummaryIsSound` | scripts/samply-hot.py:436-470 | every counter of a summary lies between zero and the total weight, nested by kind |
| `ProfileRun.StageIsWithinRunIff` | scripts/samply-hot.py:471-507 | in every summary of non-negative samples the stage's weight and all four of its counters are at most the run's, if and only if no two stages of that name overlap |
| `ProfileRun.OverlappingNamesDoubleCount` | scripts/samply-hot.py:471-476 | two stages of one name around one sample show twice the run's weight |
| `ProfileInput.FilterKeepsShown` | scripts/samply-hot.py:441-452 | the filtered stack is exactly the keys of the shown frames, in order |
| `ProfileInput.SampleIsRow` | scripts/samply-hot.py:433-452 | a sample is read for a row if and only if no column ends before it, with the row's own weight (one when missing or zero), its time and its filtered frames |
| `ProfileInput.SamplesListRows` | scripts/samply-hot.py:428-436 | every row of every selected thread is a sample, after those of earlier threads and in its own place |
| `ProfileInput.SummaryCountsRows` | scripts/samply-hot.py:428-470 | all four run counters as sums over the (thread, row) pairs of the input, by first shown frame or any shown frame of the row's chain |
| `ProfileInput.StageCountsRows` | scripts/samply-hot.py:471-507 | the same for a stage name, each row once per stage of that name around its time |
| `ProfileInput.TotalsCountRows` | scripts/samply-hot.py:436-476 | number of samples, total weight and stage weight as sums over the input rows |
| `SoakRunner.Runner.RecordResult` | crates/benchmark/src/soak.rs:236-247 | one saturating attempt, and one saturating failure on an error, in place |
| `SoakRunner.Runner.RecordCleanup` | crates/benchmark/src/soak.rs:248-275 | attempt first, then the deletions in order, then one failure if any failed |
| `SoakRunner.Runner.RecordFailure` | crates/benchmark/src/soak.rs:276-280 | one attempt and one failure |
| `SoakRunner.Runner.RunIteration` | crates/benchmark/src/soak.rs:145-235 | the calls and counters of one iteration, for every pattern of answers |
| `SoakRunner.Runner.Run` | crates/benchmark/src/soak.rs:115-135 | the loop runs at least once and numbers iterations with saturation |
| `SoakRunner.CountersAreExact` | crates/benchmark/src/soak.rs:115-280 | on every run each counter is the true number of attempts or failures, cut off at the largest value |
| `SoakRunner.AttemptsChain` | crates/benchmark/src/soak.rs:145-235 | each step is attempted as often as the one before succeeded; restore also loses source-delete failures; create and cleanup count every iteration |
| `SoakRunner.RecordedCountersChain` | crates/benchmark/src/soak.rs:145-235 | the same on the recorded counters, for every run too short to saturate them |
| `SoakRunner.CallsComeInTurn` | crates/benchmark/src/soak.rs:145-275 | in every iteration the calls come in turn and the deletion of the snapshot is the last of all |
| `SoakRunner.RestoreComesAfterDelete` | crates/benchmark/src/soak.rs:145-216 | an iteration that restores has made, used, saved and deleted the source sandbox before, in that order |
| `SoakRunner.EverySandboxIsAskedBack` | crates/benchmark/src/soak.rs:145-275 | on every run and for every id: as many delete calls as sandboxes handed out |
| `SoakRunner.CleanIffNothingLeft` | crates/benchmark/src/soak.rs:145-280 | no cleanup failure is recorded if and only if the backend holds no sandbox and no snapshot of the run |
| `SoakRunner.SavedSnapshotFate` | crates/benchmark/src/soak.rs:187-233 | the deletion of a saved snapshot is asked for if and only if the source could be deleted, and it stays behind if and only if either deletion failed |
| `SoakRunner.SnapshotsAskedBack` | crates/benchmark/src/soak.rs:145-275 | on every run, in all and for each name: snapshot deletions asked for = snapshots saved less sources that got stuck |
| `StartGate.StartWithRetry` | crates/core/src/builder.rs:2155-2208 | the replies seen are at most three, all but the last transient, the last transient only as the third; the result is the last one, and the waits cover every attempt |
| `StartGate.ElapsedCoversEach` | crates/core/src/builder.rs:2162-2187 | the reported waits add up each attempt's once |
| `StartGate.CompleteIsUnique` | crates/core/src/builder.rs:2189-2206 | there is only one place where those replies can stop |
| `StartGate.TransientIff` | crates/core/src/builder.rs:2210-2220 | a failure is transient if and only if the two texts stand somewhere in its reason |
| `StartGate.EveryContainerRetries` | crates/core/src/builder.rs:2155-2208 | in every interleaving each container takes its steps in turn (permit, call, answer, release, sleep) and is done if and only if it gave up or heard exactly what a whole start hears; until then it heard only transient failures, fewer than three |
| `StartGate.EveryInterleavingIsSound` | crates/core/src/builder.rs:2155-2208 | in every reachable state: free plus held permits are constant, calls out <= permits held, at most three calls each, no permit held while waiting, sleeping or done, all free at the end |
| `StartGate.EveryInterleavingEnds` | crates/core/src/builder.rs:2155-2208 | no interleaving takes more than thirteen steps per container |
| `StartGate.NeverStuck` | crates/core/src/builder.rs:2155-2208 | with a permit some unfinished container can always go on; without one nobody ever starts |
| `XmlEscape.PassesAreOnePass` | crates/cli/src/main.rs:4740-4747 | the five whole-string replacements equal one character-wise pass |
| `XmlEscape.EscapedIsSafe` | crates/cli/src/main.rs:4740-4747 | the result holds no `<`, `>`, double quote or apostrophe |
| `XmlEscape.DecodeEscape` | crates/cli/src/main.rs:4740-4747 | decoding the predefined entities of section 4.6 of XML 1.0 gives the input back |
| `XmlEscape.EscapeIsInjective` | crates/cli/src/main.rs:4740-4747 | different inputs are escaped differently |

## Left out

- VM boot and restore, guest RPC transport, vsock and stdio relays: calls into code outside the model; only their outcomes appear, as parameters.
- Command line parsing, report printing and file output apart from `xml_escape`.
- Artifact manifests: only the logical id a manifest gives to a pool entry is kept.
- Benchmark catalogues, scorecards and the density, disk, memory and pressure helpers: constants, text scraping and single checks.
- Symbol-table building, frame naming, filters and grouping by regular expressions in the profile script: frames, keys and groups are abstract, a group being a function of the key.
- Floating-point rounding of sample weights: weights are exact reals.
- Percentages and row formatting of the profile report.
- Updates inside `VecDeque` and `BTreeMap` nodes: the pool's map is a sequence of buckets held in a field that each method reassigns, and `std`'s sort is the insertion function that `MountOrder.SortIsUnique` shows to be the only possible result.
- Windows path prefixes: `Path::components` is the Unix one.
- The optional absence of a start gate, and fairness of the semaphore: every container goes through the gate, in any order.
- Clocks: the number of soak iterations and the retry loop's waits are parameters.
- Waiting and waking in the runtime's admission loop: one pass is modelled, with the queue length at both looks as parameters, and `ActiveAdmission.QueuedIsAdmittedOnceIdle` says when a later pass admits.
- Starting warm templates, heartbeats and the warm-pool service loop in the runtime.
- WarmPool.WarmPoolLedger.EvictUntilAvailable: takes a pool that stores no empty queue, because on any other pool the source's loop may not end; every reachable pool qualifies.
- SymbolLookup.ResolveSymbol: takes symbols sorted by address, as the script's own table builder leaves them, with sizes that are not negative.
