# HuaTuo in Dafny

A model of the bookkeeping at the heart of HuaTuo, a kernel observability agent, with proofs that its
counts add up.  The agent turns unordered kernel events into numbers: who waited for a CPU while someone
else ran, how long an IO was held back, how long a thread was off the CPU.  The modules follow its
components.

| module | component |
|---|---|
| `Options` | optional values |
| `Words` | machine words as naturals: or, and, not, shifts, trailing zeros |
| `PackedSlices`, `SliceWire`, `SliceBatches` | the packed slice word, the batch record on the wire and back, the per-CPU batch with its age and size flushes |
| `SchedWaiting`, `SchedSlices`, `SchedLimits`, `SchedHooks`, `EpochCache` | runqueue steps and waiting bits; what a slice says; where the bits are wrong; the hooks over their arrays; publications racing with hooks |
| `BlameTargets`, `BlameCharges`, `BlameIndex`, `BlameMachine`, `BlameCompetitors`, `BlameState` | target slots, the charge matrix, the css index, the accounting machine, the report list, the state in place |
| `BlamePipeline` | the whole way from a runqueue to a charge |
| `RatioHistory`, `TargetSelection` | the ratio ring and its P99; choosing the targets |
| `WaitWord`, `IoCost`, `IoCostClaims`, `IoCostHistory`, `IoCostTracer`, `BlkThrottle` | the packed wait counter; the IOCOST protocol across CPUs, its claims, and what a run did told from its events; its probes over their maps; the blk-throttle protocol and its probes |
| `IoHistogram`, `IoCompletion` | branch-free buckets and the 51-bit stamp; the byte walk over bios |
| `OffCpu` | the off-CPU phases of every thread |
| `CgroupTracker`, `ActionRunner` | memory-watch registrations; the snapshot scheduler and its worker |
| `RateLimit` | the window rate limiters |

Machine words are naturals with explicit bounds and explicit wrap-around.  Probes and hooks are steps of a
state machine; what they read from the kernel, the outcome of every map helper, perf submission or system
call, the clock and the random source are parameters of the step or nondeterministic choices.  Code that
updates state in place is a class whose methods are proved equal to a function of the old state, and the
laws are proved of those functions over every run.

Environment facts that the statements use, each visible in a `requires` or an `Enabled` predicate:

- a hook that updates a CPU's waiting bitmap holds that CPU's runqueue lock; a css id names one cgroup;
  tasks are CFS tasks of leaf cgroups; switch, wakeup, migration and unthrottle are the only runqueue steps,
  so no task moves to another cgroup; a cgroup is throttled only when its running task is put back or when
  a task is enqueued into its empty queue, and a throttled cgroup is not picked;
- a publication is any number of single deletes and writes of the target map with hooks in between, and
  then the new epoch; a hook finds an epoch published before, resolves each cgroup one way, and finds
  exactly the published assignment when no step of a publication falls into it
  (`EpochCache.HooksSeePublication`); a publication that fails ends the session;
- wake callbacks run with interrupts off and do not nest on a CPU; a -1 return means that its bio stayed
  queued, so nothing else put it into the pending map meanwhile;
- the perf ring delivers an accepted record at most once;
- the byte count of a request is the sum of its bios, and completing bytes removes whole bios and shortens
  the first partial one;
- clocks do not go back and are positive; only a running thread is switched out;
- watch registration ids start at one.

Where a promise holds only under a condition, the exact condition is proved:

- waiting bits are true in every run if and only if the machine has at most 512 CPUs and no publication is in
  progress (`SchedLimits.TruthfulIffTracked`): a migration to a CPU beyond the arrays is not observed at its
  source either (`SchedLimits.OverflowBreaks`), and while the map is rewritten a hook can set a bit of the
  current epoch for the next owner of the slot (`SchedLimits.WindowBreaks`);
- the css index kept by identity records equals its rebuild for a cgroup if and only if no two active
  targets share that cgroup (`BlameIndex.ScanIsRebuildIff`);
- target selection fills every slot it could, unless a container with an empty id is a candidate, no slot
  was empty before, there are more candidates than slots and some slot changes its owner
  (`TargetSelection.FillsExactlyIff`, `TargetSelection.NamelessWastes`); container discovery rejects an empty
  id before selection sees it (internal/pod/container_kubelet_sync.go:391-396);
- a split of a request's bytes accounts every bio if and only if no completion finishes more than 512 of
  them, and a loss is always flagged (`IoCompletion.RunAccountsIff`, `IoCompletion.BudgetLoses`,
  `IoCompletion.LossIsFlagged`);
- the 51-bit stamp restores the submission time if and only if it is young enough and its low bits are not
  zero (`IoHistogram.StampRestoresIff`);
- the unchanged-view shortcut equals the full reconcile if and only if the ids of the view are distinct
  (`CgroupTracker.ShortcutIsReconcileIff`, `CgroupTracker.RepeatedIdMisleads`);
- a -1 return restores the claimed sample if and only if the bio has no other pending sample by then
  (`IoCostClaims.RestoresIffAbsent`);
- interval deltas of the wait counter are exact if and only if the increments stay below the modulus
  (`WaitWord.IntervalDeltas`).

## Model

| member | source | states |
|---|---|---|
| PackedSlices.SetBitChangesOne | bpf/sched_blame.c:327-391 | marking a dense id changes the membership of exactly that id across the base and the extra word, and keeps both words in range |
| PackedSlices.EmptyBitmapHasNoMembers | bpf/sched_blame.c:277-295 | a cleared bitmap holds no target |
| PackedSlices.PackIsSum | bpf/sched_blame.c:154-177 | the packed word is the positional sum of clamped duration, base bitmap and css id: the fields do not overlap |
| PackedSlices.PackRoundTrip | core/autotracing/sched_blame.go:530-552 | unpacking a packed slice returns its css id, its clamped duration and exactly the waiting set |
| PackedSlices.LoopWordsAreTargets | core/autotracing/sched_blame.go:596-628 | the two words that the charging loops walk hold exactly the targets that the membership test finds |
| SliceWire.CapacityAgrees | core/autotracing/sched_blame.go:170-181 | the capacity that user space derives from a count is the one the kernel side submitted, covers the count and fits the batch |
| SliceWire.EmittedBatchDecodes | core/autotracing/sched_blame.go:267-298 | every submitted batch, with whatever padding perf adds, decodes to exactly its slices |
| SliceWire.TailValueDecodes | core/autotracing/sched_blame.go:267-298 | a per-CPU map value decodes to exactly its live slices |
| SliceWire.DecodedIsPrefix | core/autotracing/sched_blame.go:244-298 | whatever bytes decode, encoding the result gives those bytes back |
| SliceWire.SlotsRead | core/autotracing/sched_blame.go:183-198 | reading slots undoes writing them |
| SliceWire.Batch.Decode | core/autotracing/sched_blame.go:267-298 | the in-place decoder stores the decoded slices, all of them 64-bit words, or reports the error and keeps the old batch |
| SliceWire.DecodedFits | core/autotracing/sched_blame.go:267-298 | whatever bytes decode, the result is one to 128 slices of 64-bit words, which is what charging needs |
| SliceBatches.RunConserves | bpf/sched_blame.c:498-586 | over every run sampled = delivered + counted as failed + still pending, in order; failed submissions are counted one by one; the first timestamp is nonzero exactly when the batch is nonempty, and the count stays below the batch size |
| SliceBatches.PendingIsYoung | bpf/sched_blame.c:518-534 | after every switch a pending batch is younger than the age limit |
| SliceBatches.StepShape | bpf/sched_blame.c:518-586 | a switch submits all pending slices if the first is 10 ms old, then, with its own sample, what has reached the batch size or 128 slices, and nothing else |
| SliceBatches.PendingSince | bpf/sched_blame.c:536-586 | in every run the first timestamp of a nonempty batch is the time of the switch that sampled its first slice, and the batch is what was sampled since |
| SliceBatches.PendingIsRecent | bpf/sched_blame.c:518-586 | the pending slices are exactly those sampled from some switch on that was less than 10 ms before the last one |
| SliceBatches.CountsCoverFlatten | bpf/sched_blame.c:498-516 | delivered and failed slices together are all submitted slices |
| SliceBatches.SliceBatch.EmitBatch | bpf/sched_blame.c:498-516 | submits the pending slices once, empties the batch and counts a failed submission; a delivered record decodes to them |
| SliceBatches.SliceBatch.FlushAged | bpf/sched_blame.c:518-534 | flushes exactly when the batch is nonempty and old |
| SliceBatches.SliceBatch.AppendSlice | bpf/sched_blame.c:536-586 | appends one slice, flushing a full batch before and a complete one after |
| SliceBatches.SliceBatch.OnSwitch | bpf/sched_blame.c:626-678 | one switch is the age flush, then at most one slice |
| SliceBatches.SliceBatch.TailIsPending | core/autotracing/sched_blame.go:1338-1373 | the map value that the shutdown drain reads holds exactly the pending slices |
| SliceBatches.DrainTailBatches | core/autotracing/sched_blame.go:1338-1373 | the drain loop is the recursive drain, errors included |
| SliceBatches.TailDrainIsComplete | core/autotracing/sched_blame.go:1338-1373 | draining the values of all CPUs yields the pending slices of every nonempty CPU, without error |
| SchedWaiting.NrOfWaiting | bpf/sched_blame.c:243-250 | the runnable count of a cgroup is its waiting tasks plus its running one |
| SchedWaiting.WaitingNrIsExact | bpf/sched_blame.c:763-779 | the count the hooks derive, with its 32-bit subtraction, is positive exactly when a task waits, where before the first switch an unseen running task also counts |
| SchedWaiting.SwitchKeeps | bpf/sched_blame.c:682-707 | a switch between publications keeps every set bit justified |
| SchedWaiting.WakeupKeeps | bpf/sched_blame.c:711-781 | a wakeup between publications keeps every set bit justified, whether or not its hook runs to the end |
| SchedWaiting.MigrateKeeps | bpf/sched_blame.c:803-869 | a migration between publications keeps every set bit of its source justified |
| SchedWaiting.EnqueueKeeps | bpf/sched_blame.c:865-869 | work that arrives on a CPU without a hook falsifies no bit |
| SchedWaiting.UnthrottleKeeps | bpf/sched_blame.c:888-947 | an unthrottle between publications keeps every set bit justified |
| SchedWaiting.RecountBase | bpf/sched_blame.c:277-295 | a hook that overlaps a publication leaves a bitmap of the epoch that it read, whatever it resolved |
| SchedWaiting.FinishKeeps | core/autotracing/sched_blame.go:1045-1049 | raising the epoch after the map is rewritten leaves no bit that counts, whatever the hooks did meanwhile |
| SchedWaiting.StepKeeps | core/autotracing/sched_blame.go:1000-1049 | every runqueue step with its hook and every single delete, write and epoch raise of a publication keeps: between publications the bits of the current epoch are justified |
| SchedWaiting.SetBitsAreTrue | bpf/sched_blame.c:596-947 | in every run, while no publication is in progress and from a CPU's first observed switch on, a set bit means that the target has a runnable, unthrottled, non-running task on that CPU |
| SchedSlices.SlicesBlameWaiters | bpf/sched_blame.c:660-680 | in every run, unless a publication overlapped its hook, a sampled slice names only targets that waited meanwhile, unthrottled and on that CPU, and its css id is that of the cgroup that ran |
| SchedSlices.StayIsLastSwitch | bpf/sched_blame.c:596-680 | in every run the stored timestamp of a CPU is the time of its last switch, or zero before the first, and the running task is the one switched in then |
| SchedSlices.SliceSpansStay | bpf/sched_blame.c:660-680 | in every run a switch yields a slice exactly when it is sampled, the CPU has switched before, and what it switched to then has a valid css id; the slice has that css id, and its duration is the time since that switch, modulo 2^64 and cut at 2^32 - 1 |
| SchedWaiting.SwitchIsExact | bpf/sched_blame.c:682-707 | right after a switch between publications the bits of the outgoing and the incoming target are exact |
| SchedWaiting.HooksAreExact | bpf/sched_blame.c:711-947 | right after an observed wakeup, migration or unthrottle between publications the bit of its target is exact |
| SchedLimits.OverflowBreaks | bpf/sched_blame.c:819-827 | on a machine with more than 512 CPUs a migration to an untracked CPU leaves a stale bit at its source: a three-step run |
| SchedLimits.WindowBreaks | core/autotracing/sched_blame.go:1000-1049 | on any machine a wakeup between the map rewrite and the epoch raise sets the bit of the old owner, who does not wait: a five-step run |
| SchedLimits.TruthfulIffTracked | bpf/sched_blame.c:15-15 | on a machine with CPUs, the bits are true in every run if and only if there are at most 512 of them and no publication is in progress |
| SchedHooks.CacheRoundTrip | bpf/sched_blame.c:262-275 | epoch and dense id come back out of the packed cache word |
| SchedHooks.SlotsHaveOneOwner | core/autotracing/sched_blame.go:1017-1036 | what the slots publish gives each dense id one cgroup |
| SchedHooks.Hooks.constructor | core/autotracing/sched_blame.go:1942-1946 | the hooks start from zeroed arrays and epoch 1 |
| SchedHooks.Hooks.EnsureEpoch | bpf/sched_blame.c:277-295 | clears the CPU's bitmap exactly when its epoch is stale |
| SchedHooks.Hooks.ResolveDense | bpf/sched_blame.c:297-325 | whether it hits or misses the cache, the answer is the direct map lookup, and the cache stays right |
| SchedHooks.Hooks.SetWaiting | bpf/sched_blame.c:327-391 | changes one bit of one CPU; an invalid id changes nothing and is counted |
| SchedHooks.Hooks.MarkGroup | bpf/sched_blame.c:684-692 | resolves a cgroup and marks it if it is a target |
| SchedHooks.Hooks.OnSwitch | bpf/sched_blame.c:596-709 | the switch hook over the arrays is the switch step of the machine, and the slice it yields is the one whose owner, length and waiters `SchedSlices.SliceSpansStay` and `SchedSlices.SlicesBlameWaiters` tell from the events |
| SchedHooks.Hooks.OnWakeup | bpf/sched_blame.c:711-781 | the wakeup hook over the arrays is the wakeup step of the machine |
| SchedHooks.Hooks.OnMigrate | bpf/sched_blame.c:803-869 | the migration hook over the arrays is the migration step of the machine |
| SchedHooks.Hooks.OnUnthrottle | bpf/sched_blame.c:888-947 | the unthrottle hook over the arrays is the unthrottle step of the machine |
| EpochCache.StepKeeps | bpf/sched_blame.c:277-325 | every single read or write of a hook or of the publisher keeps the cache invariant |
| EpochCache.FinishCurrent | core/autotracing/sched_blame.go:1045-1049 | raising the epoch last makes every older classification stale |
| EpochCache.RaceIsHarmless | core/autotracing/sched_blame.go:983-1048 | in every interleaving, between publications, cached and resolved dense ids are the direct lookup, every bit of a current bitmap was set under the current assignment, and a cache never written never hits |
| EpochCache.HooksSeePublication | bpf/sched_blame.c:297-325 | in every interleaving a hook works with an epoch published before, and one that ends in the current epoch with no publication in progress resolved its cgroup to the published dense id |
| EpochCache.WindowRaces | core/autotracing/sched_blame.go:1000-1049 | the condition is needed: nine single steps in which a hook inside a publication sets a bit of the current epoch for a cgroup that was never published there |
| BlameTargets.PublishItems | core/autotracing/sched_blame.go:1017-1036 | the item loop builds the map of active slots |
| BlameTargets.MapOfIsSlots | core/autotracing/sched_blame.go:1017-1036 | every published id is the slot of an active target with that cgroup, and every active cgroup is published |
| BlameTargets.DistinctSlotsArePublished | core/autotracing/sched_blame.go:459-469 | a cgroup that one slot has is published as that slot |
| BlameCharges.ChargeIndex | core/autotracing/sched_blame.go:554-559 | the flat index determines competitor and target |
| BlameCharges.SliceBalanced | core/autotracing/sched_blame.go:575-629 | charging a slice keeps external time equal to the column sum and internal within runtime |
| BlameCharges.SlotClearedBalanced | core/autotracing/sched_blame.go:445-457 | clearing a reused slot keeps the balance |
| BlameCharges.ColumnCharged | core/autotracing/sched_blame.go:600-612 | charging a set of targets adds the amount to exactly their columns |
| BlameIndex.First | core/autotracing/sched_blame.go:518-527 | the scan finds the first active slot with the cgroup, or none when there is none |
| BlameIndex.ScanIsRebuildIff | core/autotracing/sched_blame.go:459-528 | the scan of an identity record and the rebuild agree on a cgroup if and only if no two active targets share it |
| BlameIndex.SharedCgroupDiverges | core/autotracing/sched_blame.go:459-528 | with two containers in one cgroup the rebuild takes the later slot and the identity record the earlier |
| BlameIndex.IdentityKeeps | core/autotracing/sched_blame.go:501-528 | an identity record keeps every entry right and every slot's css id pointing back to it, and changes no owner |
| BlameIndex.RebuildEstablishes | core/autotracing/sched_blame.go:459-483 | the rebuild makes the index right for any targets |
| BlameIndex.IndexIsRebuild | core/autotracing/sched_blame.go:459-528 | with distinct cgroups a right index is the one a rebuild would compute |
| BlameMachine.OpGood | core/autotracing/sched_blame.go:445-654 | every record, target change and evaluation keeps balance, index and known charges |
| BlameMachine.ReachableStates | core/autotracing/sched_blame.go:445-654 | in every reachable state external time is the column sum, internal is within runtime, a slot's known css id points back to it, and with distinct cgroups the index equals its rebuild |
| BlameMachine.IdentityIsLast | core/autotracing/sched_blame.go:501-528 | in every reachable state a css id is known exactly when an identity record named it, and has the cgroup of the last one |
| BlameMachine.HistoriesHold | core/autotracing/sched_blame_report.go:71-77 | in every reachable state the ring of a slot holds exactly the last 600 ratios evaluated since the slot changed its owner |
| BlameMachine.RatioIsShare | core/autotracing/sched_blame_report.go:276-308 | a ratio exists exactly when the target ran or was kept waiting, and times runtime plus external it is the external time |
| BlameMachine.BreachIsOfRecentRatios | core/autotracing/sched_blame_report.go:276-308 | in every reachable state a target breaches if and only if its ratio exceeds the factor times the nearest-rank P99 of its own recent ratios, of which there are at least 60 |
| BlameState.EventsUseRecentRatios | core/autotracing/sched_blame_report.go:245-387 | what an evaluation reports in a reachable state: an event for a target exactly when it breaches, with the nearest-rank P99 of its own recent ratios |
| BlameCompetitors.CompetitorsSumToExternal | core/autotracing/sched_blame_report.go:185-207 | before the list is cut the charges per cgroup, which are those of `ByCgroupIsOwn`, add up to the target's external time |
| BlameCompetitors.ByCgroupIsOwn | core/autotracing/sched_blame_report.go:185-207 | the charge of a cgroup is the sum of the matrix entries of its own known css ids, and exactly the cgroups with a nonzero id and sum are listed |
| BlameCompetitors.TopExternalCompetitors | core/autotracing/sched_blame_report.go:185-225 | the list holds the ten largest charges, each the sum over its cgroup's own css ids, ranked; every kept one beats every dropped one, and no charged cgroup is missing from a list that is not full |
| BlameCompetitors.TopIsLargest | core/autotracing/sched_blame_report.go:185-225 | a ranked cut of the charges per cgroup is, told from css index and matrix alone, the list of the largest cgroup sums |
| BlameCompetitors.TopIsUnique | core/autotracing/sched_blame_report.go:208-225 | the list does not depend on the iteration order of the map |
| BlameMachine.ChargesAreExplained | core/autotracing/sched_blame.go:575-629 | every nonzero charge goes back to a handled slice of that competitor that names that target |
| BlameMachine.ChargesAreSummed | core/autotracing/sched_blame.go:575-629 | in every reachable state a charge is exactly the sum of the scaled durations of the handled slices of that competitor that name that target while it was active and not the competitor itself, since the last evaluation or reuse of its slot |
| BlameMachine.TimesAreSummed | core/autotracing/sched_blame.go:575-643 | in every reachable state runtime, internal, external and throttled time of a target are the sums of what the records since the last evaluation or reuse of its slot add, each record told by its own fields |
| BlameMachine.ChargesAreCovered | core/autotracing/sched_blame.go:575-629 | no charge exceeds the scaled durations of the handled slices of that competitor that name that target, each counted as often as it was handled |
| BlamePipeline.BatchedIsFair | bpf/sched_blame.c:660-680 | whatever a CPU's batch submitted or still holds was taken at a switch where the cgroup it names had run since the CPU's last switch, for exactly the length it states, and, unless a publication overlapped the hook, the targets it names were waiting |
| BlamePipeline.BlameIsEarned | core/autotracing/sched_blame.go:575-654 | from runqueue to matrix: when no slice is handled more often than the batches delivered or drained it, every charge is the sum of slices each of which was taken at such a switch, and is at most what the sampled slices are worth, each counted once |
| BlameState.WordsCover | core/autotracing/sched_blame.go:596-628 | the base loop and the extra loop visit disjoint sets that together are the waiting, active, other targets |
| BlameState.BlameState.constructor | core/autotracing/sched_blame.go:393-409 | a new state knows no css id, has no target and no charge |
| BlameState.BlameState.ChargeWord | core/autotracing/sched_blame.go:600-612 | the clear-lowest-bit loop visits each set bit once and charges exactly the active, other ones |
| BlameState.BlameState.ChargeWaiting | core/autotracing/sched_blame.go:596-628 | both loops together charge exactly the waiting, active targets other than the one that ran |
| BlameState.BlameState.HandlePackedSlice | core/autotracing/sched_blame.go:575-629 | an unknown competitor or a zero duration changes nothing; otherwise runtime, internal and external time grow by the slice, and the state stays balanced |
| BlameState.BlameState.HandleBatch | core/autotracing/sched_blame.go:645-654 | a batch is its first count slices, in order |
| BlameState.BlameState.HandleEncoded | core/autotracing/sched_blame.go:300-326 | decoding and charging compose: exactly the slices that a record or a drained value decodes to are charged, and a malformed one changes nothing |
| BlameState.BlameState.HandleThrottle | core/autotracing/sched_blame.go:631-643 | throttled time goes to an active target only; an invalid id is counted |
| BlameState.BlameState.HandleIdentity | core/autotracing/sched_blame.go:501-528 | the in-place update is the identity step; invalid records change nothing |
| BlameState.BlameState.FindTarget | core/autotracing/sched_blame.go:518-527 | the loop finds the first active slot with the cgroup |
| BlameState.BlameState.ClearReusedSlot | core/autotracing/sched_blame.go:445-457 | zeroes one column, one target's times and its history, and nothing else |
| BlameState.BlameState.Rebuild | core/autotracing/sched_blame.go:459-483 | the three loops compute the rebuilt index and relink the slots |
| BlameState.BlameState.TargetsBitmap | core/autotracing/sched_blame.go:433-443 | the bitmap holds exactly the active slots |
| BlameState.BlameState.SetTargets | core/autotracing/sched_blame.go:485-499 | slots with a new owner start from nothing, the others keep their charges; the index is rebuilt |
| BlameState.BlameState.EvaluateRatios | core/autotracing/sched_blame_report.go:245-387 | one event for each breaching target, with the threshold of the seconds before it; then ratios enter the histories and all charges are zero |
| BlameState.BlameState.ReportTarget | core/autotracing/sched_blame_report.go:276-308 | an event is added exactly when the ratio exceeds the threshold, with its competitors |
| RatioHistory.AddHolds | core/autotracing/sched_blame_report.go:71-77 | one addition to a ring that holds the last 600 ratios makes it hold the last 600 with the new one, oldest first from its cursor |
| RatioHistory.P99IsNearestRank | core/autotracing/sched_blame_report.go:79-90 | from 60 samples on, at least 99% of the kept ratios are at most the P99 and fewer than 99% are below it |
| RatioHistory.P99DependsOnRecent | core/autotracing/sched_blame_report.go:79-90 | the P99 depends on the kept ratios alone, not on the rotation of the ring |
| RatioHistory.SortedSorts | core/autotracing/sched_blame_report.go:86-88 | sorting permutes and orders |
| RatioHistory.Ring.constructor | core/autotracing/sched_blame_report.go:65-69 | a new ring holds nothing |
| RatioHistory.Ring.AddRatio | core/autotracing/sched_blame_report.go:71-77 | appends to the history the ring stands for |
| RatioHistory.Ring.Percentile | core/autotracing/sched_blame_report.go:79-90 | is ready from 60 samples on and then returns the P99 |
| TargetSelection.FindHighlight | core/autotracing/sched_blame.go:686-744 | none, one or several matching containers, with and without a CPU css, in any iteration order |
| TargetSelection.SelectionIsSafe | core/autotracing/sched_blame.go:776-872 | for every shuffle no container is assigned twice, every other slot holds a candidate, and a configured highlight reserves slot 0 |
| TargetSelection.ChosenAreEligible | core/autotracing/sched_blame.go:801-859 | for every shuffle a slot past the highlight holds only a container with a CPU css whose kind and QoS level are in scope and that is not the highlighted one, with its own cgroup; exactly these containers are candidates |
| TargetSelection.SurvivorsStay | core/autotracing/sched_blame.go:829-837 | a surviving owner keeps its slot, whatever the shuffle |
| TargetSelection.FillCount | core/autotracing/sched_blame.go:851-859 | the fill places as many of the rest as there are free slots |
| TargetSelection.FillsExactlyIff | core/autotracing/sched_blame.go:776-859 | min(candidates, available slots) are filled for every shuffle if and only if not all of these hold: the empty id is a candidate, no old slot has it, the candidates outnumber the slots, some slot does not keep its owner |
| TargetSelection.NamelessWastes | core/autotracing/sched_blame.go:851-859 | 85 candidates with the empty id among them and 84 slots that all change their owner: some shuffle wastes a slot |
| TargetSelection.CollectCandidates | core/autotracing/sched_blame.go:801-827 | the candidate map is the filtered container map; an unknown scope is an error once a container needs it |
| TargetSelection.KeepOwners | core/autotracing/sched_blame.go:829-837 | the loop keeps survivors in place and takes them from the candidates |
| TargetSelection.Shuffle | core/autotracing/sched_blame.go:874-889 | whatever the random source draws the list still holds every target once, and the shuffle fails exactly when a draw it needs fails |
| TargetSelection.FillSlots | core/autotracing/sched_blame.go:851-859 | the loop fills inactive slots in order |
| TargetSelection.SelectTargets | core/autotracing/sched_blame.go:776-872 | the result is the selection of some order of the candidates that no slot kept; it is an error exactly when the highlight, the scope or a draw fails |
| WaitWord.AddFields | bpf/include/bpf_iocontrol.h:42-50 | one addition increments the count field and adds the whole units to the wait field, each modulo its width: no carry crosses |
| WaitWord.FoldFields | bpf/include/bpf_iocontrol.h:17-50 | after any waits the fields are the count and the units modulo 2^26 and 2^38 |
| WaitWord.UnitsLose | bpf/include/bpf_iocontrol.h:42-50 | the units lose less than 10 microseconds per IO |
| WaitWord.IntervalDeltas | core/metrics/iocontrol.go:375-380 | the delta of a field over an interval is exact if and only if the increments stay below its modulus |
| IoCost.StepKeeps | bpf/iocost_tracing.c:335-555 | every probe keeps each admission in exactly one place and each row equal to what it settled |
| IoCost.RunAccounts | bpf/iocost_tracing.c:335-555 | in every interleaving no admission settles twice, each settles with its own end minus start, admitted = settled + pending + held + discarded, and while healthy nothing was discarded by a fault |
| IoCost.RunCounters | bpf/iocost_tracing.c:530-548 | every row not yet reclaimed holds exactly the settlements of its CPU and key |
| IoCost.FailureIsSticky | bpf/iocost_tracing.c:160-178 | no probe makes a failed session healthy again, and nothing is admitted after it |
| IoCostClaims.ClaimThenSettle | bpf/iocost_tracing.c:466-555 | a successful return settles the claimed admission with its own wait whatever other CPUs did meanwhile, including admitting the same bio again, under the operation it was admitted with and the identity remembered for its cgroup, or read by the entry if none was; it touches no pending sample, and counts nothing exactly when its row is gone, which only a reclaim of its identity causes |
| IoCostHistory.LogIsAdmissions | bpf/iocost_tracing.c:335-376 | in every run the log is exactly the admissions that the events make, each with its bio, time and operation, in order |
| IoCostHistory.OwnersAreRead | bpf/iocost_tracing.c:236-279 | in every run the identity remembered for a cgroup was read by a wake entry for that cgroup, and the cgroup was not freed since |
| IoCostHistory.FramesAreClaims | bpf/iocost_tracing.c:401-483 | in every run what a frame holds was claimed by an entry on its CPU, the last probe there |
| IoCostHistory.SettlementsAreClaims | bpf/iocost_tracing.c:401-555 | in every run each settlement goes back to one entry and one later return on its CPU: the entry claimed that admission of that bio, and the key has its operation and the identity that was read for its cgroup |
| IoCostClaims.ClaimThenRestore | bpf/iocost_tracing.c:504-521 | a -1 return makes the very sample that the entry claimed pending again when nothing queued the bio meanwhile, also while frames of other CPUs hold earlier samples of that bio |
| IoCostClaims.RestoresIffAbsent | bpf/iocost_tracing.c:504-521 | whatever other CPUs did meanwhile, a -1 return restores the claimed sample if and only if the bio has no pending sample by then; otherwise the session fails and no pending sample changes |
| IoCost.PdFreeKeeps | bpf/iocost_tracing.c:557-588 | while healthy the rows of a freed owner stay findable through the retired map |
| IoCostTracer.Tracer.constructor | bpf/iocost_tracing.c:160-170 | the maps start empty and healthy |
| IoCostTracer.Tracer.KickWaitq | bpf/iocost_tracing.c:335-376 | the admission probe over its map is the admission step |
| IoCostTracer.Tracer.Fail | bpf/iocost_tracing.c:172-178 | marks the session failed and nothing else |
| IoCostTracer.Tracer.ClearFrame | bpf/iocost_tracing.c:385-389 | gives up what one CPU's frame holds |
| IoCostTracer.Tracer.EnsureOwner | bpf/iocost_tracing.c:236-279 | the cached owner, or the one read now if it can be stored; otherwise the session fails (which identity that is over a run: `IoCostHistory.OwnersAreRead`) |
| IoCostTracer.Tracer.EnsureAggregate | bpf/iocost_tracing.c:281-298 | the row exists afterwards, empty if it is new; otherwise the session fails |
| IoCostTracer.Tracer.Claim | bpf/iocost_tracing.c:472-482 | the sample leaves the pending map before the frame is published |
| IoCostTracer.Tracer.WakeEntry | bpf/iocost_tracing.c:401-483 | the entry probe over its maps is the wake entry step, on every path |
| IoCostTracer.Tracer.WakeReturn | bpf/iocost_tracing.c:485-555 | the return probe over its maps is the wake return step, on every path |
| IoCostTracer.Tracer.Count | bpf/iocost_tracing.c:530-554 | the packed counter of the row is the fold of the waits settled on this CPU |
| IoCostTracer.Tracer.Restore | bpf/iocost_tracing.c:504-521 | the frame's sample goes back under its bio |
| IoCostTracer.Tracer.PdFree | bpf/iocost_tracing.c:557-588 | the free probe over its maps is the free step |
| BlkThrottle.RunConserves | bpf/blk_throtl_tracing.c:235-348 | in every interleaving no admission settles twice, each settles with its own end minus start, and while healthy admitted = settled + pending exactly |
| BlkThrottle.CallsAreFinalPops | bpf/blk_throtl_tracing.c:273-348 | in every run a thread is remembered exactly while it is inside a final pop |
| BlkThrottle.OwnersAreRead | bpf/blk_throtl_tracing.c:181-212 | in every run the identity remembered for a cgroup was read by a pop of that cgroup, and the cgroup was not freed since |
| BlkThrottle.LogIsExact | bpf/blk_throtl_tracing.c:235-348 | in every run the log is exactly the accepted adds, each with its bio, time and operation, and the settlements exactly the completed final pops, each with its admission, key and wait, in order |
| BlkThrottle.SettledOnce | bpf/blk_throtl_tracing.c:289-348 | every settlement waits its own end minus start, and its admission settles nowhere else |
| BlkThrottle.RunCounters | bpf/blk_throtl_tracing.c:214-233 | every row not yet reclaimed holds exactly the settlements of its CPU and key |
| BlkThrottle.PopSettles | bpf/blk_throtl_tracing.c:289-348 | the final pop of a pending bio releases it and adds one settlement: its admission, its own wait, its operation, and the identity remembered for its cgroup, or read now if none was |
| BlkThrottle.StepGood | bpf/blk_throtl_tracing.c:235-370 | every probe keeps each admission in one place and each row equal to what it settled |
| BlkThrottle.BlkTracer.constructor | bpf/blk_throtl_tracing.c:65-108 | the maps start empty and healthy |
| BlkThrottle.BlkTracer.AddBio | bpf/blk_throtl_tracing.c:235-271 | the admission probe over its map is the admission step; a collision or an unknown caller fails the session (what is logged over a run: `LogIsExact`) |
| BlkThrottle.BlkTracer.PopEntry | bpf/blk_throtl_tracing.c:273-287 | only a final pop is remembered, once per thread |
| BlkThrottle.BlkTracer.PopReturn | bpf/blk_throtl_tracing.c:289-348 | the return probe over its maps is the pop step, on every path |
| BlkThrottle.BlkTracer.FindOwner | bpf/blk_throtl_tracing.c:181-212 | the cached owner, or the one read now if it can be stored (which identity that is over a run: `OwnersAreRead`) |
| BlkThrottle.BlkTracer.CountWait | bpf/blk_throtl_tracing.c:214-233 | creates the row if needed and adds the wait to the CPU's packed counter |
| BlkThrottle.BlkTracer.PdFree | bpf/blk_throtl_tracing.c:350-370 | the free probe over its maps is the free step |
| IoHistogram.AboveIsGreater | bpf/iolatency_tracing.c:284-295 | for all 64-bit values and thresholds below 2^63 the subtract-and-shift is the comparison |
| IoHistogram.LatencyBucketIsExceeded | bpf/iolatency_tracing.c:301-333 | the latency bucket is the number of thresholds exceeded, at most 16; a missing time is no sample, and time that ran backwards is bucket 0 in the queue stage and no sample elsewhere |
| IoHistogram.LatencyBucketMonotone | bpf/iolatency_tracing.c:301-333 | a longer latency is never in a smaller bucket |
| IoHistogram.SizeBucketIsExceeded | bpf/iolatency_tracing.c:335-347 | the size bucket is the number of thresholds exceeded, at most 5 |
| IoHistogram.ExceededIsInterval | bpf/iolatency_tracing.c:312-331 | a bucket is the interval between two thresholds |
| IoHistogram.StampRestoresIff | bpf/iolatency_tracing.c:769-790 | the 51-bit stamp restores the submission time if and only if it is less than 2^51 ns old and its low bits are not all zero (or it is zero) |
| IoCompletion.OverflowsIff | bpf/iolatency_tracing.c:1051-1069 | overflow is flagged exactly when after 512 bios bytes and a further bio remain |
| IoCompletion.BudgetCuts | bpf/iolatency_tracing.c:887-914 | the budget cuts the unbounded walk and changes nothing else |
| IoCompletion.LossIsFlagged | bpf/iolatency_tracing.c:1066-1068 | a bio that the budget keeps from being accounted is always flagged |
| IoCompletion.Completions.CompleteChunk | bpf/iolatency_tracing.c:893-914 | a chunk is that part of one walk, whatever budget is left |
| IoCompletion.Completions.Complete | bpf/iolatency_tracing.c:928-1069 | the first-bio path, the single-bio path and the chunks together are the simple walk capped at 512; the first bio owns the issued size |
| IoCompletion.Completions.CompleteRest | bpf/iolatency_tracing.c:1049-1069 | 15 chunks of 32 and one of 31 are the walk over the remaining 511 |
| IoCompletion.Completions.QueueRemapped | bpf/iolatency_tracing.c:718-746 | the first 512 bios of a remapped request are queued in order, and more are flagged |
| IoCompletion.RunAccountsEachBio | bpf/iolatency_tracing.c:887-1069 | however a request's bytes are split into completions, each bio is accounted exactly once, in order |
| IoCompletion.RunAccountsOrLoses | bpf/iolatency_tracing.c:1051-1069 | accounted plus skipped by the budget is the whole chain, however the bytes are split |
| IoCompletion.RunAccountsIff | bpf/iolatency_tracing.c:887-1069 | a split accounts every bio if and only if no completion finishes more than 512 |
| IoCompletion.BudgetLoses | bpf/iolatency_tracing.c:1051-1069 | a request of more than 512 one-byte bios that completes at once loses the rest |
| IoCompletion.EventAccountsItsBios | bpf/iolatency_tracing.c:893-914 | a completion accounts exactly the bios whose last byte it completes |
| IoCompletion.IssuedOnce | bpf/iolatency_tracing.c:1018-1036 | however the bytes are split, exactly one sample of a finished request has the issued size: the first one of its last completion |
| IoCompletion.NothingIssued | bpf/iolatency_tracing.c:1018-1036 | a request without an issue time samples no issued size |
| OffCpu.StepKeeps | bpf/native_offcpu_profiler.c:126-319 | every scheduler event keeps phases and intervals consistent |
| OffCpu.IntervalsAreOffCpu | bpf/native_offcpu_profiler.c:126-319 | in every run a running thread holds no state, the intervals of one thread are disjoint and ordered, and none overlaps a time it spent on a CPU |
| OffCpu.EpisodeAddsUp | bpf/native_offcpu_profiler.c:126-319 | between switch-out and switch-in the intervals add up to at most the time off the CPU for any filter and threshold, and to exactly that time with all phases and no threshold; which intervals these are for any filter and threshold: `OutputIsExact` |
| OffCpu.OutputIsExact | bpf/native_offcpu_profiler.c:126-319 | for every configuration and run the output is exactly the intervals that the events end, with kind, start and end, in order, and the phase of a thread is the one that its last events begin |
| OffCpu.SubmittedIff | bpf/native_offcpu_profiler.c:126-155 | an interval is submitted if and only if an event ends a phase with that thread, kind and times that passes the filter and reaches the threshold; no shorter, empty or filtered one ever is |
| OffCpu.Profiler.EmitEvent | bpf/native_offcpu_profiler.c:126-155 | submits the phase exactly when its kind is enabled and its duration is positive and not below the threshold (over a run, without this step: `OutputIsExact`, `SubmittedIff`) |
| OffCpu.Profiler.HandleWakeup | bpf/native_offcpu_profiler.c:157-185 | ends a blocked phase and begins waiting for a CPU, or drops the state when only blocked time is wanted |
| OffCpu.Profiler.RecordSchedOut | bpf/native_offcpu_profiler.c:199-248 | begins the right phase, or none when it is filtered, unreadable or not storable; unreadable and unstorable ones are counted |
| OffCpu.Profiler.FinishSchedIn | bpf/native_offcpu_profiler.c:250-279 | ends the phase and drops the state; a missed wakeup has its own kind and is counted |
| OffCpu.Profiler.OnSwitch | bpf/native_offcpu_profiler.c:281-292 | the incoming thread is finished before the outgoing one is recorded |
| OffCpu.Profiler.CleanupTask | bpf/native_offcpu_profiler.c:294-333 | an exit submits the pending phase, a free does not; both drop the state |
| CgroupTracker.Tracker.constructor | core/autotracing/memory_threshold_snapshot_cgroup_tracker_linux.go:74-84 | a new tracker is empty and consistent |
| CgroupTracker.Tracker.RegistrationsAreExclusive | core/autotracing/memory_threshold_snapshot_cgroup_tracker_linux.go:302-316 | no two containers share a registration |
| CgroupTracker.Tracker.Unregister | core/autotracing/memory_threshold_snapshot_cgroup_tracker_linux.go:318-332 | retires and reports the registration everywhere and takes it from the candidates, or changes nothing on an error |
| CgroupTracker.Tracker.Register | core/autotracing/memory_threshold_snapshot_cgroup_tracker_linux.go:302-316 | a new nonzero registration, or an error that changes nothing; a registration is never transferred |
| CgroupTracker.Tracker.DeleteContainer | core/autotracing/memory_threshold_snapshot_cgroup_tracker_linux.go:289-300 | deletes exactly the named generation, and reports its registration |
| CgroupTracker.Tracker.BindContainer | core/autotracing/memory_threshold_snapshot_cgroup_tracker_linux.go:251-287 | on success the container is bound to the new generation, with the directory its path names now, and watched; its entry stays exactly when it was for that directory; a failure leaves the old binding, or the new one without a watch; no other container changes |
| CgroupTracker.Tracker.Rebind | core/autotracing/memory_threshold_snapshot_cgroup_tracker_linux.go:267-273 | the same directory keeps its watch, and its registration is reported |
| CgroupTracker.Tracker.CreateContainer | core/autotracing/memory_threshold_snapshot_cgroup_tracker_linux.go:228-249 | only a newer generation is bound; only fatal errors are returned unless the context has ended, and a container skipped by another error keeps its binding or has the new one without a watch |
| CgroupTracker.Tracker.DeleteDeparted | core/autotracing/memory_threshold_snapshot_cgroup_tracker_linux.go:114-125 | exactly the listed containers stay |
| CgroupTracker.Tracker.Reconcile | core/autotracing/memory_threshold_snapshot_cgroup_tracker_linux.go:114-130 | the container map becomes the reconciled one; a view that names exactly what is bound changes nothing |
| CgroupTracker.Tracker.Unchanged | core/autotracing/memory_threshold_snapshot_cgroup_tracker_linux.go:97-112 | decides the shortcut |
| CgroupTracker.Tracker.ApplyChanges | core/autotracing/memory_threshold_snapshot_cgroup_tracker_linux.go:131-145 | the changes are applied in order |
| CgroupTracker.Tracker.ProcessContainerEvents | core/autotracing/memory_threshold_snapshot_cgroup_tracker_linux.go:88-149 | keeps the three maps consistent and applies the update; the reported registrations are exactly those it retired or moved to a newer generation, in order; of the registrations bound before, those are reported that are now unbound or bound differently and no others; no candidate appears, and only those of retired registrations go |
| CgroupTracker.Tracker.ProcessMemoryEvents | core/autotracing/memory_threshold_snapshot_cgroup_tracker_linux.go:154-189 | afterwards the candidates are exactly the live ones among the old candidates and, when admission is on, the observed registrations; the reported registrations are exactly the lost targets it retired |
| CgroupTracker.Tracker.HandleEvent | core/autotracing/memory_threshold_snapshot_cgroup_tracker_linux.go:163-183 | an observation makes at most its own target a candidate, a loss retires and reports its own target or is a fatal error, and nothing else changes |
| CgroupTracker.StepsReport | core/autotracing/memory_threshold_snapshot_cgroup_tracker_linux.go:267-332 | over any registrations of new entries, retirements and moves to newer generations a registration bound before is reported if and only if it is now unbound or bound differently |
| CgroupTracker.ReportsAreSteps | core/autotracing/memory_threshold_snapshot_cgroup_tracker_linux.go:267-332 | whatever is reported was registered and was retired or rebound by the step that reports it |
| CgroupTracker.Tracker.DrainPending | core/autotracing/memory_threshold_snapshot_cgroup_tracker_linux.go:198-212 | every candidate is handed over once, with its container and cgroup |
| CgroupTracker.Tracker.Close | core/autotracing/memory_threshold_snapshot_cgroup_tracker_linux.go:221-226 | nothing is tracked afterwards |
| CgroupTracker.ShortcutIsReconcileIff | core/autotracing/memory_threshold_snapshot_cgroup_tracker_linux.go:97-130 | taking the shortcut equals the full reconcile if and only if the ids of the view are distinct |
| CgroupTracker.RepeatedIdMisleads | core/autotracing/memory_threshold_snapshot_cgroup_tracker_linux.go:97-130 | two bound containers and a view that names one of them twice take the shortcut, and the reconcile would delete the other |
| CgroupTracker.ReconciledKeys | core/autotracing/memory_threshold_snapshot_cgroup_tracker_linux.go:114-130 | a reconciled view leaves exactly the listed containers |
| CgroupTracker.ReconciledIsNewest | core/autotracing/memory_threshold_snapshot_cgroup_tracker_linux.go:114-130 | a reconciled container has the newest generation among its binding and its entries in the view |
| CgroupTracker.CreatedIsBound | core/autotracing/memory_threshold_snapshot_cgroup_tracker_linux.go:131-145 | a container created by a batch of changes and not deleted after is bound, to that generation or a newer one |
| CgroupTracker.BoundIsCreated | core/autotracing/memory_threshold_snapshot_cgroup_tracker_linux.go:131-145 | what a batch of changes binds was bound before or is created by it and not deleted after, and an id that no change names keeps its binding |
| ActionRunner.StepKeeps | core/autotracing/memory_threshold_snapshot_action.go:92-183 | every step of scheduler, worker and shutdown keeps one batch in flight at most |
| ActionRunner.OneBatchAtATime | core/autotracing/memory_threshold_snapshot.go:124-198 | in every interleaving, also when the worker exits at any time, no send finds a full channel, Submit never finds a batch active, and every batch is submitted no earlier than the last recorded attempt plus the interval |
| ActionRunner.RunIsTold | core/autotracing/memory_threshold_snapshot.go:124-198 | in every interleaving before the join, told from the events alone: the recorded attempt is the last acknowledged completion, the candidates are those observed outside the cooldown with a complete view and not dropped, drained or overtaken since, every firing of the timer submits all of them, and that batch is the active one until acknowledged |
| ActionRunner.CanceledIff | core/autotracing/memory_threshold_snapshot_action.go:142-155 | in every interleaving the active batch is canceled if and only if since its submission the shutdown began, the view was lost or one of its targets was invalidated |
| ActionRunner.SubmitIsExclusive | core/autotracing/memory_threshold_snapshot_action.go:97-118 | when a batch is submitted, nothing is queued, running or unacknowledged |
| ActionRunner.Runner.SubmitBatch | core/autotracing/memory_threshold_snapshot_action.go:97-118 | an armed scheduler's submission always succeeds |
| ActionRunner.Runner.Acknowledge | core/autotracing/memory_threshold_snapshot.go:184-188 | acknowledges the batch, records its attempt, and says whether candidates may be kept |
| ActionRunner.Runner.FinishBatch | core/autotracing/memory_threshold_snapshot_action.go:129-140 | a zero completion time records no attempt |
| ActionRunner.Runner.CancelIfInvalidated | core/autotracing/memory_threshold_snapshot_action.go:142-155 | cancels exactly when a target of the active batch was invalidated or the view was lost |
| ActionRunner.Scheduler.ProcessEvents | core/autotracing/memory_threshold_snapshot.go:124-164 | candidates are admitted only with a complete view and outside the cooldown; a lost view drops them and cancels the batch |
| ActionRunner.Scheduler.ArmIfIdle | core/autotracing/memory_threshold_snapshot.go:169-172 | the timer is armed for waiting candidates exactly while no batch is active |
| ActionRunner.Scheduler.OnArbitration | core/autotracing/memory_threshold_snapshot.go:176-183 | all candidates go to the runner, which is never busy |
| ActionRunner.Scheduler.OnDone | core/autotracing/memory_threshold_snapshot.go:184-188 | records the attempt and drops candidates inside the cooldown |
| ActionRunner.Runner.TakeJob | core/autotracing/memory_threshold_snapshot_action.go:171-178 | the worker takes the queued batch |
| ActionRunner.Runner.Report | core/autotracing/memory_threshold_snapshot_action.go:178-182 | the worker's report always finds room |
| RateLimit.SpansAreBounded | bpf/include/bpf_ratelimit.h:22-43 | a window admits at most burst, and any 2 * burst + 1 admissions span at least an interval |
| RateLimit.ShortSpansAdmitTwice | bpf/include/bpf_ratelimit.h:22-43 | any span shorter than the interval admits at most 2 * burst |
| RateLimit.LogIsGranted | bpf/include/bpf_ratelimit.h:22-43 | the admissions that the bounds speak of are exactly the admitted calls, at the times they were made |
| RateLimit.RefusedOnlyWhenFull | bpf/include/bpf_ratelimit.h:22-43 | a call is refused only when its window has admitted burst |
| RateLimit.PerCpuLimiter.Limited | bpf/include/bpf_ratelimit.h:22-43 | opens a window when none is open or the interval has passed, and admits while there is room; disabled it admits everything |
| RateLimit.SharedLimiter.Limited | bpf/include/bpf_ratelimit.h:51-81 | decides as the per-CPU limiter does, and events plus misses equal the calls made while enabled |

## Left out

- BPF loading, CO-RE reads, attach points, perf-ring internals and kernel structure layout.
- Nested cgroups and other scheduling classes in the waiting bits: the hooks assume leaf cgroups and CFS tasks.
- Records that cross a slot reuse, slices of a hook that overlaps a publication, and a migrated task that its destination does not report yet: known approximations of the source, not claimed exact.
- Overflow of the 64-bit nanosecond accumulators of scheduler blame: they are unbounded naturals here.
- Floating-point rounding: scaled durations are an arbitrary function of the duration, ratios are reals.
- Identity and throttle records on the wire, and the CSV debug output.
- The container counters of IO latency (bpf/iolatency_tracing.c:804-840) and the Q2G and Q2D stages: one increment per bucket.
- Concurrent callers of the shared rate limiter: one call at a time.
- The select loop of the snapshot scheduler: its branches are methods and steps of `ActionRunner`, their order is free; the capture itself is one step of the worker.
- The identity records that the hooks emit once per css id.
- Command-line parsing, configuration, daemon startup, event-forwarding tracers, symbolisation, storage and upload.
