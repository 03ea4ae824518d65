# A verified model of scx_cognis

`scx_cognis` is a `sched_ext` CPU scheduler: a BPF program places and dispatches
tasks through a hierarchy of queues, and an optional userspace fallback written in
Rust does the same with three fixed-capacity lanes. This project models the parts
that carry state and proves what they promise.

| file | what it models |
|---|---|
| `Numbers.dfy`, `Options.dfy` | shared arithmetic, saturating and exact; the option type |
| `PidProbe.dfy` | open addressing with tombstones over 4096 PIDs: the scheme both PID tables share, with its two probe loops |
| `Lifetime.dfy` | the per-PID lifetime table, as a value and as two arrays updated in place |
| `Trust.dfy`, `TrustTable.dfy` | the trust table: score arithmetic and the direct claim; six arrays |
| `Watchlist.dfy`, `Ranking.dfy` | which distrusted PIDs `worst_actors` keeps, and when they are the most distrusted, worst first |
| `Housekeeping.dfy` | both tables together: arrivals, reported exits, the periodic flush, whole runs |
| `Reputation.dfy` | what a run tells the trust engine: one verdict on each forgotten PID, by its last report |
| `TaskQueue.dfy` | the ring buffer, and the ring buffer with one deferred slot |
| `Policy.dfy` | slices, wake credit and the userspace virtual clock in saturating arithmetic |
| `Grants.dfy` | what an arriving task is granted, in terms of the kernel's message and its last record |
| `Lanes.dfy`, `Fallback.dfy` | the three lanes and `schedule()`: as a function on values, and as the imperative program |
| `Intake.dfy` | how many reports one call takes, in which order, and which lane each task joins |
| `VirtualTime.dfy` | wrapping 64-bit virtual time, weight scaling, the lag of a deadline |
| `Dsq.dfy` | dispatch queues as the kernel helpers treat them, and the election of a steal victim |
| `Hierarchy.dfy` | queue identifiers, spill thresholds, overflow target, own tiers, steal rotations |
| `WorkConservation.dfy` | what a dispatch guarantees about the queue it draws from |
| `Machine.dfy`, `Runs.dfy` | the callbacks as a state machine, and what every run keeps |
| `Routing.dfy` | where tasks go, read off the queues before and after each callback |
| `Service.dfy` | how long a waiting task can be overtaken |
| `IntegerMachine.dfy` | the same scheduler on unbounded integers, and when the 64-bit one equals it |
| `Stranding.dfy` | exactly when a CPU is left idle beside a task it may run |
| `DispatchOrder.dfy` | the order in which a dispatch tries its queues, nearest first |
| `Bpf.dfy` | the callbacks with global variables and loops; each method takes exactly a machine step |
| `Loader.dfy` | profile, dense topology renumbering, read-only data |
| `Profiles.dfy` | what the options and the mode decide, down to where a task waits |
| `SliceController.dfy` | the load-driven slice ceiling and the latency percentiles |
| `Counterexamples.dfy` | runs and inputs on which a tempting claim fails |

Where the program updates state in place, a class does the same and each of its
methods equates the new state with a function of the old one; the theorems are
lemmas about those functions, so they hold of the class.
What those functions choose and grant is stated once more without naming them, from
the queues, records and messages alone: which branch an enqueue takes and where the
task then waits (`Routing`), which queue a dispatch draws from (`DispatchOrder`), what an
arriving task is granted (`Grants`, `Intake`), and what the trust engine is told
(`Reputation`).

Some claims hold only under a condition, and the project proves exactly which:

- A table refines an unbounded map exactly when the run never asks it to hold more
  than 4096 PIDs (`PidProbe.RunRefinesSet`, `Lifetime.RunRefinesMap`; after 4097 tasks it
  does not, `Counterexamples.TableCanForget`).
- `worst_actors` is announced as the most distrusted PIDs, worst first, replacing the
  least bad entry (src/ai/trust.rs:367-398). A run of 21 exits shows it is not always so
  (`Counterexamples.ListCanMislead`). Rank the distrusted PIDs by score, ties by slot; take
  the first twenty in slot order and replace those outside the twenty least, from left to
  right, by the later ones among the twenty. The list is exactly the twenty least when each
  filled-in score is at least every score to its left, and only then
  (`Ranking.ListsTopIff`); it is the twenty least, worst first, exactly when the filled-in
  scores ascend (`Ranking.AnnouncedIff`), so always when scores ascend by slot
  (`Ranking.AscendingIsAnnounced`). Unless the twentieth and the twenty-first tie, the same
  conditions decide whether no PID left out is worse than a listed one
  (`Ranking.MostDistrustedWithoutTies`). It lists every distrusted PID exactly when there
  are at most 20 (`Watchlists.ListsEveryoneIff`). The overwritten entry is a least bad one
  exactly when no later entry is better (`Watchlists.ReplacesLeastBadIff`).
- A failed submission keeps the order of the lanes exactly when the tasks left in the
  failed task's lane are all alike, in particular when it is the last there
  (`Lanes.FailedRoundFifoIff`); otherwise the task goes behind its lane
  (`Lanes.RetryOvertakes`).
- One flush clears every stale record exactly when there are at most 256
  (`Housekeeping.FlushClearsIff`; a run of 257 arrivals leaves one behind,
  `Counterexamples.FlushCanLeaveStale`).
- The manual slice ceiling is respected exactly when it is at least 250 us
  (`SliceControl.CeilingRespectedIff`), although the repository's test of that name
  suggests it always is; a shorter one is accepted on the command line
  (`Loader.CeilingCanBeIgnored`).
- With pinned tasks a CPU can be left idle beside a task it may run, because a remote
  LLC or node steal looks at one victim and not at affinity. A run from boot gets there
  (`Stranding.RunStrandsWork`), and `Stranding.StrandedIff` says exactly in which states
  it happens.
- A message from the fallback keeps the queues within capacity exactly when it does not
  land on a CPU's own queue that already holds a task (`Runs.UserKeepsCappedIff`); a run
  reaches a state where one does (`Counterexamples.MessageCanOverfill`). Until a message
  takes effect the capacities hold, fallback or not (`Runs.ReachableIsGood`).
- A kernel worker gets at least the base slice exactly when the wrapped product of four
  base slices, or the minimum slice, reaches it (`Policy.WorkerGetsBaseIff`); there are
  options where it gets less (`Loader.WorkerCanGetLess`).
- More queue pressure lengthens the lag of a deadline exactly when `nr_wait * slice_ns`
  wraps past the backlog threshold while more than one budget of credit is left
  (`VirtualTime.LagScaleShrinksIff`); there are options that do it
  (`Loader.LagScaleCanGrow`).
- The wrapping catch-up of virtual time is the integer maximum exactly when the compared
  distance is representable as a signed 64-bit number or is at least 2^64, where the
  wrapped comparison agrees again (`VirtualTime.CatchUpExact`,
  `Counterexamples.CatchUpCanFail`).

The generation counter `enq_cnt` (main.bpf.c:257) is compared but never advanced, so the
cancellation of stale messages (main.bpf.c:956-960) never happens; every reachable state
has zero cancellations (`Runs.ReachableIsGood`). No line of main.bpf.c writes the `queued`
ring (it is declared at 211-219 and queried at 448), so no task reaches the fallback from
this program; the lanes are proved for whatever the ring delivers.

## Assumptions

These belong to the kernel, its headers or the machine.

- Every callback is atomic.
- `scx_bpf_dsq_insert_vtime` stores the given key in `dsq_vtime` and inserts in
  sorted order, first come first served among equal keys; a peek returns the head;
  `scx_bpf_dsq_move_to_local` moves the first task allowed on the CPU, or none. The
  kernel orders keys as a signed difference, which is `<` while keys stay below 2^63.
- `scale_by_task_weight(v)` is `v * w / 100` and its inverse is `v * 100 / w` in
  unsigned 64-bit arithmetic, with `1 <= w <= 10000`.
- Elapsed times are non-negative inputs; PIDs are positive; `nr_cpu_ids` is at most
  `MAX_CPUS`.
- `SCX_DSQ_LOCAL_ON` is `0xC000000000000000`, above every scheduler-owned identifier.
- The topology library lists CPUs in ascending order and every LLC and node they
  mention.
- `f32` and `f64` are exact reals; Rust is built without overflow checks, so `ref_base * 4`
  wraps.
- Clocks, idle-CPU search, real-time pressure, a task's previous CPU, the content of
  the kernel rings, the dispatch slots left after each message and the fate of each
  submission are arbitrary inputs.

## Model

| member | source | states |
|---|---|---|
| PidProbe.FindExact | src/main.rs:653-669 | under the probe-chain invariant a lookup succeeds exactly for PIDs in the array and returns the only slot holding the PID |
| PidProbe.ProbeForSlot | src/main.rs:653-669 | the probe loop over the array computes the specified lookup |
| PidProbe.ProbeForInsert | src/main.rs:672-700 | the loop with its first-tombstone memory finds the specified slot and says whether the PID already owns it |
| PidProbe.InsertKeeps | src/main.rs:672-700 | insertion keeps chains, uniqueness and tags; a present PID is untouched; a live entry is overwritten iff the PID is absent and every slot is live, and then it is the home slot |
| PidProbe.EvictKeeps | src/main.rs:718-723 | eviction keeps the invariant, removes the PID and touches no other slot |
| PidProbe.ClaimKeeps | src/ai/trust.rs:326-332 | the write outside the probe loop keeps the invariant: an empty home slot proves the PID is nowhere else |
| PidProbe.LiveCount | src/main.rs:672-700 | the table holds at most as many PIDs as slots, and as many exactly when all are live |
| PidProbe.PutRefines | src/main.rs:672-700 | the live set gains the PID and loses another only from a full table |
| PidProbe.DropRefines | src/main.rs:718-723 | the live set loses exactly the evicted PID |
| PidProbe.RunKeepsInv | src/main.rs:647-723 | the invariant survives every sequence of insertions and evictions |
| PidProbe.RunRefinesSet | src/main.rs:647-723 | the array agrees with an unbounded set throughout a run iff that set never outgrows the table |
| Lifetime.FreshTable | src/main.rs:523-524 | a new table is valid and empty |
| Lifetime.InsertIsMapInsert | src/main.rs:672-714 | an existing record survives, a new one is the default, and the one record that can vanish is the home occupant of a full table |
| Lifetime.StoreIsMapUpdate | src/main.rs:1157-1171 | writing through the returned reference sets that PID's record and no other |
| Lifetime.EvictIsMapRemove | src/main.rs:718-723 | eviction removes one record and keeps all others |
| Lifetime.AgreeingSize | src/main.rs:672-700 | a map the table agrees with fits in it, and fills it exactly when every slot is live |
| Lifetime.RunRefinesMap | src/main.rs:647-723 | every lookup answers as an unbounded map would, throughout a run of writes and evictions, iff that map never outgrows the table |
| Counterexamples.TableCanForget | src/main.rs:694-700 | after 4097 tasks a lookup differs from the map's |
| Lifetime.LifetimeTable.constructor | src/main.rs:523-524 | the arrays start as the empty table |
| Lifetime.LifetimeTable.FindSlot | src/main.rs:653-669 | finds the only slot of the PID, or none |
| Lifetime.LifetimeTable.FindOrInsertSlot | src/main.rs:672-700 | two arrays updated in place equal map insertion at the specified slot |
| Lifetime.LifetimeTable.Get | src/main.rs:703-707 | reads the map value of a positive PID |
| Lifetime.LifetimeTable.Store | src/main.rs:711-714 | inserts if needed and writes the record |
| Lifetime.LifetimeTable.EvictPid | src/main.rs:718-723 | leaves a tombstone and a default record |
| Trust.ScoreStaysInUnit | src/ai/trust.rs:286-318 | any observation keeps a score in [-1, 1] |
| Trust.ScoreStaysAboveFloor | src/ai/trust.rs:286-318 | observations built from lifetime records keep a score in [-142/979, 1] |
| Trust.FloorIsSharp | src/ai/trust.rs:293-300 | repeated preempted exits approach -142/979 geometrically, so no larger floor holds |
| Trust.ScoreIsMonotone | src/ai/trust.rs:286-318 | after the same exit, a better score before is never a worse score after |
| Trust.UnderrunPays | src/ai/trust.rs:288-290 | leaving half the slice unused strictly raises the score up to 0.85 |
| Trust.CleanExitPays | src/ai/trust.rs:292-294 | so does a clean exit, which counts for nothing beside a cheat |
| Trust.AbuseCosts | src/ai/trust.rs:297-318 | burning the slice, a cheat flag, more than 50 forks and more than 1000 involuntary switches each strictly lower it |
| Trust.CountsMatterBeyond | src/ai/trust.rs:310-318 | up to 50 forks and 1000 switches the counts do not matter; more forks never cost less, all together at most 0.3 |
| Trust.FirstImpressions | src/ai/trust.rs:286-318 | where one exit of each kind takes a neutral score, to the last digit |
| Trust.GroupFollows | src/ai/trust.rs:326-334 | the thread group's score moves a fifth of the way to the exit's, from neutral in an unowned slot, and stays put in somebody else's |
| Trust.InsertedOk | src/ai/trust.rs:218-253 | claiming a slot keeps the table valid and reads neutral for a new PID |
| Trust.InsertedOthers | src/ai/trust.rs:218-253 | other PIDs keep score, flag and streak unless displaced from a full table, which reads neutral |
| Trust.ObservedEffect | src/ai/trust.rs:281-324 | an observation moves the score, flag and streak of its own PID only |
| Trust.BlendedEffect | src/ai/trust.rs:326-334 | the thread-group claim changes nobody's score, flag or streak and keeps the table valid |
| Trust.UpdateEffect | src/ai/trust.rs:278-335 | the whole update: own PID by the stated formula, others unchanged unless displaced, invariant kept |
| Trust.EvictEffect | src/ai/trust.rs:356-365 | eviction reads neutral for the PID and changes nobody else |
| Trust.UpdateKeepsWithin | src/ai/trust.rs:278-335 | both score bounds survive an update |
| Trust.EvictKeepsWithin | src/ai/trust.rs:356-365 | both score bounds survive an eviction |
| Trust.NobodyBelowFloor | src/ai/trust.rs:413-420 | scores above the floor mean an empty quarantine |
| Watchlists.WatchlistSkip | src/ai/trust.rs:380-384 | passing over a slot keeps the watchlist correct |
| Watchlists.WatchlistAppend | src/ai/trust.rs:393-395 | appending keeps distinct bad PIDs, the count and a minimum-score entry |
| Watchlists.WatchlistReplace | src/ai/trust.rs:396-402 | overwriting the first better entry never loses the minimum score |
| Watchlists.KeptIsWatchlist | src/ai/trust.rs:376-406 | the list has min(20, quarantined) entries of distinct bad PIDs, one of them with the global minimum score |
| Watchlists.ShortListInOrder | src/ai/trust.rs:393-395 | with at most 20 bad PIDs the list is all of them, in slot order |
| Watchlists.ListsEveryoneIff | src/ai/trust.rs:376-406 | every quarantined PID is listed iff there are at most 20 |
| Watchlists.ShortListWorstFirstIff | src/ai/trust.rs:367-369 | with at most 20 bad PIDs it is worst first iff their scores ascend by slot |
| Watchlists.ReplacesLeastBadIff | src/ai/trust.rs:397-401 | the overwritten entry is a least bad one iff no later entry is better |
| Ranking.ChosenCount | src/ai/trust.rs:369-371 | ranking by score, ties by slot, singles out exactly twenty entries, or all of fewer |
| Ranking.ListsTopIff | src/ai/trust.rs:369-406 | the list is exactly the twenty most distrusted iff, in the first twenty with outsiders replaced in order by later insiders, each filled-in score is at least every score to its left |
| Ranking.AnnouncedIff | src/ai/trust.rs:367-406 | the list is the twenty most distrusted, worst first, iff the filled-in scores ascend |
| Ranking.MostDistrustedWithoutTies | src/ai/trust.rs:369-406 | the same condition makes no unlisted bad PID worse than a listed one, and without a tie at the twentieth is necessary for it |
| Ranking.AnnouncedWithoutTies | src/ai/trust.rs:367-406 | without a tie at the twentieth, no unlisted PID is worse than a listed one and the list is worst first iff the filled-in scores ascend |
| Ranking.AscendingIsAnnounced | src/ai/trust.rs:367-406 | for any number of bad PIDs, scores ascending by slot give the twenty most distrusted, worst first |
| Counterexamples.ListCanMislead | src/ai/trust.rs:397-401 | a run of 21 exits ends with a list that is neither worst first nor the most distrusted |
| TrustArrays.TrustTable.constructor | src/ai/trust.rs:166-179 | all-zero arrays are the neutral table |
| TrustArrays.TrustTable.FindSlot | src/ai/trust.rs:192-208 | finds the only slot of the PID, or none |
| TrustArrays.TrustTable.Score | src/ai/trust.rs:259-261 | the owner's score, neutral for an unknown PID |
| TrustArrays.TrustTable.GetOrInsertSlot | src/ai/trust.rs:218-253 | the loop computes the specified slot and resets it to neutral when new |
| TrustArrays.TrustTable.UpdateOnExit | src/ai/trust.rs:278-335 | six arrays updated in place equal the specified update |
| TrustArrays.TrustTable.EvictPid | src/ai/trust.rs:356-365 | six arrays updated in place equal the specified eviction |
| TrustArrays.TrustTable.QuarantinedCount | src/ai/trust.rs:413-420 | counts live PIDs below the threshold |
| TrustArrays.TrustTable.FlaggedCount | src/ai/trust.rs:425-432 | counts live flagged PIDs |
| TrustArrays.TrustTable.WorstActors | src/ai/trust.rs:376-406 | the scan with its fixed output array computes exactly the specified list, zero entries behind it |
| TrustArrays.Offer | src/ai/trust.rs:393-402 | one bad slot is appended while there is room, else overwrites the first better entry |
| Housekeeping.RecordsAreExclusive | src/main.rs:1318-1325 | a record never reads both underrun and preempted, nor cheat-flagged |
| Housekeeping.NextKeeps | src/main.rs:1157-1171 | arrivals, exits and flushes keep both tables valid, in the floor and without streaks |
| Housekeeping.RunIsGood | src/main.rs:1279-1329 | the invariant holds after every sequence of arrivals, exits and flushes |
| Housekeeping.WatchlistStaysEmpty | src/ai/trust.rs:278-335 | on no run does any PID fall below -0.15 or get flagged, so the watchlist is always empty |
| Housekeeping.TrustRunStaysValid | src/ai/trust.rs:278-365 | for arbitrary observations the probe invariant, the flag's meaning and [-1, 1] survive every sequence |
| Housekeeping.TrustIsEarned | src/ai/trust.rs:278-365 | unless it was displaced from a full table, a PID reads exactly the score, flag and streak its own exits earned since its last eviction |
| Housekeeping.TableHoldsHeld | src/ai/trust.rs:278-365 | the table holds only PIDs and thread groups observed and not forgotten since |
| Housekeeping.FittingRunsAreEarned | src/ai/trust.rs:278-365 | as long as at most 4096 PIDs and thread groups are held at a time, every PID reads exactly what its own exits earned, however long the run |
| Housekeeping.FlushForgets | src/main.rs:1307-1329 | a flush forgets the listed PIDs and nobody else |
| Housekeeping.StaleExact | src/main.rs:1296-1305 | a PID is listed iff its record is stale and fewer than 256 stale ones lie in earlier slots |
| Housekeeping.FlushIsExact | src/main.rs:1279-1329 | a flush forgets exactly the first 256 stale records in slot order |
| Housekeeping.FlushClearsIff | src/main.rs:1279-1329 | one flush clears every stale record iff there are at most 256 |
| Counterexamples.FlushCanLeaveStale | src/main.rs:1301-1305 | a run of 257 arrivals after which one flush leaves a stale record |
| Housekeeping.Keeper.RecordArrival | src/main.rs:1157-1171 | the record of a drained task is the specified one |
| Housekeeping.Keeper.DrainExitedTasks | src/main.rs:725-741 | consumes reports up to the batch, an error or the end, forgetting each positive PID in both tables |
| Housekeeping.Keeper.CollectStale | src/main.rs:1296-1305 | the fixed array receives the first 256 stale PIDs in slot order |
| Housekeeping.Keeper.FlushPid | src/main.rs:1307-1328 | snapshot, evict, observe; a PID already gone is skipped |
| Housekeeping.Keeper.FlushTrustUpdates | src/main.rs:1279-1329 | collection and flush equal the specified step |
| Reputation.KnownIsLastReport | src/main.rs:1157-1171 | after every run a known PID's record is that of the last report drained for it, whatever was displaced or evicted meanwhile |
| Reputation.ForgottenIff | src/main.rs:1290-1305 | a flush forgets a PID iff its last report was drained two seconds ago or earlier, and fewer than 256 such records lie in earlier slots |
| Reputation.FlushIsTold | src/main.rs:1307-1328 | a flush tells the trust engine one verdict on each PID it forgets, in slot order and by its last report (underrun below half the slice, preempted from seven eighths, clean), and nothing else |
| Reputation.RunTells | src/main.rs:1279-1329 | every run leaves the trust table built by exactly those verdicts and one eviction for each positive PID reported gone |
| Reputation.RunIsEarned | src/main.rs:725-741 | so while at most 4096 PIDs are held, every PID reads exactly what the verdicts on its own reports earned since it was last reported gone |
| Reputation.FlaggedIffAdverse | src/ai/trust.rs:302-324 | a PID is flagged iff its last two exits or more since its eviction were adverse; the table counts them up to 255 |
| TaskQueues.TaskRing.PushBack | src/task_queue.rs:39-50 | appends, or hands the value back exactly when full |
| TaskQueues.TaskRing.PopFront | src/task_queue.rs:53-61 | removes and returns the oldest across every wrap-around |
| TaskQueues.TaskRing.Front | src/task_queue.rs:65-71 | the oldest value, if any |
| TaskQueues.TaskQueue.PushBack | src/task_queue.rs:114-125 | refines a FIFO of capacity + 1: rejected only at that length, deferred only for the last place |
| TaskQueues.TaskQueue.PopFront | src/task_queue.rs:128-135 | removes and returns the oldest; the deferred value moves behind the ring |
| TaskQueues.TaskQueue.RefillFromDeferred | src/task_queue.rs:163-173 | restores "deferred implies full ring" and keeps the order |
| TaskQueues.TaskQueue.Front | src/task_queue.rs:138-140 | the oldest value across ring and deferred slot |
| TaskQueues.TaskQueue.IsEmpty | src/task_queue.rs:143-145 | true exactly for the empty sequence |
| TaskQueues.TaskQueue.Length | src/task_queue.rs:148-150 | the length of the sequence |
| TaskQueues.TaskQueue.HasDeferred | src/task_queue.rs:158-160 | true exactly at full capacity |
| Policy.SliceAndCreditBounds | src/main.rs:1041-1069 | slice in [min, max(4 base, min)], credit at most min(slice, 4 ms) and only for short sleepers |
| Policy.WorkerGetsBaseIff | src/main.rs:1053-1057 | a kernel worker gets at least the base slice iff the wrapped product of four base slices, or the minimum, allows it: always below 2^62 ns |
| Loader.WorkerCanGetLess | src/main.rs:1053-1057 | with `--slice-us 4611686018427388` every kernel worker gets the minimum slice, less than the base |
| Policy.FrontBounds | src/main.rs:1084-1097 | the clock never runs back and bounds what it admits; an admission is at most one base slice behind |
| Policy.DispatchFloor | src/main.rs:1203-1215 | a dispatched virtual time is at least the front minus a base slice minus 4 ms, under saturation |
| Grants.RealTimeIff | src/main.rs:1018-1027 | a task is real-time iff it is a kernel worker or weighs more than 9500 |
| Grants.LabelIff | src/ai/classifier.rs:96-112 | an ordinary task waits for I/O, computes or is interactive by integer inequalities between its burst, its last slice and its run time since waking |
| Grants.SensitiveIff | src/main.rs:976-984 | it is latency sensitive iff it napped 0.75 to 25 ms, used 30% of its last slice and 55% of its run time is this burst |
| Grants.BoostedIff | src/main.rs:757-770 | it is boosted iff, moreover, it used 45% of the slice and 60% of its run time is this burst |
| Grants.SliceIsGrantedIff | src/main.rs:1035-1057 | a slice above the floor is granted iff it is within four base slices and, less half the sleep bonus for a boosted task, within the controller's slice scaled by the weight; the bonus is a quarter of the nap, clamped |
| Grants.HeavierGetsNoLess | src/main.rs:1040 | a heavier ordinary task never gets a shorter slice, whatever saturates |
| Grants.CreditIsBonus | src/main.rs:1061-1068 | a boosted task's wake credit is exactly its sleep bonus cut to its slice and 4 ms; nobody else has any |
| Grants.ArrivalIsCharged | src/main.rs:1084-1106 | an arrival enters at the front or its own time raised to a base slice behind it, is charged its burst inversely to its weight, and its deadline lies one slice, scaled alike, ahead |
| Grants.MessageSays | src/main.rs:1203-1222 | the message keeps PID and slice, names the task's own CPU only for kernel workers or on request, and goes ahead of the deadline by half the slice or the credit up to 4 ms for boosted tasks only |
| Lanes.PushKeeps | src/main.rs:823-857 | a push with room keeps the task and its lane |
| Lanes.DrainKeeps | src/main.rs:1126-1194 | the deferred guard makes every admission find room |
| Lanes.DispatchKeeps | src/main.rs:1198-1232 | a dispatch hands over or keeps its task, never loses it |
| Lanes.RunKeeps | src/main.rs:1400-1445 | in every run of rounds with tasks forgotten in between, received equals dispatched plus waiting as multisets, and nothing is ever dropped |
| Lanes.CleanRoundOrder | src/main.rs:869-901 | without failure a round emits the RT lane, the boosted lane, the general lane, each in order |
| Lanes.FailedRoundOrder | src/main.rs:1227-1230 | the first failure ends the round: the tasks before it are gone in order and it waits behind the rest of its lane, the others unmoved |
| Lanes.FailedRoundFifoIff | src/main.rs:1227-1230 | a failed round keeps the waiting order iff the tasks left in the failed task's lane are all alike |
| Lanes.RetryOvertakes | src/main.rs:1227-1230 | two ordinary tasks: the second overtakes the failed first |
| Lanes.EmptyIffNoFailure | src/main.rs:1428-1432 | the lanes end empty iff every submission succeeds |
| Lanes.PendingIffFailure | src/main.rs:1434-1435 | `nr_scheduled` is reported 0 iff no submission failed |
| Lanes.RunRemembers | src/main.rs:1157-1171 | in every such run the lifetime table holds the records of the received tasks, written in order, less those evicted since |
| Lanes.RunJudgesByOwnPast | src/main.rs:1000-1008 | while at most 4096 PIDs are known, a task's burst and sleep are measured against its own previous report unless it was forgotten |
| Lanes.RunIsFair | src/main.rs:1084-1106 | across a whole run an ordinary task's dispatched virtual time is at most a base slice and 4 ms behind that of any earlier admission |
| Intake.ReportJoinsLane | src/main.rs:823-857 | a report that is taken becomes one task that carries it, at the end of the first lane for real-time tasks, the second for boosted ones, else the third |
| Intake.DrainTakesAllItMay | src/main.rs:1126-1194 | one call takes reports in order until its budget, the end, an error or a lane's deferred place stops it |
| Intake.RoundTakesItsBudget | src/main.rs:1408-1412 | in every run a round takes at most four reports per CPU, or sixteen, and fewer only when it must |
| Fallback.Scheduler.constructor | src/main.rs:508-541 | around empty lanes and an empty table it starts idle |
| Fallback.NewScheduler | src/main.rs:439-541 | allocates separate lanes and table and starts idle |
| Fallback.Scheduler.ForgetPid | src/main.rs:718-723 | a task reported gone or flushed leaves no record |
| Fallback.Scheduler.HasDeferredTasks | src/main.rs:750-754 | true iff some lane is at full capacity |
| Fallback.Scheduler.DeriveTaskPolicy | src/main.rs:986-1122 | the in-place update of the clock and of the task's vtime equals the specified policy |
| Fallback.Scheduler.PushTask | src/main.rs:823-857 | routes to the specified lane |
| Fallback.Scheduler.PopHighestPriorityTask | src/main.rs:869-901 | for every clock value the preemption and starvation branches amount to plain strict priority |
| Fallback.Scheduler.AdmitArrival | src/main.rs:1147-1186 | one drained task is judged by its last record, its new record is written, and it is queued |
| Fallback.Scheduler.DrainQueuedTasks | src/main.rs:1126-1194 | the loop equals the specified drain, lifetime records included |
| Fallback.Scheduler.DispatchTask | src/main.rs:1198-1232 | pops, builds the message, submits or pushes back |
| Fallback.Scheduler.TasksEmpty | src/main.rs:905-909 | true iff nothing waits |
| Fallback.Scheduler.TasksLen | src/main.rs:913-917 | the number of waiting tasks |
| Fallback.Scheduler.DispatchWaiting | src/main.rs:1428-1432 | terminates with the waiting count as measure and equals the specified dispatch phase |
| Fallback.Scheduler.NotifyComplete | src/bpf.rs:517-522 | stores the pending count |
| Fallback.Scheduler.Schedule | src/main.rs:1400-1445 | one call equals the specified round |
| VirtualTime.AvgIsBetween | main.bpf.c:600-603 | the running average never leaves the range of its two inputs, so its unsigned sum never wraps |
| VirtualTime.AvgIsWeighted | main.bpf.c:600-603 | it moves a quarter of the way to the new value, up to rounding |
| VirtualTime.CatchUpExact | main.bpf.c:777-799 | the wrapping code computes max(vtime, now - lag) iff the compared distance is representable (or wraps to agree) |
| Counterexamples.CatchUpCanFail | main.bpf.c:793-795 | at 2^63 ns a task is pulled back to zero |
| VirtualTime.CatchUpCalm | main.bpf.c:777-799 | below 2^63 it is always that maximum, start-up with now < lag included |
| VirtualTime.TimeBeforeCalm | main.bpf.c:1478-1479 | below 2^63 the signed comparison is `<` |
| VirtualTime.LagScaleBounds | main.bpf.c:782-791 | the lag scale lies in [1, max(wakeup frequency, 1)] |
| VirtualTime.LagScaleExact | main.bpf.c:786-789 | without half a second of backlog a multiplier above one is granted iff the wakeup frequency, spread over the slices that fill half a second and the waiters, leaves as much |
| VirtualTime.QThreshExact | main.bpf.c:780 | the backlog threshold is the number of slices that fill half a second |
| VirtualTime.LagScaleShrinksIff | main.bpf.c:782-791 | more queue pressure lengthens the lag iff the product compared with the backlog threshold wraps past it while credit above one budget is left |
| VirtualTime.LagScaleShrinks | main.bpf.c:788-791 | hence never while that product fits 64 bits |
| VirtualTime.LagIsBounded | main.bpf.c:793 | the weight-scaled lag is the exact product, at most 64 budgets at the highest weight |
| VirtualTime.AwakeIsCapped | main.bpf.c:796-797 | awake time is capped by one weight-scaled budget |
| Dsq.InsertSplits | main.bpf.c:1304-1308 | a sorted insertion goes after every key not greater than its own |
| Dsq.InsertKeepsSorted | main.bpf.c:1304-1308 | a sorted queue stays sorted and gains exactly one waiter |
| Dsq.FirstAllowedIsFirst | main.bpf.c:1397-1398 | a move takes the first allowed waiter, none iff there is none |
| Dsq.ScanPicksBest | main.bpf.c:971-984 | an election returns the lexicographic best of (earliest head, deepest queue), ties to the first visited |
| Hierarchy.TiersAreDisjoint | main.bpf.c:57-83 | the identifier ranges are pairwise disjoint |
| Hierarchy.OverflowHasRoom | main.bpf.c:741-767 | the overflow target is a tier with room under its threshold |
| Hierarchy.OverflowIsNearest | main.bpf.c:741-767 | it is the nearest own tier below its threshold, so the shared queue iff every narrower one is full |
| Hierarchy.OwnTiersWiden | main.bpf.c:472-543 | a CPU's tiers widen strictly from its own queue to the shared one, through its own LLC and node |
| Hierarchy.ThresholdIsShare | main.bpf.c:705-725 | the desktop threshold is the least share that covers the online CPUs, the server's half of it and at least one |
| Hierarchy.PressureIsDepth | main.bpf.c:679-692 | the pressure on a CPU is everything that waits in its own tiers |
| Hierarchy.ServerSpillsNoLater | main.bpf.c:705-725 | on any queues server mode picks a tier at least as broad as desktop mode |
| Hierarchy.SharesFit | main.bpf.c:705-725 | the thresholds of all domains together exceed the online CPUs by less than one per domain |
| Hierarchy.NarrowTiersAreBounded | main.bpf.c:694-767 | the non-shared tiers together hold at most nr_cpu_ids + (online + llcs - 1) + (online + nodes - 1) |
| Hierarchy.RotationVisitsOthersOnce | main.bpf.c:998-1004 | a steal rotation visits every other domain exactly once and never its own |
| Hierarchy.CpuVictimsListed | main.bpf.c:1038-1052 | every remote CPU queue with an allowed head is considered |
| Hierarchy.LlcVictimsListed | main.bpf.c:998-1007 | every LLC of the rotation (of the node, if asked) is considered |
| Hierarchy.NodeVictimsListed | main.bpf.c:1073-1079 | every node of the rotation is considered |
| WorkConservation.EarliestDeadlineFirst | main.bpf.c:1378-1397 | for unrestricted tasks the own tiers are served first, by the least deadline of all four, ties to the nearer tier |
| WorkConservation.OwnChoiceIsComplete | main.bpf.c:1397-1406 | the own tiers yield nothing iff none holds a movable task |
| WorkConservation.DispatchIsWorkConserving | main.bpf.c:1378-1416 | for unrestricted tasks a dispatch reaches the refill branch iff no backlog exists |
| WorkConservation.DispatchFindsAllowedWork | main.bpf.c:1378-1416 | with any affinities it finds a task whenever an allowed one waits in its own tiers or any per-CPU queue |
| WorkConservation.ChosenIsTier | main.bpf.c:1378-1416 | whatever a dispatch draws from is a non-empty queue of the hierarchy, of the tried kind |
| WorkConservation.MoveTakesOne | main.bpf.c:1397-1416 | a move carries one allowed waiter from its queue to the tail of the local queue |
| WorkConservation.MoveFrame | main.bpf.c:1397-1416 | every other queue is untouched |
| WorkConservation.MoveDelivers | main.bpf.c:1397-1416 | a move delivers one allowed task to the CPU and changes no third queue |
| WorkConservation.MoveDrainsOne | main.bpf.c:1397-1416 | the hierarchy as a whole loses exactly one task |
| WorkConservation.BacklogIsDepth | main.bpf.c:1101-1128 | a backlog exists iff the total depth is positive |
| Runs.NextKeeps | main.bpf.c:903-1524 | every callback and kernel step keeps order, ledgers and counters, and the capacities until a userspace message takes effect |
| Runs.ReachableIsGood | main.bpf.c:694-767 | in every reachable state tiers are sorted, ins = outs + depth, kernel = local + llc + node + shared, nothing was cancelled; until a userspace message takes effect tiers are within capacity and node tiers empty without NUMA |
| Runs.ReachableIsBounded | main.bpf.c:694-767 | the capacity bound holds in every reachable state in which no userspace message took effect, fallback or not |
| Runs.RunsAreWorkConserving | main.bpf.c:1345-1429 | in every such state a dispatch without messages moves exactly one task iff anything waits, else only refills |
| Runs.RunsServeEarliest | main.bpf.c:1378-1397 | in every reachable state a dispatch moves to the CPU a task of its own tiers with the least deadline of all four, and touches no third queue |
| Runs.RunsFindAllowedWork | main.bpf.c:1378-1410 | in every reachable state a dispatch moves an allowed task to the CPU whenever one waits near |
| Runs.UserKeepsCappedIff | main.bpf.c:939-947 | a userspace message keeps capacities iff it does not land on a CPU's own queue that holds a task |
| Counterexamples.MessageCanOverfill | main.bpf.c:939-947 | a run from boot reaches a state within capacity that one message takes over it |
| Runs.EnqueueInsertsOnce | main.bpf.c:1227-1316 | an enqueue of a known task puts it into exactly one queue and leaves the others alone |
| Runs.SliceIsFairShare | main.bpf.c:769-775 | a slice above the minimum is granted iff everything waiting near the CPU can have as much within one weight-scaled base slice |
| Runs.ChargeIsWeighted | main.bpf.c:1502-1512 | run time is charged inversely to weight to both virtual times of that task, and nothing else changes |
| Runs.HeavierIsChargedLess | main.bpf.c:1510 | of two tasks that ran equally long the heavier one is charged no more |
| Routing.HomeIsKept | main.bpf.c:1266-1278 | a kernel thread, or a short burst with stickiness on and no real-time work there, goes to the tail of its previous CPU's local queue |
| Routing.IdleIsUsed | main.bpf.c:1284-1292 | any other task that may move and for which an idle CPU was found goes to the tail of that CPU's local queue |
| Routing.OthersAreDeferred | main.bpf.c:1304-1308 | any other task joins one tier in key order: the shared one when it may move off a CPU busy with real-time work, else the nearest with room |
| Routing.DeferredKeyIsExact | main.bpf.c:777-799 | its key is max(vtime, front - lag) + min(awake, cap), and nothing else of it changes but awake time and slice |
| Routing.SchedulerQueues | main.bpf.c:1244-1248 | the fallback's own process goes to the tail of its own queue while the fallback is on |
| Routing.WakeupUsesIdle | main.bpf.c:1161-1165 | a wakeup sends the task to the idle CPU that was found, or changes nothing |
| Routing.RepairedCpuIsUsable | main.bpf.c:1141-1142 | the repaired CPU is one the task may use whenever there is one, the previous first, then the waker's |
| Routing.MessageLands | main.bpf.c:903-969 | a userspace message puts its task, under its key and slice, into the queue of the CPU it names if allowed there, else of the CPU last used, or the shared one |
| Routing.MessageIsCounted | main.bpf.c:903-969 | it is counted as a bounce iff it names a CPU the task may not use |
| Routing.SchedulerGoesFirst | main.bpf.c:1369-1371 | with work for the fallback its own process leaves its queue first |
| Routing.StealsAreCounted | main.bpf.c:1407-1416 | only a task from another LLC's or node's queue counts as a steal across it |
| Routing.RefillIsFair | main.bpf.c:1418-1428 | when nothing can be taken, the task that keeps the CPU gets a fair slice, the fallback's process only while it has work |
| Routing.JoinerStartsAtFront | main.bpf.c:1520-1524 | a task that joins starts at the front with at least the base slice, and its first deadline is not before it |
| Routing.FrontFollowsRunning | main.bpf.c:1478-1479 | while values are small the front moves forward to the task that starts, and never back |
| Routing.WakeupStartsBurst | main.bpf.c:1443-1448 | a wakeup clears the burst and moves the frequency a quarter of the way to the number of such gaps in 100 ms |
| Routing.StopAverages | main.bpf.c:1500-1508 | a stop adds the run time to the burst and moves the average a quarter of the way to it |
| Runs.CatchUpIsExact | main.bpf.c:793-795 | the caught-up virtual time is the integer maximum, the lag the exact product |
| Runs.DeadlineIsExact | main.bpf.c:777-799 | while values stay below 2^63 the deadline is max(vtime, now - lag) + min(awake, cap) over the integers |
| Runs.FrontIsMonotone | main.bpf.c:1478-1479 | `vtime_now` never decreases along a run |
| Runs.OvertakingIsBounded | main.bpf.c:777-799 | once the front is past d by the largest lag no later deferred enqueue gets a deadline before d |
| Service.StepAhead | main.bpf.c:1227-1316 | past a deadline by more than the largest lag, no step queues anybody not later than it |
| Service.OwnDispatchAhead | main.bpf.c:1378-1397 | a dispatch takes one of the tasks not later than the deadline, while there is one |
| Service.WorkedOff | main.bpf.c:1345-1429 | along a run the work ahead of a passed deadline shrinks by one with every dispatch of the CPU |
| Service.ServiceIsBounded | main.bpf.c:1345-1429 | bounded service: after as many dispatches as tasks then ahead, nobody with that deadline still waits in the CPU's tiers |
| IntegerMachine.StepCoincides | main.bpf.c:769-799 | from small state to small state the 64-bit step equals the step on unbounded integers |
| IntegerMachine.IntegerRunIsRun | main.bpf.c:769-1524 | a run of the integer machine with small values is a run of the 64-bit machine, queue keys included |
| IntegerMachine.RunsCoincide | main.bpf.c:769-1524 | under the same events the two machines never part while integer values stay below 2^63 |
| Stranding.LlcScan | main.bpf.c:998-1019 | an LLC election is won by the earliest head, then the deepest queue, then the first visited, read off the queues |
| Stranding.NodeScan | main.bpf.c:1073-1091 | the same for a node election |
| Stranding.RefillExactly | main.bpf.c:1397-1416 | a CPU refills iff nothing near may run there and the preferred queue of each remote rotation holds no allowed task |
| Stranding.StrandedIff | main.bpf.c:1013-1024 | a CPU refills beside an allowed task iff such tasks wait in remote LLC or node queues only and each rotation prefers a queue without one |
| Stranding.RunStrandsWork | main.bpf.c:1013-1024 | a run from boot reaches such a state |
| DispatchOrder.CpuScan | main.bpf.c:1038-1059 | stealing from other CPUs fails iff none has a head to steal, else takes the earliest head, ties to the lowest CPU |
| DispatchOrder.NearestIsNext | main.bpf.c:1378-1416 | a dispatch draws from its own tiers; when they are dry from a CPU queue, of its cache domain if that has any; when nothing it may run waits near, from the preferred LLC queue of its node, then the preferred node queue, then the preferred LLC queue anywhere |
| DispatchOrder.NextIsUnique | main.bpf.c:1378-1416 | this order leaves exactly one choice |
| DispatchOrder.StealsGoOutwards | main.bpf.c:1407-1416 | a task is taken from outside the cache domain only when the domain has nothing to steal, and from an LLC of another node only when the preferred LLC queue of the own node and the preferred node queue hold nothing for the CPU |
| DispatchOrder.RunsServeNearest | main.bpf.c:1345-1429 | in every reachable state a dispatch without messages delivers the first allowed waiter of that queue, or moves nothing when the order is exhausted |
| Bpf.Cognis.CountKernelRoute | main.bpf.c:655-670 | bumps one route counter and the total |
| Bpf.Cognis.DirectLocalDispatch | main.bpf.c:672-677 | one local insertion, counted |
| Bpf.Cognis.TaskDl | main.bpf.c:777-799 | the in-place catch-up and the returned deadline equal the specified ones |
| Bpf.Cognis.DeferTask | main.bpf.c:1304-1308 | the deferred insertion equals the specified step |
| Bpf.Cognis.CognisSelectCpu | main.bpf.c:1130-1172 | a found idle CPU is dispatched to at once, else the previous CPU, repaired to one the task may use, is returned |
| Bpf.Cognis.CognisEnqueue | main.bpf.c:1227-1316 | all branches equal the specified step |
| Bpf.Cognis.ElectRemoteCpu | main.bpf.c:1038-1057 | the loop over CPUs elects the specified victim |
| Bpf.Cognis.ElectRemoteLlc | main.bpf.c:995-1019 | the rotation over LLCs elects the specified victim |
| Bpf.Cognis.ElectRemoteNode | main.bpf.c:1071-1091 | the rotation over nodes elects the specified victim |
| Bpf.Cognis.StealRemoteCpu | main.bpf.c:1029-1060 | steals from the elected queue or changes nothing |
| Bpf.Cognis.StealRemoteLlc | main.bpf.c:986-1027 | steals and counts, or changes nothing |
| Bpf.Cognis.StealRemoteNode | main.bpf.c:1062-1099 | steals and counts, or changes nothing |
| Bpf.Cognis.DsqBacklogExists | main.bpf.c:1101-1128 | the four scans answer true iff some tier is non-empty |
| Bpf.Cognis.EarliestHead | main.bpf.c:1378-1396 | the chain of comparisons names the tier with the earliest head |
| Bpf.Cognis.DispatchOwn | main.bpf.c:1397-1406 | the best tier, then each other tier that had a head, equals the specified choice |
| Bpf.Cognis.DispatchSteal | main.bpf.c:1407-1416 | the five steals in order equal the specified choice |
| Bpf.Cognis.DispatchUserTask | main.bpf.c:903-969 | a message is inserted where it asks, bounced to the previous CPU, or taken back when stale, and counted so |
| Bpf.ConsumedIs | main.bpf.c:1322-1333 | a drain consumes up to and including the first message that leaves dispatch slots over |
| Bpf.Cognis.DrainUserRing | main.bpf.c:1322-1361 | the consumed messages are dispatched in order |
| Bpf.Cognis.CognisDispatch | main.bpf.c:1345-1429 | the whole callback, user ring included, equals the specified step |
| Bpf.Cognis.CognisRunnable | main.bpf.c:1431-1449 | resets the burst, updates and caps the wakeup frequency |
| Bpf.Cognis.CognisRunning | main.bpf.c:1454-1480 | stamps the start and advances the front |
| Bpf.Cognis.CognisStopping | main.bpf.c:1485-1515 | charges the weight-scaled run time to both virtual times |
| Bpf.Cognis.CognisEnable | main.bpf.c:1520-1524 | a joining task starts at the front with a full slice |
| Loader.ProgressStep | src/bpf.rs:126-156 | one CPU keeps the numbering injective, dense, first-seen and consistent between LLC and node arrays, and within 64 |
| Loader.ProgressDone | src/bpf.rs:158-159 | the finished arrays are faithful, dense, first-seen and in range |
| Loader.Renumber | src/bpf.rs:135-151 | reuses a known number or hands out the next one |
| Loader.TopologyExport.Place | src/bpf.rs:153-155 | three array writes equal the specified update |
| Loader.Detect | src/bpf.rs:93-170 | CPUs share an index iff they share the original id, numbers are dense in first-seen order and in range, and LLC-to-node agrees with CPU-to-node when LLCs lie within nodes; unsupported hosts get the default |
| Loader.RodataIsValid | src/bpf.rs:344-371 | for all options the read-only data meets every bound the callbacks need, the minimum slice and the zero PID included |
| Profiles.RodataObeysOptions | src/main.rs:201-239 | lengths are the options' microseconds or the mode's defaults, the slice raised to its minimum, and the loader's PID is set only with the fallback |
| Profiles.ServerUsesIdle | main.bpf.c:1281-1289 | in server mode a user task for which an idle CPU was found always goes there |
| Profiles.DesktopKeepsRunning | main.bpf.c:1290-1308 | in desktop mode a task still running waits in the nearest tier with room, whatever CPUs are idle |
| Loader.LagScaleCanGrow | main.bpf.c:788-791 | with `--slice-us 9223372036854776` a second waiter raises the lag from 1 to 21 budgets |
| Loader.CeilingCanBeIgnored | src/ai/policy.rs:72-84 | with `--slice-us 100 --slice-us-min 50` every update exceeds the accepted ceiling |
| SliceControl.ComputedIsQuotient | src/ai/policy.rs:68-69 | the exact float computation equals the integer quotient |
| SliceControl.ComputedIsLargest | src/ai/policy.rs:68-69 | it is the largest slice within 6 ms whose round fits 6 ms times the CPUs |
| SliceControl.SliceIsLargestFitting | src/ai/policy.rs:63-84 | a slice above the floor is granted iff its round fits, 6 ms covers it and the ceiling admits it |
| SliceControl.SliceBounds | src/ai/policy.rs:63-84 | 250 us to 6 ms after any update, at most max(base, 250 us), and a slice above the floor lets one round fit |
| SliceControl.CeilingRespectedIff | src/ai/policy.rs:72-84 | the configured ceiling is respected iff it is at least 250 us |
| SliceControl.SliceIsMonotone | src/ai/policy.rs:63-84 | more load or fewer CPUs never lengthen the slice |
| SliceControl.ControllerIsMemoryless | src/ai/policy.rs:63-84 | after any updates the slice is in bounds and depends on the last load alone |
| SliceControl.RingSeesWindow | src/ai/policy.rs:93-96 | the ring's non-zero samples are those of the last 2048, in number and in every rank, wrap-around of the counter included |
| SliceControl.RankIsUnique | src/ai/policy.rs:116-119 | a rank names one value |
| SliceControl.SortedRank | src/ai/policy.rs:115-119 | the k-th sorted sample has rank k among the unsorted ones |
| SliceControl.PercentilesOfWindow | src/ai/policy.rs:100-121 | a query describes exactly the last 2048 samples and its answers are ordered |
| SliceControl.SliceController.constructor | src/ai/policy.rs:44-60 | starts from the clamped base with an empty ring |
| SliceControl.SliceController.Update | src/ai/policy.rs:63-76 | the fields written in place equal the specified update |
| SliceControl.SliceController.RecordSchedEventLatency | src/ai/policy.rs:93-96 | one slot is overwritten at the wrapping index |
| SliceControl.SliceController.ComputeSchedPercentiles | src/ai/policy.rs:100-121 | the three answers have ranks n/2, 95n/100 and 99n/100 among the non-zero samples, zeros without samples |

## Left out

- Idle-CPU selection, kicks, SMT and priority probing: kernel queries, whose answers are arbitrary inputs of the enqueue and select steps.
- Races inside one callback: depth reads and inserts are not atomic in the kernel.
- That a task waits in at most one queue at a time: the kernel's promise, not assumed and not needed.
- Timers, the progress guard, ring-buffer transport, attach and detach, panics, signals, the command line, statistics and the terminal interface: plumbing.
- `nr_running`, `nr_queued` and the congestion counter's reporting: plain counters.
- The 50 ms, 100 ms and 1 s time gates: a gated call is a step that may or may not happen.
- Rounding and NaN of `f32` and `f64`; the exact reals also stand for `0.10_f32` and its like.
- PIDs at or below zero in the tables: 0 and -1 are the markers themselves; the kernel's are positive.
- Latency counters, page-fault probing and the label tallies of the fallback; the kernel-worker name test is an input.
- Concurrency of the latency ring: samples are recorded one at a time.
- The quarantine's slice factor (src/ai/trust.rs:346-353): no caller's behaviour depends on it.
- Byte-level layout: affinity masks are sets of CPU numbers, and names are strings of characters rather than bytes.
- Kernel task pointers: the task's fields are read from and written to a map of task contexts; aliasing of kernel task pointers is not modelled.
- The kernel refusing an insertion for a task it no longer holds: a message for a known task always takes effect.
- Bpf.Cognis.CognisSelectCpu: a task without scheduler storage is not covered, because `cognis_init_task` creates the storage of every task before it can wake (main.bpf.c:1720-1731).
