# Verified models of zsim's protocols and data structures

zsim is a microarchitectural simulator. This project models, in Dafny, the parts of it whose
correctness is not visible from reading one function at a time, and proves what they are for.

* **Hierarchical MESI coherence.** One cache line over a tree of caches of any shape, at the
  granularity of the locks. Every node has the state kept by its bottom controller, the directory
  entry kept by its top controller, at most one activity that holds its top lock, at most one
  invalidation from above that holds its bottom lock, and at most one up-request that is
  outstanding with its bottom lock released. A step is what happens between two lock operations,
  so invalidations race with requests exactly where they can in the program. `CoherenceControllers`
  holds the controllers' decisions, `CoherenceSystem` the steps, `CoherenceInvariant` and
  `CoherenceSteps` the inductive invariant, `CoherenceTheorems` and `CoherenceProgress` the results:
  single writer, exact directory, inclusion, no lost writes, no failing assertion, no deadlock and
  no livelock. `CoherenceGrants`, `CoherenceLoad` and `CoherenceClean` state who is granted exclusive permission,
  who loses a copy, and what is never written back. `CoherenceObjects` has the two controllers as objects that
  update arrays in place, and connects one call of them to the steps.
* **The zcache array** (`ZTable`, `ZWalk`, `ZArray`): lookup through a hash-addressed position table,
  the breadth-first replacement walk, and insertion by a chain of relocations. The hash is any
  function, and so are the scores by which the replacement policy ranks the candidates.
* **The join/leave barrier with limited parallelism** (`BarrierState`, `BarrierProofs`, `Barrier`,
  `BarrierRuns`, `BarrierProgress`, `BarrierShuffle`): the run list edited in place, the counters and
  back-pointers, the end of a phase and how soon it comes, joins in a running phase, and the order of the next one.
* **The DDR memory controller** (`Ddr*`, `ActWindow`): FR-FCFS bank queues with a row-hit cap, clock
  translation, scheduling under DRAM timing constraints, refresh, the overflow queue, and the
  scheduling events that can be annulled. `DdrMemory` is the controller as an object; `DdrSystem`
  drives it by events; `DdrTheorems` states what holds in every run, `DdrRows` which rows the commands go to,
  `DdrPrompt` that no command comes later than it must, `DdrPriority` which queue is served, `DdrLag` and
  `DdrDrainRuns` that everything is served between refreshes, `DdrSpacing` and `DdrSpacingRuns`
  for which configurations the activations of a rank keep their distance, and `DdrWindowRuns` has a run that
  leaves an activation window out of order.
* **The filter cache** (`Filter*`): for how long a filter in front of a set-associative LRU cache cannot be
  noticed, when it is hit, and what least recently used means.
* **Locks** (`RwMutex`, `FutexLock`): every atomic access is a step, for any number of threads.
* **The ideal LRU array** (`IntrusiveList`, `LruOrder`, `IdealLru`) over a doubly linked intrusive list.
* **The data-bus slot finder** (`DataBus`, `DataBusRuns`), with the power-up penalties that shift what it logs.

Runs are finite sequences of steps, each enabled where it is taken. Where the program asserts
something, the model has a predicate with that assertion, a run stops where one fails, and a theorem
says that none fails. Integers are unbounded; 32- and 64-bit wrap-around is not modelled except for
the one decrement in each lock that could wrap below zero, which is proved not to, and the truncation of
replacement scores to 32 bits.

## What the models assume

* Coherence: caches are inclusive (`nonInclusiveHack` is off), there is one last-level cache, a terminal
  cache has one access in progress at a time, and the children of a node are visited in an arbitrary
  order (the program's order is one of them; `CoherenceObjects.WalkInAnyOrder` shows that it does not
  matter for the result). The return of an invalidation and the parent's note of it are one step.
  Evicting a line on behalf of another line's access appears as an eviction of its own.
* Barrier: every operation runs under the scheduler's lock, so it is one step; `join` of an offline
  thread leaves `lastIdx` stale (src/barrier.h:127-128), so a waiting thread leaves only after it has
  been woken once since. The shuffle's random indices are arbitrary within their ranges.
* zcache: line address 0 means an empty line, on which `lookup` panics (src/cache_arrays.cpp:321-326).
* DDR controller: events happen in the order of their system cycles; a request names its bank, and the
  banks of all ranks are numbered together. System frequency is at least twice the memory frequency,
  as the constructor demands. `DdrDrainRuns` asks that refreshes come at least `Rest` memory cycles apart, which
  is 1168 for DDR3-1333-CL10 with queues of 16 (`DdrDrainRuns.RestIsShort`), where the program has them 5200 apart.
* Data bus: the command constraints of an access are an arbitrary delay, and accesses come in any order.
* Filter cache: one core, one process, so that virtual and physical line addresses agree; invalidations
  come in at any time, also between the eviction and the fetch of a miss. Runs access lines other than line 0,
  for which the filter is wrong from the start (`FilterTheorems.FastHitTrueIff`).
* Locks: `futex_lock`'s failed test of the word and a failed compare-and-swap are one step, since both do
  nothing. A lock may be handed over to another thread, as `rwmutex` does with `wq`.

## Where the code and its comments disagree

* `futex_haswaiters` promises no false positives (src/locks.h:219-222). A thread that takes the lock by
  exchange leaves the word at 2 with nobody waiting, and so does a timed trylock that gives up. A positive
  answer to an owner is right in all runs exactly if the owner got the lock by compare-and-swap and no timed
  trylock has given up since the word was last 0: `FutexLock.HasWaitersTrueIff`.
* An activation older than the second oldest entry of the window leaves the ring out of order, because the
  shift loop reads back the slot it overwrote first: `ActivationWindow.AddedSortedIff` says exactly when, and
  `DdrWindowRuns.OutOfOrderRun` is a run of the controller in which it happens. It does no harm to tFAW, which is
  kept in every run: `DdrTheorems.FawKept`.
* `tRRD`, the distance between activations of a rank, is taken from the last activation of the same bank only
  (src/ddr_mem.cpp:568). It is kept in all runs exactly if no two banks share a rank, or the queues hold a
  single request and `tRRD <= tRCD`: `DdrSpacingRuns.RrdKeptIff`, with a run for every other configuration.
* The LRU policy keeps 64-bit time stamps but ranks by 32-bit scores (src/repl_policies.h:125), so a time
  stamp that is a multiple of 2^32 looks like a line never used. The filter, which uses up fewer stamps, can
  be noticed in a run of 2^32 + 3 steps, but in no shorter one and not with one way per set: `FilterTheorems.TransparentIff`.
* A cleared filter entry matches line 0: `FilterTheorems.FastHitTrueIff` says that the filter is right exactly
  for the other lines.
* Inserting an address into a never used line of the ideal array takes address 0 out of the index:
  `LruOrder.ReplacedIff`.
* With a power-down penalty the interval logged for the data bus is not the slot that was found
  (src/detailed_mem.cpp:417-437): `DataBus.LoggedIsFound`. The transfers of a run never meet exactly if ranks never
  power down, or powering up takes no time, or there is one rank: `DataBusRuns.TransfersApartIff`, with a run of two
  accesses for every other configuration. The intervals in the log stay apart under the same condition, or if the
  log holds only one: `DataBus.KeptApartIff`. The search still finds the
  first slot that is free according to the log: `DataBus.EveryAccessFits`.

## Model

| member | source | states |
|---|---|---|
| CoherenceTheorems.StepInv | src/cache.cpp:71-182 | every step of every controller, of memory and of the environment keeps the invariant that ties each node to itself and to each of its children, and meets the asserts evaluated in it |
| CoherenceTheorems.NoAssertFails | src/coherence_ctrls.h:247-274 | in every reachable state of every tree, no assert or panic of the race check, the controllers or the directory can fail |
| CoherenceTheorems.AnswersMatch | src/coherence_ctrls.cpp:83-150 | whenever an up-request is answered, the requester finds the state it asserts: S or E after GETS, M after GETX, I after a PUT, also when the PUT was skipped |
| CoherenceTheorems.ExclusiveOnOnePath | src/coherence_ctrls.cpp:268-340 | a node in E or M and any other node with a copy lie on one path to the root |
| CoherenceTheorems.SingleWriter | src/coherence_ctrls.cpp:305-330 | a terminal cache in E or M is the only terminal cache with a copy |
| CoherenceTheorems.Inclusion | src/coherence_ctrls.cpp:255-266 | a node with a copy has copies all the way up |
| CoherenceTheorems.DirectoryExact | src/coherence_ctrls.h:180-198 | outside a walk, `sharers` holds exactly the children with a copy, `numSharers` counts them, and the entry is exclusive exactly if one child is in E or M |
| CoherenceTheorems.DirtyDataIsHeld | src/coherence_ctrls.cpp:155-188 | when nothing is in progress, data some core has written and memory has not received is held in M by some cache |
| CoherenceTheorems.EvictedMeansWrittenBack | src/coherence_ctrls.cpp:56-87 | once the last-level cache has given the line up, every write has reached memory |
| CoherenceTheorems.NoDeadlock | src/coherence_ctrls.h:306-326 | while any access, eviction or invalidation is unfinished, some controller can take a step by itself |
| CoherenceProgress.StepCost | src/coherence_ctrls.cpp:215-252 | every step a controller takes by itself uses up part of a budget computed from the tree and the state |
| CoherenceProgress.InternalRunsEnd | src/coherence_ctrls.h:306-403 | without new accesses and evictions the controllers take only so many steps, in whatever order: no livelock |
| CoherenceProgress.EverythingCompletes | src/cache.cpp:71-182 | from every reachable state the controllers get to a state in which everything is idle |
| CoherenceSteps.CoreStep | src/coherence_ctrls.h:435-453 | a core's access entering its terminal cache keeps the invariant |
| CoherenceSteps.BeginStep | src/coherence_ctrls.h:306-326 | a parent taking up a request that raced with an invalidation, skipped, rewritten or as it is, keeps the invariant, and the race asserts hold |
| CoherenceSteps.TopStep | src/coherence_ctrls.cpp:268-330 | the top controller's answer, or the start of its walk, keeps the invariant |
| CoherenceSteps.VisitStep | src/cache.cpp:171-182 | an invalidation entering a child finds the line there, as asserted, and keeps the invariant, also while the child's own request is outstanding |
| CoherenceSteps.LeaveStep | src/coherence_ctrls.h:397-403 | the end of an invalidation at a child, with its writeback flag, keeps the invariant |
| CoherenceSteps.GrantStep | src/coherence_ctrls.cpp:300-330 | granting after the other copies have been invalidated or downgraded keeps the invariant |
| CoherenceSteps.FlushedStep | src/coherence_ctrls.cpp:56-87 | an eviction that has invalidated the children and turns into a PUTS or PUTX keeps the invariant |
| CoherenceSteps.MemoryStep | src/mem_ctrls.cpp:31-45 | memory meets the same contract as a parent cache |
| CoherenceGrants.FlagsKept | src/coherence_ctrls.cpp:83-150 | in every reachable state each request carries the flag of the access it is made for |
| CoherenceGrants.OneFlagPerAccess | src/coherence_ctrls.cpp:83-150 | all nodes that work for one access, however many levels up, have its flag |
| CoherenceGrants.WhoGetsE | src/coherence_ctrls.cpp:289-310 | in every run a load is answered E exactly if it is not flagged NOEXCL, and the parent is in E or M and no other child has a copy; S otherwise; memory looks at the flag only |
| CoherenceGrants.FetchNeverGetsE | src/init.cpp:662 | in every run no request made for a flagged load, an instruction fetch, is answered E, at any level |
| CoherenceGrants.CopiesLost | src/coherence_ctrls.cpp:215-252 | in every run a copy is given up only by its own eviction, or because a store is answered or the line evicted above it; E or M turns into S only because a load is answered above |
| CoherenceLoad.LoadAlone | src/mem_ctrls.cpp:37-39 | from every reachable idle state without copies, a load that completes alone, in whatever order the controllers move, leaves its leaf and all above it in E, or in S if it is flagged, and no other copy |
| CoherenceLoad.StoreAfterLoad | src/coherence_ctrls.cpp:121-148 | the next store by that core is done in its own cache without a request exactly if the load was not flagged |
| CoherenceClean.NoStoresNoWritebacks | src/coherence_ctrls.cpp:56-87 | in runs without stores no line is ever in M, no PUTX is sent and no walk reports a writeback |
| CoherenceClean.FetchesShare | src/memory_hierarchy.h:96 | in runs of flagged loads only, no copy is ever exclusive |
| CoherenceObjects.CheckForMESIRace | src/coherence_ctrls.h:247-274 | a skipped PUT finds its line gone, a PUTX is kept only if nothing intervened, and is turned into a PUTS only for a downgraded line |
| CoherenceObjects.MESIBottomCC.ProcessAccess | src/coherence_ctrls.cpp:89-153 | an access is served or sent up exactly as the state demands, with the silent E to M change and no other |
| CoherenceObjects.MESIBottomCC.ProcessEviction | src/coherence_ctrls.cpp:56-87 | an eviction sends PUTX exactly for data modified here or below, PUTS for other copies, nothing for I |
| CoherenceObjects.MESIBottomCC.ProcessWritebackOnAccess | src/coherence_ctrls.cpp:155-162 | a writeback from below leaves the line in M |
| CoherenceObjects.MESIBottomCC.ProcessInval | src/coherence_ctrls.cpp:164-188 | modified data is never given up without raising the writeback flag; the flag is never lowered |
| CoherenceObjects.MESITopCC.SendInvalidates | src/coherence_ctrls.cpp:215-252 | the loop leaves the entry empty or not exclusive, visits the sharers only, and reports a writeback exactly if one of them had modified data |
| CoherenceObjects.MESITopCC.ProcessAccess | src/coherence_ctrls.cpp:268-340 | the new entry, the state granted and the writeback flag of every kind of access |
| CoherenceObjects.AccessedMeaning | src/coherence_ctrls.cpp:268-340 | after an access the sharers are exactly the old ones without or with the child, or the child alone after GETX; they are counted; and the entry is exclusive exactly if E or M was granted |
| CoherenceObjects.WalkInAnyOrder | src/coherence_ctrls.cpp:225-240 | visiting every sharer once, in whatever order, gives the same entry and writeback flag, and the asserts about the number sent hold |
| CoherenceObjects.AccessIsSteps | src/coherence_ctrls.cpp:268-340 | the protocol's steps for a request, with any visiting order, do to entry and child what one call of the top controller does |
| ZCacheArray.ZArray.constructor | src/cache_arrays.cpp:292-310 | the linear mapping is a good table that holds nothing |
| ZCacheArray.ZArray.Lookup | src/cache_arrays.cpp:320-338 | finds the unique line that holds the address, or reports that no line does |
| ZCacheArray.ZArray.Expand | src/cache_arrays.cpp:360-382 | each expansion adds exactly ways-1 candidates, all the other positions of the expanded line, inside the candidate array |
| ZCacheArray.ZArray.Walk | src/cache_arrays.cpp:350-386 | the walk ends inside the candidate array, either with enough candidates or at an empty line |
| ZCacheArray.ZArray.RankCands | src/repl_policies.h:121-130 | the policy's loop finds the first candidate with the least score |
| ZCacheArray.ZArray.Preinsert | src/cache_arrays.cpp:340-422 | of the first candidates of the walk, as many as the limit allows, the line with the least score is the victim, the first one if there are several; the walk has enough candidates or met an empty line; the recorded chain of positions can be used to insert the address, and fits the swap array |
| ZCacheArray.ZArray.FillSwapArray | src/cache_arrays.cpp:409-416 | the swap array holds the parent chain |
| ZCacheArray.ZArray.Relocate | src/cache_arrays.cpp:426-431 | the shifts in place are the relocation of the specification |
| ZCacheArray.ZArray.Postinsert | src/cache_arrays.cpp:424-439 | the cache as a map loses the victim's address and gains the new one, nothing else, and stays well-formed |
| ZWalk.ParentIsFirst | src/cache_arrays.cpp:394-404 | the parent of a first occurrence is a first occurrence, even when the walk loops |
| ZWalk.ChainOk | src/cache_arrays.cpp:409-416 | the chain from the first occurrence has distinct positions, lets every line move to a position of its own, and has at most k/ways + 1 positions |
| ZTable.RelocatedOk | src/cache_arrays.cpp:424-431 | the shifts are a rotation: positions and lines stay in bijection and every moved line ends at a position of its own address |
| ZTable.InsertOk | src/cache_arrays.cpp:424-439 | inserting through a good chain gives a good table |
| ZTable.ContentsUpdate | src/cache_arrays.cpp:434-436 | overwriting a line's address is removal and insertion on the map |
| BarrierRuns.EveryRunOk | src/barrier.h:124-279 | over every run from a new barrier: list, back-pointers and counters agree with the threads, never more threads run than the barrier was made for, they are that many or the list is fully scanned, and nobody waits while nobody runs |
| BarrierRuns.CallbackOnPhaseEnd | src/barrier.h:201-210 | the callback is called once per ended phase and by nothing else, and a join never ends a phase |
| BarrierRuns.ExactlyOneTurn | src/barrier.h:256-279 | a thread owed a turn stays owed it or has had exactly one when the phase ends; a phase ends with nobody running and somebody waiting |
| BarrierRuns.OneTurnPerPhase | src/barrier.h:256-279 | over all operations of a phase, a thread that waited at its start and does not leave is woken exactly once |
| BarrierRuns.NewPhaseOwes | src/barrier.h:208-253 | a new phase owes one turn to exactly those who wait; the list keeps its members, except that every 32nd phase those that left go offline |
| BarrierRuns.SomeThreadCanGoOn | src/barrier.h:181-198 | whenever a thread waits, some running thread can sync |
| BarrierProgress.PhaseEnds | src/barrier.h:124-215 | a phase ends after at most as many syncs and leaves of running threads as threads are owed a turn or take it, and threads join in the meantime, unless everyone has left; the operations in it are bounded, too |
| BarrierProgress.StepTakesTurn | src/barrier.h:166-188 | each sync, and each leave of a running thread, that does not end the phase uses up one of those turns for good |
| BarrierProgress.ScanKeeps | src/barrier.h:256-273 | the wake-up scan gives nobody a second turn and takes nobody's away |
| BarrierProgress.JoinTakesTurn | src/barrier.h:124-151 | every join, of a new thread or of one that had left, whether or not it has run in this phase and the limit is used up, gives the thread a turn in the running phase, and changes nobody else's |
| BarrierProgress.StepBound | src/barrier.h:124-188 | every operation that does not end the phase uses up turns or threads, and a join adds one of each |
| BarrierProgress.JoinerTurn | src/barrier.h:124-151 | a thread that joins and does not leave again is woken exactly once until the phase ends |
| BarrierProofs.JoinOk | src/barrier.h:124-151 | a join keeps the structure, through the same-phase swap, and never ends a phase |
| BarrierProofs.LeaveOk | src/barrier.h:166-178 | a leave keeps the structure and progress, whether the thread ran or waited |
| BarrierProofs.SyncOk | src/barrier.h:181-188 | a sync keeps the structure and progress |
| BarrierProofs.CompactOk | src/barrier.h:217-233 | the cleanup pass takes exactly the threads that left off the list, as many as `leftThreads` says |
| BarrierProofs.ShuffleOk | src/barrier.h:239-252 | the shuffle keeps members and back-pointers for any random indices |
| BarrierShuffle.OneDrawPerOrder | src/barrier.h:241-251 | each order of the run list comes from exactly one sequence of draws |
| BarrierShuffle.NewPhaseOrder | src/barrier.h:239-252 | a new phase shuffles exactly if the list has more threads than may run in parallel, and keeps the order otherwise |
| JoinLeaveBarrier.BarrierObject.Join | src/barrier.h:124-151 | the object's join does exactly what the specification says and keeps all invariants |
| JoinLeaveBarrier.BarrierObject.Leave | src/barrier.h:166-178 | the same for leave |
| JoinLeaveBarrier.BarrierObject.Sync | src/barrier.h:181-188 | the same for sync |
| JoinLeaveBarrier.BarrierObject.ScanRunList | src/barrier.h:256-273 | the wake-up loop is the specified scan; no wake-up race is possible |
| JoinLeaveBarrier.BarrierObject.CompactList | src/barrier.h:217-235 | the in-place pass is the specified compaction and its count assert holds |
| JoinLeaveBarrier.BarrierObject.ShuffleList | src/barrier.h:241-251 | the in-place exchanges are the specified shuffle |
| DdrCycles.RoundTrip | src/ddr_mem.h:248-258 | every memory cycle translated to system cycles and back is itself, if memory runs at no more than half the system frequency |
| DdrCycles.RoundTripCanFail | src/ddr_mem.h:254-258 | without that demand the round trip can fail |
| DdrCycles.WakeUpExact | src/ddr_mem.cpp:336-338 | a wake-up queued for a memory cycle that has not passed, but not before the present system cycle, arrives in that memory cycle |
| DdrCycles.ResponseNotEarly | src/ddr_mem.cpp:610-611 | a response in a memory cycle that has come is not in a past system cycle, as asserted |
| DdrCycles.IntervalApart | src/ddr_mem.cpp:221 | a refresh interval translated to system cycles once spans at least as many memory cycles wherever it starts |
| ActivationWindow.ActWindow.AddActivation | src/ddr_mem.h:59-75 | the shift loop over the ring does to the listed window what the specification says, in every case |
| ActivationWindow.ActWindow.MinActCycle | src/ddr_mem.h:55-57 | the slot read is the oldest entry of the listed window |
| ActivationWindow.AddedSortedIff | src/ddr_mem.h:59-75 | the window stays sorted exactly if the activation is not older than the second oldest entry; it drops the oldest entry in any case |
| ActivationWindow.OutOfOrderActivation | src/ddr_mem.h:65-73 | a window that an older activation leaves out of order, though it is 25 cycles after the oldest entry |
| DdrWindowRuns.OutOfOrderRun | src/ddr_mem.cpp:547-576 | a run of the controller that leaves the window out of order: four reads of different rows of one bank and a write to another bank, all at once |
| ActivationWindow.WindowRecentIff | src/ddr_mem.h:59-75 | the window stays the list of the most recent activations exactly if the new one is not older than the second oldest entry |
| ActivationWindow.ActivationOk | src/ddr_mem.h:55-75 | whatever the order of the window: if it has at least as many entries from the start of any span of tFAW on as there were activations in the span, it still has after any activation that comes tFAW after the oldest entry |
| ActivationWindow.NeverFiveWithinFaw | src/ddr_mem.cpp:567-576 | activations that each come tFAW after the oldest entry, recorded in whatever order, never put five into less than tFAW |
| DdrQueue.QueuedOk | src/ddr_mem.cpp:384-419 | queueing keeps each bank list in FR-FCFS order: requests to one row in arrival order, row-hit numbers within the limit, every nonzero number right behind its predecessor; and the next request to a row right behind the one before it with the next number, unless that one has reached the limit, after which numbers start over |
| DdrQueue.LeftOpenIsWanted | src/ddr_mem.cpp:586-588 | a closed-page row left open is the row of the next request in the list |
| DdrQueue.OvertakesWithinBudget | src/ddr_mem.cpp:384-419 | through any arrivals and services, a request is overtaken no more often than a budget of the row-hit numbers left ahead of it |
| DdrQueue.Fairness | src/ddr_mem.cpp:384-419 | a request is overtaken at most `rowHitLimit` times per distinct row ahead of it when it arrives |
| DdrTiming.CommandLater | src/ddr_mem.cpp:597-599 | the commands of a bank are strictly later each time, as asserted |
| DdrTiming.IssueOk | src/ddr_mem.cpp:547-599 | issuing a ready request keeps every distance: bursts apart, tWTR, tRCD, tRAS+tRP, tRRD within a bank, tRTP, tWR, no activation before a refresh is done and no column command before tRCD after it |
| DdrTiming.RefreshOk | src/ddr_mem.cpp:634-656 | a refresh waits for all banks, closes them, and keeps every distance |
| DdrInvariant.ScanFinds | src/ddr_mem.cpp:506-529 | the scan stops at the first request in the queue that is at the head of its bank list and ready; otherwise none is, and it reports a later cycle |
| DdrInvariant.QueueInOk | src/ddr_mem.cpp:345-423 | queueing keeps queues and bank lists in agreement and in order |
| DdrInvariant.OpenRowHit | src/ddr_mem.cpp:403-419 | the first request of an empty list counts on from the open row exactly if it goes to that row and the limit has not been reached |
| DdrInvariant.ServeOk | src/ddr_mem.cpp:539-632 | serving keeps them, too, and the timing record |
| DdrInvariant.TryScheduleOk | src/ddr_mem.cpp:491-632 | scheduling serves at most one request, which leaves its queue; the cycle it returns is later than the present one and is missing exactly if nothing waits |
| DdrWake.EnqueueOk | src/ddr_mem.cpp:296-343 | a new request finds or schedules a wake-up, exactly for the cycle announced |
| DdrWake.TickOk | src/ddr_mem.cpp:426-461 | after a tick the next one is due in exactly the cycle announced, and there is one unless nothing waits, overflow included |
| DdrRuns.StepOk | src/ddr_mem.cpp:93-144 | every event keeps the invariant on queues, timing, events and free list, and meets the asserts about event states and cycles |
| DdrTheorems.NoAssertFails | src/ddr_mem.cpp:426-466 | no run makes an assertion of the controller or of its events fail, those about responses included |
| DdrTheorems.NothingLost | src/ddr_mem.cpp:296-461 | in every run, each request that has arrived is in exactly one of the read, write and overflow queues and the served requests |
| DdrTheorems.WakeUpPending | src/ddr_mem.cpp:323-341 | while a request waits anywhere, exactly one scheduling event is queued and not annulled, for the cycle the controller expects |
| DdrTheorems.TimingKept | src/ddr_mem.cpp:547-656 | in every run of arrivals, ticks and refreshes, any two commands keep their distance |
| DdrRows.RowsKept | src/ddr_mem.cpp:547-600 | in every run the column commands are those of the requests served, in order, and each goes to the row that the commands before it have left open; no row is activated that is open |
| DdrRows.OpenedBy | src/ddr_mem.cpp:574-588 | a row left open is that of the last activation of the bank, with no refresh and no closing precharge after it |
| DdrRows.LeftOpenIff | src/ddr_mem.cpp:586-589 | serving a request leaves its row open exactly with open pages, or if the next request in the bank list wants it and the limit on row hits has not been reached |
| DdrPrompt.ServedPromptly | src/ddr_mem.cpp:545-579 | in every run, an activation or column command in any earlier cycle would have come before its tick or request, or broken a constraint with a command already issued |
| DdrPrompt.RefreshedPromptly | src/ddr_mem.cpp:634-650 | the same for the end of a refresh |
| DdrPriority.ServedFrom | src/ddr_mem.cpp:509-513 | in every run the request served comes from the write queue exactly if no read waits, or more than 3/4 of that queue are taken, or more than 1/4 and the last request served was a write |
| DdrPriority.WritesDrain | src/ddr_mem.cpp:509-513 | once more than 3/4 of the write queue are taken, only writes are served until no more than 1/4 is, whatever arrives |
| DdrPriority.OverflowFifo | src/ddr_mem.cpp:301-441 | in every run the overflow queue holds the last of the requests that arrived while the read or the write queue was at its depth, in order of arrival: first in, first out |
| DdrPriority.QueuesBounded | src/ddr_mem.cpp:432-437 | neither queue is ever longer than its depth |
| DdrTheorems.FawKept | src/ddr_mem.cpp:567-576 | in every run, no five activations of a rank lie within less than tFAW |
| DdrSpacingRuns.RrdKeptIff | src/ddr_mem.cpp:568-569 | activations of a rank are tRRD apart in all runs exactly if no two banks share a rank, or the queues hold one request and tRRD is at most tRCD |
| DdrSpacingRuns.Collide | src/ddr_mem.cpp:296-343 | the run that shows it for every other configuration: two requests to two banks of a rank that arrive together |
| DdrSpacing.OneAtATimeKeeps | src/ddr_mem.cpp:430-451 | with room for one request in the queues, each activation of a run is tRCD after all before it |
| DdrTheorems.ListsKept | src/ddr_mem.cpp:384-419 | in every run the bank lists are in FR-FCFS order as above, row hits first, and agree with the queues, row hits stay within the limit, and a closed-page row is open only for a request at the head of a list |
| DdrTheorems.IdleTickOnlyOnce | src/ddr_mem.cpp:531-537 | a tick that serves nothing although the bus is free asks for a tick that does serve a request |
| DdrTheorems.TickNotLate | src/ddr_mem.cpp:506-537 | in the cycles before the one a tick asks for, nothing could be served |
| DdrTheorems.ArrivalNotLate | src/ddr_mem.cpp:321-341 | an arriving request that becomes the first of its bank list has a tick at the latest in the first cycle in which its bank and the data bus are ready |
| DdrTheorems.RefillNotLate | src/ddr_mem.cpp:441-450 | the same for a request from the overflow queue |
| DdrDrain.TickCloser | src/ddr_mem.cpp:426-461 | every tick leaves fewer requests waiting, or fewer in the overflow queue, or asks for a tick that is closer to serving one |
| DdrDrain.EverythingServed | src/ddr_mem.cpp:426-461 | once requests stop arriving and while no refresh intervenes, some number of ticks serves every request, the overflow queue included, and each exactly once |
| DdrDrainRuns.EverythingServedInRuns | src/ddr_mem.cpp:426-461 | in every run with refreshes some distance apart, once requests stop arriving, the ticks and refreshes until everything is served are bounded by what waits; a tick is pending as long as something waits; and in the end each request has been served exactly once |
| DdrDrainRuns.EveryRunCanEnd | src/ddr_mem.cpp:426-461 | after every run, however refreshes came, the controller's own events can serve everything that has arrived |
| DdrDrainRuns.ServedSince | src/ddr_mem.cpp:634-656 | between two refreshes that far apart a request is served, if one waits |
| DdrDrainRuns.RestIsShort | src/ddr_mem.cpp:668-682 | the distance asked for is less than a quarter of tREFI |
| DdrLag.TickLag | src/ddr_mem.cpp:426-461 | a tick leaves banks and bus reserved, and the next tick due, no further ahead of the present than a bound from the timing parameters |
| DdrLag.RefreshLag | src/ddr_mem.cpp:634-656 | a refresh moves that bound by no more than tRFC |
| DdrMemory.DDRMemory.FindPlace | src/ddr_mem.cpp:384-419 | the backward search is the specified placement |
| DdrMemory.DDRMemory.Queue | src/ddr_mem.cpp:345-423 | the object's queue() is the specified one |
| DdrMemory.DDRMemory.FindMinCmd | src/ddr_mem.cpp:470-489 | the object's minimum command cycle is the specified one |
| DdrMemory.DDRMemory.Enqueue | src/ddr_mem.cpp:296-343 | the object's enqueue() is the specified one |
| DdrMemory.DDRMemory.ScanQueue | src/ddr_mem.cpp:506-529 | the loop over the queue is the specified scan |
| DdrMemory.DDRMemory.IssueCycles | src/ddr_mem.cpp:547-599 | the stepwise computation of bank and bus state is the specified one |
| DdrMemory.DDRMemory.TrySchedule | src/ddr_mem.cpp:491-632 | the object's trySchedule() is the specified one |
| DdrMemory.DDRMemory.Tick | src/ddr_mem.cpp:426-461 | the object's tick() is the specified one |
| DdrMemory.DDRMemory.Refresh | src/ddr_mem.cpp:634-656 | the two loops over the banks are the specified refresh |
| FilterTheorems.Transparent | src/filter_cache.h:109-187 | in runs of fewer than 2^32 + 3 steps, and with one way per set in all runs, with and without the filter the cache can do the same, every access hits, misses or upgrades alike with the same victim, and all addresses and coherence states end the same |
| FilterTheorems.TransparentIff | src/filter_cache.h:109-187 | all runs of up to n steps are such exactly if there is one way per set or n is less than 2^32 + 3 |
| FilterTheorems.ClockWraps | src/repl_policies.h:121-130 | a run of 2^32 + 3 steps, for any cache with more ways, after which the filter has changed the victim |
| FilterTheorems.AccessServed | src/cache.cpp:71-165 | an access that has been completed, with invalidations between its eviction and its fetch, leaves its line in the cache, most recently used, with the permission it needs |
| FilterTheorems.FastHitTrueIff | src/filter_cache.h:109-151 | in every reachable state a hit in the filter is a hit in the cache exactly if the line is not line 0 |
| FilterTheorems.LineZeroHits | src/filter_cache.h:49-53 | line 0 hits in an empty cache |
| FilterHits.AccessRemembered | src/filter_cache.h:153-174 | a completed access leaves its line in the filter, for loads, and for stores if it was one |
| FilterHits.HitsUntilDisturbed | src/filter_cache.h:109-193 | after that, in any run, loads of the line hit in the filter until it is invalidated, another line of its set is accessed, or the context is switched |
| FilterLru.StampIsLastUse | src/repl_policies.h:112-114 | after any run, the time stamp of every line that has one tells its last use |
| FilterLru.VictimIsLru | src/repl_policies.h:121-140 | in runs of less than 2^32 uses the victim is the first way that is not valid; if all are valid, one whose last use is longest ago |
| FilterProofs.FastHitIsHit | src/filter_cache.h:109-151 | a hit in the filter is on the most recently used line of its set, valid, and modified if the access is a store |
| FilterProofs.FastHitSame | src/filter_cache.h:120-123 | skipping the cache on such a hit changes nothing but time stamps that do not matter |
| FilterProofs.StepFilterOk | src/filter_cache.h:153-187 | every access, invalidation and context switch keeps the filter truthful |
| FilterProofs.StepCacheOk | src/cache.cpp:71-182 | every part of an access and every invalidation in between keeps addresses unique in their sets, time stamps in order, and the line being fetched in place |
| FilterProofs.SameRank | src/repl_policies.h:121-130 | while no score is truncated, or with a single way, victims depend only on the order of the time stamps |
| FilterCacheObject.RankCands | src/repl_policies.h:121-130 | the victim is the first way with the least score |
| FilterCacheObject.LookupWay | src/cache_arrays.cpp:65-79 | the lookup loop is the specified one |
| FilterCacheObject.FilterCache.Access | src/filter_cache.h:109-174 | a load or store of the object is the specified one, for line 0, too, and counts its filter hits |
| FilterCacheObject.FilterCache.FinishEviction | src/cache.cpp:103-121 | the evicted way takes the new address, and the filter is left alone until the line has arrived |
| FilterCacheObject.FilterCache.FinishFetch | src/filter_cache.h:160-170 | only a line that has arrived is taken into the filter |
| FilterCacheObject.FilterCache.Invalidate | src/filter_cache.h:176-187 | an invalidation takes the line out of the filter and changes the cache's state |
| FilterCacheObject.FilterCache.SwitchContext | src/filter_cache.h:189-193 | a context switch clears every entry |
| RwMutex.StepInv | src/mutex.h:111-177 | every atomic step keeps the ownership of rb and wq and the reader count right, and meets the asserts |
| RwMutex.NoAssertFails | src/mutex.h:164-173 | in every run a downgrading writer finds at most one reader, the counter never wraps, and only locked mutexes are unlocked |
| RwMutex.WriterAlone | src/mutex.h:111-127 | while a thread writes, no other thread writes, reads or is downgrading |
| RwMutex.DowngradeAdmitsNoWriter | src/mutex.h:139-177 | from writing through downgrade to the end of reading, no other thread gets to write |
| RwMutex.DowngradeMayFreeWq | src/mutex.h:172-175 | although wq may be free in between |
| RwMutex.NoDeadlock | src/mutex.h:111-177 | while a thread wants in or out, some thread can go on or is inside its critical section |
| RwMutex.ReadersShare | src/mutex.h:111-122 | in every reachable state in which a thread reads and rb is free, a thread that wants to read gets to read by its own steps alone, and the others go on reading |
| RwMutex.AllReadAtOnce | src/mutex.h:111-122 | any number of threads can read at once |
| RwMutex.WriterComesIn | src/mutex.h:124-127 | a writer gets in by its own steps while rb and wq are free |
| FutexLock.StepInv | src/locks.h:153-217 | every atomic step keeps exclusion and the promise to sleepers |
| FutexLock.NoAssertFails | src/locks.h:204-205 | in every run of all four operations the decrement in unlock never wraps below zero |
| FutexLock.MutualExclusion | src/locks.h:153-217 | in every run of all four operations at most one thread owns the lock |
| FutexLock.NobodySleepsForever | src/locks.h:153-217 | while a thread sleeps, the word is 2 and somebody owns the lock, or an unlocker has yet to wake, or an awake thread will exchange in 2 |
| FutexLock.FreeLockTaken | src/locks.h:153-174 | while the lock is free, every awake thread that wants it gets it by its own steps alone |
| FutexLock.Uncontended | src/locks.h:153-217 | without contention a thread locks and unlocks in two accesses and no system call |
| FutexLock.HasWaitersTrueIff | src/locks.h:219-224 | a positive answer of `futex_haswaiters` to an owner is right in all runs exactly if the owner got the lock by compare-and-swap and no timed trylock has given up since the word was last 0 |
| FutexLock.WrongToSlow | src/locks.h:153-174 | a run in which the owner by exchange gets a wrong answer, without any timed trylock |
| FutexLock.WrongToFast | src/locks.h:188-202 | a run in which a timed trylock has left a 2 to the owner by compare-and-swap |
| FutexLock.WrongAfterBoth | src/locks.h:188-202 | a run in which both have happened |
| IntrusiveList.InList.PushFront | src/intrusive_list.h:88-101 | the list is the element followed by the old list, linked both ways |
| IntrusiveList.InList.PushBack | src/intrusive_list.h:103-115 | the list is the old list followed by the element |
| IntrusiveList.InList.PopFront | src/intrusive_list.h:117-124 | the first element leaves |
| IntrusiveList.InList.PopBack | src/intrusive_list.h:126-133 | the last element leaves |
| IntrusiveList.InList.Remove | src/intrusive_list.h:136-143 | one element leaves, the rest stays in order and linked |
| IntrusiveList.InList.InsertAfter | src/intrusive_list.h:145-151 | one element comes in behind another |
| LruOrder.TouchOk | src/ideal_arrays.h:85-89 | moving a line to the front keeps the list in the order of last touches |
| LruOrder.LastIsLeastRecent | src/ideal_arrays.h:96-100 | the last line of the list is the one not touched for longest |
| LruOrder.ReplacedIff | src/ideal_arrays.h:105-116 | an insertion that meets the assert keeps the index the inverse of the addresses exactly if the line is in use or address 0 is not indexed |
| LruOrder.ZeroIsLost | src/ideal_arrays.h:105-112 | address 0 can get lost |
| IdealLru.IdealLRUArray.constructor | src/ideal_arrays.h:72-79 | all lines are in the list once, none is indexed |
| IdealLru.IdealLRUArray.Lookup | src/ideal_arrays.h:81-91 | finds what the index holds, which is exactly the line in use that holds the address while the index is right, and touches it if asked to |
| IdealLru.IdealLRUArray.Preinsert | src/ideal_arrays.h:96-100 | returns the line whose last touch is strictly the longest ago |
| IdealLru.IdealLRUArray.Postinsert | src/ideal_arrays.h:105-117 | replaces one address and touches the line, keeps the list right in every case and the index exactly under the condition of `ReplacedIff` |
| DataBus.FindFromOk | src/detailed_mem.cpp:254-271 | the slot found is free and the first free one at or after the time asked for, even when logged intervals overlap, as long as their starts and ends are in order |
| DataBus.InsertedOk | src/detailed_mem.cpp:197-200 | logging a free slot keeps the intervals in order and apart |
| DataBus.TrimmedOk | src/detailed_mem.cpp:201-204 | dropping the oldest interval and stretching the next back to 0 keeps the intervals in order and apart, and the log at its depth |
| DataBus.EveryAccessFits | src/detailed_mem.cpp:412-437 | in every run, with any penalties, each access gets the first free slot |
| DataBusRuns.TransfersApart | src/detailed_mem.cpp:197-205 | without penalties no two transfers of a run ever meet, however many accesses came between them and however short the log is |
| DataBusRuns.LogKnows | src/detailed_mem.cpp:197-205 | after every run, with any penalties, each transfer made is in the log, or over before the log's oldest interval, which has then been stretched back to 0 |
| DataBusRuns.TransfersApartIff | src/detailed_mem.cpp:412-452 | with the penalties of the program, no two transfers meet in any run exactly if ranks never power down, powering up takes no time, or there is one rank |
| DataBusRuns.ClashMeets | src/detailed_mem.cpp:412-437 | the two accesses that show it for every other configuration |
| DataBus.InsertedUniform | src/detailed_mem.cpp:197-200 | logging a shifted slot keeps starts and ends in order, since a slot found lies behind a stretched interval |
| DataBus.LoggedIsFound | src/detailed_mem.cpp:414-437 | the interval logged is the slot found, shifted by the penalty; it is the slot itself exactly if there is no penalty |
| DataBus.KeptApartIff | src/detailed_mem.cpp:412-452 | with the penalties of the program, the logged intervals stay apart in all runs exactly if ranks never power down, powering up takes no time, the log holds one interval, or there is one rank |
| DataBus.Clashes | src/detailed_mem.cpp:412-437 | the run for every other configuration: two accesses to two ranks that have powered down |
| DataBus.FreelyChargedIff | src/detailed_mem.cpp:414-437 | if any access may be charged the penalty, exactly if it is 0 or the log holds one interval |
| DataBus.MemChannel.CalcInterIssueCycle | src/detailed_mem.cpp:254-271 | the loop finds the first free slot |
| DataBus.MemChannel.UpdateDataBusCycle | src/detailed_mem.cpp:197-205 | the log after an access is the specified one, of which `DataBusRuns` proves that it forgets no transfer that matters |

## Left out

- Compression (src/compressor.cpp, src/compressor_xor.cpp, the `*L2` functions of src/cache_arrays.cpp): measurement on global arrays without a round trip to prove.
- Non-inclusive caches, prefetches, `PUTX_KEEPEXCL`, FWD invalidations, latencies, event recording and profiling on the coherence path: orthogonal to the invariants.
- Coherence across lines: a lock held for one line while another line is worked on is not modelled, so progress is proved for one line at a time.
- What the receivers of the DDR controller's responses do, its statistics and its address mapping: they do not influence scheduling.
- How long reads wait for writes, or writes for reads, in the DDR controller while requests keep arriving: the source promises no bound, and none is stated beyond which queue is served (`DdrPriority`).
- The barrier's blocking after the scheduler's lock is released, and its debug output: they change no state.
- `rwmutex::upgrade`: it is an rdUnlock followed by a wrLock, and promises nothing more.
- Spin and ticket locks: simpler than the futex lock.
- Refresh and command constraints and the power model of src/detailed_mem.cpp: bookkeeping per rank, which enters the data bus as the delay of an access.
- Partitioned ideal arrays and lookahead partitioning: they use floating point, and the partitions' sum does not hold.
- `std::sort` of the bus log: modelled as insertion, which gives the same result since the log was sorted before.
- Instruction decoding, configuration, statistics, tracing, Pin and ELF glue: tables and input/output.
