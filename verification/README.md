# Verified model of the ChampSim simulators

This project models the state machines that ChampSim runs every cycle, and the data
structures they rest on, and proves what they keep. Code that changes objects step by step
is a class whose methods follow the source's loops; each method is tied to a function on
the state, and the theorems are about those functions and their runs.

| files | what they model |
|---|---|
| CoreState, CoreRegisters, CoreMemory, CoreCycle | entities and stage functions of the out-of-order core |
| CoreRegistersProof, CoreMemoryProof, CoreProof | the invariant of registers, load/store queues and buffers |
| CoreStages, CoreFlow, CoreLatency | what each stage does, exactly; whole cycles of stages; the latencies over every run |
| CoreTrace | the registers an instruction carries from the trace to retirement |
| CoreStores | the writes of a program in program order, sent and still owed |
| CoreRuns, CoreForwarding, CoreLiveness | safety, conservation, forwarding and bounded liveness over every run |
| O3Cpu | the core object, one method per stage |
| Timeline, Optgen | optimal replacement on an unbounded timeline; the 128-slot ring and its object |
| HawkeyeSampler, Ranks, BaseReplacement, Listings | the sampler in front of OPTgen, ranks, the rank-based LRU set |
| DramState, DramPointers, DramQueues, DramRuns, DramAddress | the memory channel, its pointers, waiters, bus and address fields |
| DramTiming, DramData | what row hits and misses cost; whose data a response carries, which write stays |
| DramRank, DramService, DramStarvation | how long a read waits, and why it waits forever with one write slot |
| DramController | the channel object |
| ChannelQueues | the queues between cache levels, and their object |
| ChannelData | which request stays, whose data is forwarded, the order of a queue |
| Cache, CacheProof, CacheRuns, CacheLevel | misses in flight, fills, tag checks, and the cache object |
| CacheSteps, CacheSends | what each step of a cache does, exactly; requests and write-backs sent over every run |
| Recency, LruTable | most-recent-first lists, inclusion, and the table object |
| FastSet | the hybrid set of small numbers |
| PageAllocator, VirtualMemory | physical pages and page tables |
| TraceRemap | the trace converter's page remapping |
| Scans, SetUnion, FiniteSets, Options | extremum scans, merged id lists and small types that several parts share |

What the environment is relied on for, stated as preconditions of the run theorems:
the cycle never decreases and stays below 2^64 - 1; warm-up only ends; widths and sizes are
positive where the source divides by or scans them; instruction ids rise along the trace;
a lower level answers a forwarded request at most once. References between entries are ids
or slot numbers. A 64-bit word of the hybrid set is a sequence of 64 booleans. Shifts and
masks by powers of two are division and remainder by the power.

Findings where the code does less than its names suggest, each with the exact condition and,
unless said otherwise, a concrete input:

- OPTgen windows of exactly 128 accesses always hit (Optgen.RightExactlyBelowRingSize, Optgen.WholeRingOvercounts).
- The sampler's clock of 1024 goes round: a tag last used 1024 accesses ago or more can present a window of the remainder (HawkeyeSampler.PresentedIsReuse, HawkeyeSampler.RoundTheClock).
- `init` on a used OPTgen keeps its occupancy: any second call does (Optgen.OPTgen.Init states the whole effect, without a separate input).
- A memory channel with one write slot never puts a read on the bus and without writes flips its mode forever; with two slots or more every read is served in bounded time (DramService.ServedIff, DramStarvation.ReadsStarve, with the run of DramStarvation.OneSlotIdles).
- A page table larger than a page overlaps the next page (PageAllocator.DisjointExactlyWhenTablesFit, PageAllocator.LargeTablesOverlap).
- Requests for one place with different translation states can leave a duplicate in a channel queue (ChannelQueues.CheckCollisionExact, ChannelQueues.MixedTranslationKeepsADuplicate).
- A second answer to a miss is not finished in order, whether or not another miss is outstanding (CacheProof.FinishPacketOrder; every such answer is an input). Levels send only one, which CacheRuns.Run relies on.

## Model

| member | source | states |
|---|---|---|
| CoreTrace.EveryRunIsRawSafeOnTheTrace | ChampSim进阶要求/src/ooo_cpu.cc:361-396 | over every run from reset, an instruction that starts executing and entered after the warm-up holds exactly the sources the trace gives it, and for each of them the last earlier instruction of the trace that writes that register, among those that entered after the warm-up, has completed; a stack-pointer write with a value known at decode does not count |
| CoreTrace.EveryRunCarriesRegisters | ChampSim进阶要求/src/ooo_cpu.cc:107-146 | over every run, whatever is fetched, decoded, dispatched, in the ROB or retired is an instruction of the trace, in order, with the registers it arrived with, or with none if it entered during warm-up, but for a stack-pointer write known at decode |
| CoreTrace.InitEnters | ChampSim进阶要求/src/ooo_cpu.cc:128-197 | entering clears the registers exactly during warm-up and otherwise drops only a stack-pointer write, exactly of branches, of memory operations and of instructions that read no other register |
| CoreRuns.EveryRunIsRawSafe | ChampSim进阶要求/src/ooo_cpu.cc:361-396 | over every run from reset, an instruction that starts executing finds the youngest older writer of each source it holds in the pipeline, retired or not, completed |
| CoreFlow.EveryRunIsStagewise | ChampSim进阶要求/src/ooo_cpu.cc:35-52 | over every run, each cycle is made of all its stages in their order, and each does exactly its work: who retires, completes, starts, is scheduled, which loads return, which stores finish and leave, which loads are sent, who is dispatched, decoded, fetched and let in, and when each is ready again |
| CoreStages.RetiresExactly | ChampSim进阶要求/src/ooo_cpu.cc:622-633 | exactly the completed instructions in front retire, up to RETIRE_WIDTH |
| CoreStages.CompletesExactly | ChampSim进阶要求/src/ooo_cpu.cc:563-575 | exactly the first EXEC_WIDTH inflight instructions whose time has come and whose memory operations are done complete |
| CoreStages.StartsExactly | ChampSim进阶要求/src/ooo_cpu.cc:385-411 | exactly the first EXEC_WIDTH instructions that are scheduled, ready and wait for nobody start, and they and exactly their queue entries are ready the execution latency later |
| CoreStages.SchedulesExactly | ChampSim进阶要求/src/ooo_cpu.cc:344-383 | exactly the unscheduled instructions among the entries the search sees are scheduled, ready the scheduling latency later |
| CoreStages.ReturnsExactly | ChampSim进阶要求/src/ooo_cpu.cc:606-617 | exactly the issued loads of the first L1D_BANDWIDTH returned blocks leave the load queue |
| CoreStages.FinishesExactly | ChampSim进阶要求/src/ooo_cpu.cc:467-475 | exactly the next unfinished stores, as far as they are ready and SQ_WIDTH reaches, finish, at this time |
| CoreStages.SendsStoresExactly | ChampSim进阶要求/src/ooo_cpu.cc:462-479 | exactly the stores in front leave that are older than the whole ROB and past their time, within the bandwidth left and what the cache takes |
| CoreStages.IssueLoadsExactly | ChampSim进阶要求/src/ooo_cpu.cc:481-492 | a slot is marked as sent exactly when its load waits for no store, is past its time, was not sent, is taken by the cache, and fewer than LQ_WIDTH such slots precede it |
| CoreStages.LoadRequestsExactly | ChampSim进阶要求/src/ooo_cpu.cc:481-492 | the requests sent are those of exactly these slots, in slot order |
| CoreFlow.EveryRunSendsReadyLoads | ChampSim进阶要求/src/ooo_cpu.cc:481-492 | over every run, each cycle sends exactly the first LQ_WIDTH reads that are ready and that the data cache takes, and marks exactly their slots |
| CoreStages.DispatchesExactly | ChampSim进阶要求/src/ooo_cpu.cc:325-342 | dispatch goes on in order exactly as long as there is room, up to the width |
| CoreStages.DecodesExactly | ChampSim进阶要求/src/ooo_cpu.cc:290-321 | exactly the ready instructions in front go to dispatch, up to the width and the room, ready the dispatch latency later |
| CoreStages.PromotesExactly | ChampSim进阶要求/src/ooo_cpu.cc:275-288 | exactly the fetched, ready instructions in front go to decode, up to the width and the room; those that hit the decoded buffer at once, the others after the decode latency |
| CoreStages.InitializesExactly | ChampSim进阶要求/src/ooo_cpu.cc:107-124 | as many instructions enter as fetch takes, within width, room and what has arrived |
| CoreLatency.EveryRunTakesExecutionLatency | ChampSim进阶要求/src/ooo_cpu.cc:385-411 | over every run outside warm-up, no instruction completes sooner than the execution latency after it started |
| CoreLatency.EveryRunTakesSchedulingLatency | ChampSim进阶要求/src/ooo_cpu.cc:361-383 | over every run outside warm-up, no instruction starts sooner than the scheduling latency after it was scheduled |
| CoreRuns.StartedReadsFinalValues | ChampSim进阶要求/src/ooo_cpu.cc:385-396 | in any state that meets the invariant, whatever the execute stage starts reads only completed sources |
| CoreRuns.RunKeepsInv | ChampSim进阶要求/src/ooo_cpu.cc:35-52 | the whole invariant of registers, queues and buffers holds after every run |
| CoreRuns.RunConserves | ChampSim进阶要求/src/ooo_cpu.cc:107-124 | retired, ROB, dispatch, decode, fetch and input together are, in order, what was there before followed by what arrived |
| CoreRuns.RetiredOnceInOrder | ChampSim进阶要求/src/ooo_cpu.cc:622-633 | what retired is a prefix of what arrived, ids strictly rising, all older than anything in the ROB |
| CoreRuns.EveryRunConservesMemoryOps | ChampSim进阶要求/src/ooo_cpu.cc:418-509 | over every run, for every ROB instruction credits + load queue entries + unfinished stores equal its memory operations, and a completed one has all credits |
| CoreRuns.EveryRunLinksWaitingLoads | ChampSim进阶要求/src/ooo_cpu.cc:418-509 | over every run, waiting loads and the waiting lists of unfinished stores match one to one, and no buffer exceeds its size |
| CoreRuns.EveryRunOrdersLoads | ChampSim进阶要求/src/ooo_cpu.cc:481-492 | over every run, a load that a cycle sends has no older store to its address in the store queue |
| CoreRuns.SentLoadsAreOrdered | ChampSim进阶要求/src/ooo_cpu.cc:481-492 | sending changes only the issued mark, only of unissued loads, and only where no older store to the address is queued |
| CoreRuns.LoadForwardsFromYoungest | ChampSim进阶要求/src/ooo_cpu.cc:426-446 | a load goes to the cache only without a matching store, completes at once from a finished youngest match, and otherwise waits on exactly that store |
| CoreRuns.EveryRunSendsStoresInOrder | ChampSim进阶要求/src/ooo_cpu.cc:462-479 | over every run, the writes the data cache was sent are the first writes of the trace in program order, each once, all of retired instructions; with those still queued they are exactly the writes of all dispatched instructions |
| CoreForwarding.EveryRunForwardsTheLastWrite | ChampSim进阶要求/src/ooo_cpu.cc:418-446 | over every run, a dispatched load whose address no earlier instruction wrote, or whose last write was already sent, will ask the cache; otherwise it takes its value from the store of the instruction that wrote last, at once or when that store finishes |
| CoreForwarding.EveryRunSendsReadsAfterWrites | ChampSim进阶要求/src/ooo_cpu.cc:481-492 | over every run, each read the data cache is sent belongs to an unissued queued load, and every older write to its address was sent before |
| CoreForwarding.YoungestIsLast | ChampSim进阶要求/src/ooo_cpu.cc:426-430 | the youngest match in the store queue is of the instruction whose write to the address is the last, unless that write has left; then there is no match |
| CoreStores.OldStoresRetired | ChampSim进阶要求/src/ooo_cpu.cc:477-479 | queued stores older than the whole ROB are within the writes of the retired instructions |
| CoreStores.DispatchStores | ChampSim进阶要求/src/ooo_cpu.cc:448-456 | dispatch appends exactly the writes of the instruction, in order, to what is owed |
| CoreStores.StoresInvOrdered | ChampSim进阶要求/src/ooo_cpu.cc:462-479 | what is owed being the writes in program order, sent ids never fall and never exceed a queued one |
| CoreLiveness.EveryRunCompletesTheOldest | ChampSim进阶要求/src/ooo_cpu.cc:344-396 | in every reachable state the oldest uncompleted instruction whose memory operations are done completes within Bound calls, whatever the environment does |
| CoreLiveness.OldestCompletes | ChampSim进阶要求/src/ooo_cpu.cc:563-575 | a countdown in the two latencies bounds the number of calls until completion |
| CoreLiveness.OperateAdvances | ChampSim进阶要求/src/ooo_cpu.cc:35-52 | one call strictly lowers the countdown of the oldest uncompleted instruction |
| CoreLiveness.ScheduleScanReaches | ChampSim进阶要求/src/ooo_cpu.cc:346-356 | completed instructions cost no search bandwidth, so the scan reaches the oldest one |
| CoreRegistersProof.SchedulingKeeps | ChampSim进阶要求/src/ooo_cpu.cc:361-383 | scheduling keeps the producer lists equal to the id-sorted live writers, and counts equal to blockers |
| CoreRegistersProof.InsertKeepsOrder | ChampSim进阶要求/src/ooo_cpu.cc:374-379 | wherever it belongs, a new producer goes in so that the list stays in program order and gains exactly that one entry |
| CoreRegistersProof.CompletionKeeps | ChampSim进阶要求/src/ooo_cpu.cc:539-561 | completion removes exactly one entry per mention, releases exactly the listed dependents, and keeps the register invariant |
| CoreRegistersProof.DispatchKeeps | ChampSim进阶要求/src/ooo_cpu.cc:330-339 | a fresh younger instruction at the end keeps the register invariant |
| CoreRegistersProof.RetireKeeps | ChampSim进阶要求/src/ooo_cpu.cc:622-630 | dropping completed instructions leaves no list naming a retired one |
| CoreRegistersProof.NotWaitingIsReady | ChampSim进阶要求/src/ooo_cpu.cc:388-391 | a scheduled instruction with count 0 has all its youngest older writers completed |
| CoreRegistersProof.OldestNeverWaits | ChampSim进阶要求/src/ooo_cpu.cc:551-557 | the oldest uncompleted instruction has count 0 |
| CoreMemoryProof.SearchFinds | ChampSim进阶要求/src/ooo_cpu.cc:678-680 | the binary search in the ROB lands on the entry of that id |
| CoreMemoryProof.FinishCredits | ChampSim进阶要求/src/ooo_cpu.cc:676-683 | finishing credits exactly one operation to exactly that instruction |
| CoreMemoryProof.ReturnBlocksKeeps | ChampSim进阶要求/src/ooo_cpu.cc:606-617 | returned blocks free exactly issued loads and keep conservation and links |
| CoreMemoryProof.ServeOne | ChampSim进阶要求/src/ooo_cpu.cc:501-508 | serving the first listed load finds it allocated, waiting on this store, and keeps every queue invariant |
| CoreMemoryProof.FinishStoreKeeps | ChampSim进阶要求/src/ooo_cpu.cc:497-509 | finishing the next store keeps the memory invariant |
| CoreMemoryProof.FinishStoresKeeps | ChampSim进阶要求/src/ooo_cpu.cc:467-475 | finishing a span keeps the memory invariant, finished stores remain a prefix |
| CoreMemoryProof.DropStoresKeeps | ChampSim进阶要求/src/ooo_cpu.cc:477-479 | finished stores may leave without touching any link or count |
| CoreMemoryProof.YoungestMatchSelects | ChampSim进阶要求/src/ooo_cpu.cc:426-430 | the max_element scan, though its comparator is not strict, selects the youngest store to the address if there is one |
| CoreMemoryProof.LoadOneKeeps | ChampSim进阶要求/src/ooo_cpu.cc:421-446 | dispatching one load keeps the queue invariants and accounts for one operation in each of the three cases |
| CoreMemoryProof.DispatchMemoryKeeps | ChampSim进阶要求/src/ooo_cpu.cc:418-456 | dispatching a whole instruction keeps the memory invariant |
| CoreMemoryProof.RetireMemoryKeeps | ChampSim进阶要求/src/ooo_cpu.cc:622-633 | retiring completed instructions leaves no queue entry without its instruction, except finished stores |
| CoreMemoryProof.CompletedHasNoEntries | ChampSim进阶要求/src/ooo_cpu.cc:568-571 | a completed instruction has no load and no unfinished store queued |
| CoreMemoryProof.IssuedLoadIsSafe | ChampSim进阶要求/src/ooo_cpu.cc:484-485 | a load without a producer has no older matching store in the queue |
| CoreProof.OperateKeeps | ChampSim进阶要求/src/ooo_cpu.cc:35-52 | one call keeps the invariant and conserves the instructions |
| CoreProof.FinishSpanKeeps | ChampSim进阶要求/src/ooo_cpu.cc:467-475 | the stores found ready after partition_point are the next unfinished ones |
| CoreProof.LeavingStoreIsRetired | ChampSim进阶要求/src/ooo_cpu.cc:462-479 | a store that leaves is finished and is a store of an instruction among the retired ones, although the code checks neither the finished mark nor retirement itself |
| O3Cpu.Cpu.MarkDependency | ChampSim进阶要求/src/ooo_cpu.cc:366-371 | one source register: at most one new link, to the youngest producer |
| O3Cpu.Cpu.DoScheduling | ChampSim进阶要求/src/ooo_cpu.cc:361-383 | both loops compute the scheduling function |
| O3Cpu.Cpu.ScheduleInstruction | ChampSim进阶要求/src/ooo_cpu.cc:344-359 | the scan computes Schedule and keeps the core valid |
| O3Cpu.Cpu.RemoveProducers | ChampSim进阶要求/src/ooo_cpu.cc:541-547 | every list searched holds the id: the assertion never fails |
| O3Cpu.Cpu.ReleaseDependents | ChampSim进阶要求/src/ooo_cpu.cc:551-557 | every count stays at or above zero: the assertion never fails |
| O3Cpu.Cpu.DoCompleteExecution | ChampSim进阶要求/src/ooo_cpu.cc:539-561 | the completion function on registers |
| O3Cpu.Cpu.CompleteInflightInstruction | ChampSim进阶要求/src/ooo_cpu.cc:563-575 | the scan computes Complete and keeps the core valid |
| O3Cpu.Cpu.DoExecution | ChampSim进阶要求/src/ooo_cpu.cc:398-411 | marks the instruction and all its queue entries with the same time |
| O3Cpu.Cpu.ExecuteInstruction | ChampSim进阶要求/src/ooo_cpu.cc:385-396 | the scan computes Execute and keeps the core valid |
| O3Cpu.Cpu.RetireRob | ChampSim进阶要求/src/ooo_cpu.cc:622-633 | moves the longest completed prefix, at most RETIRE_WIDTH |
| O3Cpu.Cpu.PartitionPoint | ChampSim进阶要求/src/ooo_cpu.cc:678 | halving returns the first id not below the one sought |
| O3Cpu.Cpu.FinishOperation | ChampSim进阶要求/src/ooo_cpu.cc:676-683 | all three assertions hold; one credit |
| O3Cpu.Cpu.HandleMemoryReturn | ChampSim进阶要求/src/ooo_cpu.cc:606-617 | data returns, up to the bandwidth |
| O3Cpu.Cpu.DoFinishStore | ChampSim进阶要求/src/ooo_cpu.cc:497-509 | finish, serve every waiting load; both assertions hold |
| O3Cpu.Cpu.FirstUnfinished | ChampSim进阶要求/src/ooo_cpu.cc:467 | halving is sound because finished stores are a prefix |
| O3Cpu.Cpu.OperateLsq | ChampSim进阶要求/src/ooo_cpu.cc:458-495 | the three phases compute OperateLsq and keep the core valid |
| O3Cpu.Cpu.ScheduleLoad | ChampSim进阶要求/src/ooo_cpu.cc:421-446 | a free slot is found and a match is older: both assertions hold |
| O3Cpu.Cpu.DoMemoryScheduling | ChampSim进阶要求/src/ooo_cpu.cc:418-456 | loads then stores of one instruction |
| O3Cpu.Cpu.DispatchInstruction | ChampSim进阶要求/src/ooo_cpu.cc:325-342 | the loop computes Dispatch and keeps the core valid |
| O3Cpu.Cpu.DecodeInstruction | ChampSim进阶要求/src/ooo_cpu.cc:290-321 | the ready prefix moves to dispatch with its new time |
| O3Cpu.Cpu.PromoteToDecode | ChampSim进阶要求/src/ooo_cpu.cc:275-288 | the fetched, ready prefix moves to decode |
| O3Cpu.Cpu.CheckDib | ChampSim进阶要求/src/ooo_cpu.cc:200-224 | the entries given as hits become fetched and decoded |
| O3Cpu.Cpu.InitializeInstruction | ChampSim进阶要求/src/ooo_cpu.cc:107-146 | moves instructions from the input, folding the stack pointer |
| O3Cpu.Cpu.Operate | ChampSim进阶要求/src/ooo_cpu.cc:35-52 | one call and its tick compute Operate and keep the core valid |
| O3Cpu.Cpu.EndWarmup | ChampSim进阶要求/src/champsim.cc:47 | ending the warm-up between two calls keeps the core valid and changes nothing else |
| Optgen.HitsAreOptimal | ChampSim进阶要求/inc/optgen.h:33-68 | for re-use windows shorter than 128 accesses, num_cache is the largest number of windows any choice can keep within cache_size at each time point |
| Optgen.RingRefinesTimeline | ChampSim进阶要求/inc/optgen.h:33-68 | each live slot counts the admitted windows covering its time point on an unbounded timeline |
| Timeline.GreedyReachesOptimum | ChampSim进阶要求/inc/optgen.h:40-68 | deciding windows by their right ends in order, taking each that fits, is optimal |
| Timeline.Exchange | ChampSim进阶要求/inc/optgen.h:40-68 | the exchange step: taking a window with room loses nothing against any rival choice |
| Optgen.RightExactlyBelowRingSize | ChampSim进阶要求/inc/optgen.h:43-53 | the ring answers like the timeline for every state and capacity exactly when the window is shorter than 128 |
| Optgen.HitsInGeneral | ChampSim进阶要求/inc/optgen.h:43-67 | with windows of up to 128 accesses, num_cache is the optimum without the 128-access ones plus one for each of those |
| Optgen.WholeRingOvercounts | ChampSim进阶要求/inc/optgen.h:43-67 | a concrete run where two 128-access windows are both counted and only one can be kept |
| Optgen.OPTgen.Init | ChampSim进阶要求/inc/optgen.h:18-28 | a later call keeps the occupancy, because resize does not clear |
| Optgen.OPTgen.SetAccess | ChampSim进阶要求/inc/optgen.h:33-37 | clears the slot of this time |
| Optgen.OPTgen.IsCache | ChampSim进阶要求/inc/optgen.h:40-68 | true exactly when every slot on the walk is below cache_size, and then exactly those slots rise by one |
| HawkeyeSampler.SamplerHitsAreOptimal | ChampSim进阶要求/replacement/hawkeye/hawkeye_algorithm.cc:112-166 | after any accesses, what OPTgen counted for a cache set is the optimum of the windows the sampler presented, plus the whole-ring ones its guard lets through |
| HawkeyeSampler.TouchedTimes | ChampSim进阶要求/replacement/hawkeye/hawkeye_algorithm.cc:136-164 | a use stores its own time and pc for its tag; every other tag kept keeps the time and pc of its own last use |
| HawkeyeSampler.EveryWindowIsReuse | ChampSim进阶要求/replacement/hawkeye/hawkeye_algorithm.cc:109-166 | after any accesses, an access whose tag was held and last used by the same cache set, less than 1024 of its accesses before, presented to OPTgen the window that starts at that last use if it is at most 128 long, and none otherwise |
| HawkeyeSampler.PresentedIsReuse | ChampSim进阶要求/replacement/hawkeye/hawkeye_algorithm.cc:119-124 | the window presented starts at the last use itself exactly when the clock has not come round to within 128 of it since |
| HawkeyeSampler.RoundTheClock | ChampSim进阶要求/replacement/hawkeye/hawkeye_algorithm.cc:119-124 | a concrete pair of uses 1026 accesses apart is presented as a window of 2 |
| HawkeyeSampler.HoldsTheLastEight | ChampSim进阶要求/replacement/hawkeye/hawkeye_algorithm.cc:139-164 | a sampler set holds at most eight tags, exactly the last ones used, with ranks by last use |
| HawkeyeSampler.TouchedHolds | ChampSim进阶要求/replacement/hawkeye/hawkeye_algorithm.cc:136-164 | eviction, insertion and ageing keep that |
| HawkeyeSampler.FullSetHasOldest | ChampSim进阶要求/replacement/hawkeye/hawkeye_algorithm.cc:142-152 | a full set has an entry of rank 7, so the victim search never falls through to address 0 |
| HawkeyeSampler.PresentedSlot | ChampSim进阶要求/replacement/hawkeye/hawkeye_algorithm.cc:119-124 | the slot computed on the 1024-cycle clock is the slot of the presented time |
| HawkeyeSampler.Sampler.UpdateCacheHistory | ChampSim进阶要求/replacement/hawkeye/hawkeye_algorithm.cc:96-103 | ages exactly the entries below the limit |
| HawkeyeSampler.Sampler.FindOldest | ChampSim进阶要求/replacement/hawkeye/hawkeye_algorithm.cc:144-150 | finds an entry of the last rank if there is one |
| HawkeyeSampler.Sampler.Touch | ChampSim进阶要求/replacement/hawkeye/hawkeye_algorithm.cc:136-164 | the sampler set after a use of a tag |
| HawkeyeSampler.Sampler.Access | ChampSim进阶要求/replacement/hawkeye/hawkeye_algorithm.cc:109-166 | one access: what is presented to OPTgen, whom the predictor rewards, and the recency list |
| HawkeyeSampler.Present | ChampSim进阶要求/replacement/hawkeye/hawkeye_algorithm.cc:119-135 | the wrap guard and the ring walk together are one step of the OPTgen run |
| BaseReplacement.RankIsNumberOfNewerWays | ChampSim基础要求/replacement/base_replacement.cc:72-80 | rank k means that exactly k ways are more recent, and ranks stay below the number of ways |
| BaseReplacement.LruSet.Update | ChampSim基础要求/replacement/base_replacement.cc:72-80 | in place, the way becomes rank 0 and the more recent ones move down; ranks stay a permutation ordered by last use |
| BaseReplacement.LruSet.Victim | ChampSim基础要求/replacement/base_replacement.cc:22-70 | the first invalid way, else the one whose last use is strictly the oldest; a victim always exists |
| Ranks.PromotedRanked | ChampSim基础要求/replacement/base_replacement.cc:72-80 | promotion of ranks is move-to-front of the recency list |
| Ranks.RecentsByLastUse | ChampSim基础要求/replacement/base_replacement.cc:72-80 | the recency list is the list of distinct keys by time of last use |
| DramRuns.EveryRunIsConsistent | ChampSim进阶要求/src/dram_controller.cc:44-184 | over every run an entry is scheduled exactly when exactly one valid bank request points at it, from the bank its address decodes to |
| DramPointers.ScheduledIffPointedAt | ChampSim进阶要求/src/dram_controller.cc:162-180 | the pointer invariant says exactly that |
| DramPointers.CheckCollisionPointers | ChampSim进阶要求/src/dram_controller.cc:220-275 | collision handling never clears or moves a scheduled entry |
| DramPointers.SwitchPointers | ChampSim进阶要求/src/dram_controller.cc:93-119 | a flip happens exactly when the queues are unbalanced, frees every bank but the active one, sets the bus free time to the end of the transfer plus turn-around, and keeps the pointers consistent |
| DramPointers.FinishPointers | ChampSim进阶要求/src/dram_controller.cc:74-87 | finishing keeps the pointers consistent, and a transfer that remains active ends later |
| DramPointers.SchedulePointers | ChampSim进阶要求/src/dram_controller.cc:152-180 | scheduling the entry the scan selects keeps the pointers consistent: none is scheduled twice |
| DramPointers.DueIsUnscheduled | ChampSim进阶要求/src/dram_controller.cc:153-162 | an entry whose time has come is unscheduled, so the weak comparator does no harm |
| DramQueues.CollisionLeavesDistinctBlocks | ChampSim进阶要求/src/dram_controller.cc:220-275 | after collision handling occupied entries of each queue have distinct blocks |
| DramQueues.OperateServes | ChampSim进阶要求/src/dram_controller.cc:44-184 | a (block, return queue) pair that waits in RQ stays or a response for that block is pushed to that queue |
| DramRuns.RunServes | ChampSim进阶要求/src/dram_controller.cc:44-184 | over every run of calls, no such waiting pair is lost |
| DramTiming.ScheduleCosts | ChampSim进阶要求/src/dram_controller.cc:162-176 | in any call, a bank that becomes busy is the one its request decodes to, is ready tCAS later if the row it had open is that of the request and else tRP + tRCD + tCAS later, and has that row open from then on |
| DramTiming.EveryRunTakesItsTime | ChampSim进阶要求/src/dram_controller.cc:97-176 | over every run, the row open in a bank is the row last scheduled there unless a flip precharged it since, and every answered request spent at least tCAS plus the return time after it was scheduled, at least tRP + tRCD more on another row |
| DramData.CheckWritesExactly | ChampSim进阶要求/src/dram_controller.cc:220-235 | of the queued writes to a block exactly the one checked before, or else the one in the last slot, stays, unchanged |
| DramData.CollisionForwards | ChampSim进阶要求/src/dram_controller.cc:220-275 | every response that collision handling sends carries the data of the write to its block that stays, and no new read of a block with a queued write is left |
| DramData.FinishAnswers | ChampSim进阶要求/src/dram_controller.cc:74-87 | the end of a transfer answers each queue that waits with the data of its own request, and frees exactly that entry and bank |
| DramData.DrainAnswers | ChampSim进阶要求/src/dram_controller.cc:51-69 | during warm-up every response sent goes to a queue that waits for a read, with the address, data and waiters of that read |
| DramData.FlipsExactly | ChampSim进阶要求/src/dram_controller.cc:93-95 | the mode flips exactly when the write queue is at seven eighths or the reads are gone, or, in write mode, when it is empty or below three quarters with reads waiting |
| DramRuns.EveryRunRespectsTheBus | ChampSim进阶要求/src/dram_controller.cc:111-129 | over every run a transfer in the other direction starts no sooner than the turn-around time after the previous one ends, even across mode flips |
| DramRuns.TransferRespectsTurnAround | ChampSim进阶要求/src/dram_controller.cc:111-129 | in any call, a transfer that starts does so after the last one ended, plus the turn-around time if the direction changed |
| DramRuns.BusTakesMostUrgent | ChampSim进阶要求/src/dram_controller.cc:121-129 | the min_element scan takes the valid bank request that became ready first |
| DramRuns.CongestionNeverUnderflows | ChampSim进阶要求/src/dram_controller.cc:121-149 | congestion grows exactly when a bank is ready and the bus taken, by the cycles until the bus is free, and that difference is never negative |
| DramData.AddsExactly | ChampSim进阶要求/src/dram_controller.cc:299-335 | a queue refuses a request exactly when it is full; otherwise the first empty slot takes it, due at once |
| DramRuns.NeverIdle | ChampSim进阶要求/src/dram_controller.cc:89-180 | outside warm-up a call that leaves work leaves a busy bank or has flipped the mode |
| DramStarvation.AlwaysBusyIff | ChampSim进阶要求/src/dram_controller.cc:93-180 | in every reachable state each call outside warm-up that leaves work leaves a busy bank, exactly when the write queue has at least two slots |
| DramStarvation.OneSlotIdles | ChampSim进阶要求/src/dram_controller.cc:93-119 | the run that shows it: one read offered as the warm-up ends leaves one write slot with work, in write mode, and no bank busy |
| DramStarvation.EveryRunStartsWrites | ChampSim进阶要求/src/dram_controller.cc:93-129 | with one write slot, in every reachable state a transfer that starts is a write: no read is ever put on the bus |
| DramStarvation.OneSlotStartsWrites | ChampSim进阶要求/src/dram_controller.cc:93-129 | the step: in read mode the high mark of 0 always flips, and a flip leaves no ready bank |
| DramStarvation.ReadsStarve | ChampSim进阶要求/src/dram_controller.cc:93-119 | with one write slot and no writes, over any number of calls every call flips the mode, no response is sent and every waiting pair waits on |
| DramService.EveryReadIsServed | ChampSim进阶要求/src/dram_controller.cc:44-180 | with two write slots or more, from every reachable state every waiting (block, return queue) pair is answered within (WQ + RQ + 2 banks + 5)(2 return + turn-around + tRP + tRCD + tCAS + 3) + tRP + tRCD + tCAS + 2 calls at rising cycles that bring no writes, whatever reads they bring |
| DramService.ServedIff | ChampSim进阶要求/src/dram_controller.cc:44-180 | that bound, or any larger one a run can hold, is met by every run exactly when the write queue has at least two slots |
| DramRank.CallRank | ChampSim进阶要求/src/dram_controller.cc:44-180 | one call outside warm-up answers the read in a slot or lowers its rank: writes first, then reads that are scheduled before it, then requests ready before it, then the bus |
| DramRank.TimerTicks | ChampSim进阶要求/src/dram_controller.cc:121-180 | while no transfer ends and work remains, the time to the next end of a transfer falls with every call |
| DramService.EveryRunIsTimely | ChampSim进阶要求/src/dram_controller.cc:44-180 | over every run the bus is free, and every busy bank ready, within the configured latencies from now |
| DramRank.LateRank | ChampSim进阶要求/src/dram_controller.cc:121-180 | putting a request on the bus and scheduling the next one raise no rank |
| DramAddress.FieldsRebuildTheBlock | ChampSim进阶要求/src/dram_controller.cc:341-369 | channel, bank, column, rank and row are the digits of the block number |
| DramAddress.OpIndexIdentifiesTheBank | ChampSim进阶要求/src/dram_controller.cc:163-167 | each rank and bank has a bank request of its own |
| DramAddress.FieldsIdentifyTheBlock | ChampSim进阶要求/src/dram_controller.cc:341-369 | two blocks within the memory share all fields exactly when they are the same |
| DramController.DramChannel.AddRq | ChampSim进阶要求/src/dram_controller.cc:299-316 | the first free slot takes the packet; false exactly when none is free |
| DramController.DramChannel.AddWq | ChampSim进阶要求/src/dram_controller.cc:318-334 | the first free write slot takes the packet; false exactly when none is free |
| DramController.DramChannel.AnswerEverything | ChampSim进阶要求/src/dram_controller.cc:51-69 | warm-up answers every read and drops every write |
| DramController.DramChannel.CheckCollision | ChampSim进阶要求/src/dram_controller.cc:220-275 | both loops compute the collision function |
| DramController.DramChannel.FinishTransfer | ChampSim进阶要求/src/dram_controller.cc:74-87 | the end of the active transfer |
| DramController.DramChannel.ChangeMode | ChampSim进阶要求/src/dram_controller.cc:89-119 | unscheduling, turn-around and mode |
| DramController.DramChannel.ProcessRequest | ChampSim进阶要求/src/dram_controller.cc:121-150 | the next transfer or the congestion count |
| DramController.DramChannel.ScheduleNext | ChampSim进阶要求/src/dram_controller.cc:152-180 | the next bank request |
| DramController.DramChannel.Operate | ChampSim进阶要求/src/dram_controller.cc:44-184 | one call computes Operate and keeps pointers, queues and bus valid |
| Scans.ScanSelects | ChampSim进阶要求/src/dram_controller.cc:121-160 | what a min/max_element scan returns with a comparator that is not strict on ineligible elements |
| ChannelQueues.EveryRunServes | ChampSim进阶要求/src/channel.cc:31-112 | over any run of a channel a waiting instruction stays in its queue, goes down with a request, or has been sent a response for its block |
| ChannelData.CollisionAnswersExactly | ChampSim进阶要求/src/channel.cc:59-112 | collision handling sends exactly the responses to the new reads and then the new prefetches that meet a write and want one, each with address and waiters of its request and data and metadata of the first write to its place |
| ChannelData.MergedDataExactly | ChampSim进阶要求/src/channel.cc:47-83 | exactly the requests that no earlier one on their place takes in stay, with their own data, and none waits for an instruction that did not come with a request on its place |
| ChannelData.CollisionSelects | ChampSim进阶要求/src/channel.cc:31-45 | a request collides with the first one on its grain, exactly if the two agree on translation |
| ChannelData.EveryRunIsFifo | ChampSim进阶要求/src/channel.cc:114-181 | between collisions, what was taken from a queue followed by what it holds is what it held followed by what it accepted, in order |
| ChannelQueues.CheckCollisionServes | ChampSim进阶要求/src/channel.cc:69-112 | collision handling loses no waiter of any queue |
| ChannelQueues.MergeServes | ChampSim进阶要求/src/channel.cc:48-57 | one merge keeps both lists of waiters |
| ChannelQueues.EveryRunKeepsQueues | ChampSim进阶要求/src/channel.cc:69-139 | over any run whose requests have one translation state per place of a queue: within sizes, lists sorted, and no collision handling leaves a duplicate |
| ChannelQueues.EveryRunDistinctIff | ChampSim进阶要求/src/channel.cc:69-139 | over any run: no collision handling leaves a duplicate if and only if each finds requests that agree place by place, not counting those the write queue answers |
| ChannelQueues.CheckCollisionExact | ChampSim进阶要求/src/channel.cc:69-112 | collision handling leaves one request per place in each queue if and only if the requests of each place agreed before |
| ChannelQueues.MergeFromDistinctIff | ChampSim进阶要求/src/channel.cc:74-83 | the write queue ends with one request per place if and only if the requests of each place agree on their translation state |
| ChannelQueues.ForwardFromDistinctIff | ChampSim进阶要求/src/channel.cc:85-111 | a read or prefetch queue ends with one request per place if and only if the requests that the write queue does not answer agree |
| ChannelQueues.ForwardFromIsMerge | ChampSim进阶要求/src/channel.cc:85-111 | forwarding while merging gives the queue that merging gives after all answered requests are taken out |
| ChannelQueues.MergeFromSettles | ChampSim进阶要求/src/channel.cc:74-83 | in any case a later request on a block has the other translation state than the first one there |
| ChannelQueues.ForwardFromSettles | ChampSim进阶要求/src/channel.cc:85-111 | after forwarding from the write queue, a later request on a block has the other translation state than the first one there |
| ChannelQueues.MixedTranslationKeepsADuplicate | ChampSim进阶要求/src/channel.cc:34-42 | a concrete queue in which a duplicate stays |
| ChannelQueues.MergeFromSorted | ChampSim进阶要求/src/channel.cc:48-57 | merged id lists stay sorted without duplicates |
| SetUnion.UnionMembers | ChampSim进阶要求/src/channel.cc:54-55 | a merged list has exactly the members of both |
| SetUnion.UnionSorted | ChampSim进阶要求/src/channel.cc:54-55 | and is strictly sorted if both were |
| ChannelQueues.Channel.DoAddQueue | ChampSim进阶要求/src/channel.cc:114-139 | refused exactly when full, else appended unchecked |
| ChannelQueues.Channel.CollideForMerge | ChampSim进阶要求/src/channel.cc:31-57 | one position: merged into the first request of its grain, or marked |
| ChannelQueues.Channel.CollideForReturn | ChampSim进阶要求/src/channel.cc:59-67 | answered from the write queue exactly when its first match agrees on translation |
| ChannelQueues.Channel.ForwardQueue | ChampSim进阶要求/src/channel.cc:85-97 | the loop over a read or prefetch queue |
| ChannelQueues.Channel.MergeWrites | ChampSim进阶要求/src/channel.cc:74-83 | the loop over the write queue |
| ChannelQueues.Channel.CheckCollision | ChampSim进阶要求/src/channel.cc:69-112 | the three loops compute the collision function |
| CacheRuns.Run | ChampSim进阶要求/src/cache.cc:331-420 | over every run the misses in flight stay distinct, at most MSHR_SIZE, returned ones first and sorted by fill time |
| CacheRuns.EveryRunServes | ChampSim进阶要求/src/cache.cc:331-420 | over every run an instruction waiting in a tag check, a miss or a write-back still waits, or the queue it wanted got a response for its block |
| CacheProof.FinishPacketOrder | ChampSim进阶要求/src/cache.cc:498-525 | for every answer: it finds its miss and an unreturned one to swap with, and returned misses stay in front and in order, exactly when it answers a miss that had not returned before |
| CacheProof.FinishPacketKeeps | ChampSim进阶要求/src/cache.cc:498-525 | an answer to a miss in flight finds its entry and an unreturned one, and keeps the discipline |
| Cache.AnswerShrinks | ChampSim进阶要求/src/cache.cc:498-525 | after one answer the remaining ones are still answers to misses in flight |
| CacheProof.MergeKeepsReturned | ChampSim进阶要求/src/cache.cc:47-75 | a merge keeps block, fill time and data of the older miss and unites waiters and return queues |
| CacheProof.HandleMissKeeps | ChampSim进阶要求/src/cache.cc:215-292 | a miss merges, is refused, or takes a new entry; the discipline stays |
| CacheProof.NoDueFillHidden | ChampSim进阶要求/src/cache.cc:350-358 | a fill scan that stops early has no due entry behind it, or met a refused write-back |
| CacheProof.FillAnswers | ChampSim进阶要求/src/cache.cc:82-165 | a fill is refused exactly when it would evict a dirty block into a full write queue, and then changes nothing; else every waiting queue gets exactly one response |
| CacheProof.FillKeepsDirtyData | ChampSim进阶要求/src/cache.cc:106-144 | a dirty block leaves only as an accepted write-back with its address and data; no other block changes |
| CacheRuns.HandleMissServes | ChampSim进阶要求/src/cache.cc:215-292 | an accepted miss holds its waiters and no other entry loses any |
| CacheRuns.TagCheckServes | ChampSim进阶要求/src/cache.cc:393-408 | a finished tag check has answered or handed on every waiter |
| CacheSends.EveryMissIsRequestedOnce | ChampSim进阶要求/src/cache.cc:215-292 | over every run from an empty cache and for every block, the requests sent below that want a response are one more than the responses that came if a miss on the block still waits for one, and as many otherwise |
| CacheSends.EveryRunRequests | ChampSim进阶要求/src/cache.cc:215-292 | from any state, requests sent and misses open before balance responses received and misses open after, block by block |
| CacheSteps.MissSendsExactly | ChampSim进阶要求/src/cache.cc:215-292 | a miss on a block not in flight sends exactly one request, with its address, data, metadata, waiters and response flag, to the prefetch queue if it is a prefetch not to be sent as a load and else to the read queue, and takes an entry if a response will come; it is refused exactly without a free entry or room below; a miss in flight sends nothing |
| CacheSteps.MissMergesExactly | ChampSim进阶要求/src/cache.cc:47-75 | a merge unites waiters and return queues, keeps data and fill time, takes the rest from a request that is no prefetch, and touches no other entry |
| CacheSteps.FinishPacketExactly | ChampSim进阶要求/src/cache.cc:498-525 | an answer puts its data, metadata and fill time into its entry, which trades places with the first unreturned one |
| CacheSteps.FillInstallsExactly | ChampSim进阶要求/src/cache.cc:82-165 | a fill installs the block with the data of its entry, dirty exactly for a write, in the first invalid way or the one the policy picks, and sends nothing but the write-back of a dirty block there, with that block's own data |
| CacheSteps.HitAnswersExactly | ChampSim进阶要求/src/cache.cc:167-213 | a hit answers every queue that waits once with the data of the first matching block, makes it dirty for a write, clears its prefetch mark for a request from above, and changes nothing else |
| CacheSteps.MissGoesOn | ChampSim进阶要求/src/cache.cc:393-401 | without the block, a write-back waits to be filled after the fill latency, and anything else is a miss |
| CacheSteps.RetriedIff | ChampSim进阶要求/src/cache.cc:393-408 | a tag check must be retried exactly if its block is neither here nor in flight and there is no entry or no room below |
| CacheSteps.CycleExactly | ChampSim进阶要求/src/cache.cc:331-420 | a whole cycle: the answers complete their misses, due misses and then due write-backs are filled within MAX_FILL and left only for bandwidth or a full queue below, and the ready tag checks in front are done within MAX_TAG until one must be retried; every time is the configured latency, zero during warm-up |
| CacheSends.EveryRunKeepsDirtyData | ChampSim进阶要求/src/cache.cc:82-213 | over every run, a dirty block is still in its way, dirty and with its data, or its write-back with that data has been sent below |
| CacheRuns.EveryArrivalIsServed | ChampSim进阶要求/src/cache.cc:331-420 | over every run, an instruction whose request arrives in any cycle still waits at the end, or the queue it wanted got a response for its block |
| CacheLevel.Level.HandleFill | ChampSim进阶要求/src/cache.cc:82-165 | the fill function on blocks, write-back and responses |
| CacheLevel.Level.TryHit | ChampSim进阶要求/src/cache.cc:167-213 | a hit answers all queues and marks the block; a miss changes nothing |
| CacheLevel.Level.HandleMiss | ChampSim进阶要求/src/cache.cc:215-292 | the miss function |
| CacheLevel.Level.HandleWrite | ChampSim进阶要求/src/cache.cc:294-308 | a write-back that misses waits to be filled |
| CacheLevel.Level.FinishPacket | ChampSim进阶要求/src/cache.cc:498-525 | data, time and swap |
| CacheLevel.Level.FinishReturns | ChampSim进阶要求/src/cache.cc:338-341 | all responses, in order |
| CacheLevel.Level.PerformFills | ChampSim进阶要求/src/cache.cc:350-359 | misses first, write-backs with the bandwidth left |
| CacheLevel.Level.PerformTagChecks | ChampSim进阶要求/src/cache.cc:393-408 | the ready prefix, up to MAX_TAG, until one must be retried |
| CacheLevel.Level.Operate | ChampSim进阶要求/src/cache.cc:331-420 | one call computes Cycle and keeps the cache invariant |
| Recency.WiderTableHitsToo | ChampSim进阶要求/inc/msl/lru_table.h:94-129 | after the same operations whatever a table of w ways returns, one of more ways returns with the same data |
| Recency.NextIncluded | ChampSim进阶要求/inc/msl/lru_table.h:94-129 | one operation keeps the narrow list within the wide one |
| Recency.NextKeeps | ChampSim进阶要求/inc/msl/lru_table.h:94-129 | one entry per tag, at most NUM_WAY |
| LruTable.MinMaxSelects | ChampSim进阶要求/inc/msl/lru_table.h:80-91 | minmax_element with this comparator still finds a least and a greatest slot |
| LruTable.FillPosition | ChampSim进阶要求/inc/msl/lru_table.h:106-118 | a fill takes the slot of its tag, else an unused one, else the least recently used |
| LruTable.HitRefines | ChampSim进阶要求/inc/msl/lru_table.h:94-104 | check_hit is lookup and move to front |
| LruTable.FillRefines | ChampSim进阶要求/inc/msl/lru_table.h:106-118 | fill is insert in front and cut to NUM_WAY |
| LruTable.ClearRefines | ChampSim进阶要求/inc/msl/lru_table.h:120-129 | invalidate is removal |
| LruTable.Table.CheckHit | ChampSim进阶要求/inc/msl/lru_table.h:94-104 | returns the element of the tag and moves it to the front of its set's list; no other set changes |
| LruTable.Table.Fill | ChampSim进阶要求/inc/msl/lru_table.h:106-118 | the list of the tag's set gets the element in front, cut to NUM_WAY; no other set changes |
| LruTable.Table.Invalidate | ChampSim进阶要求/inc/msl/lru_table.h:120-129 | the element leaves its set's list and is returned; no other set changes |
| FastSet.Set.InsertSmall | ChampSim基础要求/inc/set.h:57-71 | keeps the array strictly increasing and adds exactly x |
| FastSet.Set.ShiftUp | ChampSim基础要求/inc/set.h:64-66 | moves the tail up by one |
| FastSet.Set.SearchSmallLinear | ChampSim基础要求/inc/set.h:76-83 | finds exactly the members |
| FastSet.Set.SearchSmall | ChampSim基础要求/inc/set.h:88-115 | the binary search finds exactly the members |
| FastSet.Set.SmallToBit | ChampSim基础要求/inc/set.h:119-128 | the bits are exactly the array's elements |
| FastSet.Set.Insert | ChampSim基础要求/inc/set.h:142-165 | adds exactly x across the switch to bits |
| FastSet.Set.Search | ChampSim基础要求/inc/set.h:169-184 | decides membership |
| FastSet.Set.Join | ChampSim基础要求/inc/set.h:189-216 | union, also with itself; of a large set the words up to the given bound, hence all elements below it |
| FastSet.Set.Expand | ChampSim基础要求/inc/set.h:220-248 | the strictly increasing listing with the right cardinality for elements below the bound |
| PageAllocator.DisjointExactlyWhenTablesFit | ChampSim进阶要求/src/vmem.cc:58-100 | every run keeps all data pages and page tables disjoint and above the reserve exactly when a page table is no larger than a page |
| PageAllocator.EveryRunIsDisjoint | ChampSim进阶要求/src/vmem.cc:58-100 | the direction for tables that fit |
| PageAllocator.LargeTablesOverlap | ChampSim进阶要求/src/vmem.cc:74-91 | a concrete run that overlaps otherwise |
| PageAllocator.MappingsNeverChange | ChampSim进阶要求/src/vmem.cc:58-100 | a mapping never changes once made |
| PageAllocator.TranslationIsInjective | ChampSim进阶要求/src/vmem.cc:58-72 | translation keeps the page offset and is injective on (cpu, address) |
| PageAllocator.LevelsNest | ChampSim进阶要求/src/vmem.cc:40 | a level-1 entry spans a page, and the index at each further level is that of the level below divided by the entries of a table |
| PageAllocator.WalkIsInjective | ChampSim进阶要求/src/vmem.cc:74-100 | walk steps get the same entry address exactly when they are of one processor and one level and share the index there |
| PageAllocator.RunKeepsPages | ChampSim进阶要求/src/vmem.cc:58-72 | what injectivity rests on holds after every run, whatever the table size |
| PageAllocator.EntryInItsTable | ChampSim进阶要求/src/vmem.cc:93-94 | an entry's address lies in the table of its key at its offset |
| VirtualMemory.Memory.VaToPa | ChampSim进阶要求/src/vmem.cc:58-72 | one translation: state, address and penalty |
| VirtualMemory.Memory.GetPtePa | ChampSim进阶要求/src/vmem.cc:74-100 | one walk step: state, address and penalty |
| TraceRemap.CollectedPagesStayDistinct | ChampSim进阶要求/tracer/cvp_converter/cvp2champsim.cc:324-349 | over every run collected data addresses avoid code pages and stay distinct |
| TraceRemap.EveryTraceKeepsItsAddressesApart | ChampSim进阶要求/tracer/cvp_converter/cvp2champsim.cc:300-349 | for every trace: with everything collected first, the addresses written for its loads and stores are off all its code pages and equal only for equal addresses |
| TraceRemap.DistinctExactlyWhenOffTheFreePages | ChampSim进阶要求/tracer/cvp_converter/cvp2champsim.cc:324-349 | for any pages collected and any addresses asked, in any order: distinct pages get distinct places if and only if no asked page is among the first free pages, as many as code pages are asked for |
| TraceRemap.RunTakesInOrder | ChampSim进阶要求/tracer/cvp_converter/cvp2champsim.cc:336-343 | pages moved to are the free pages from the first bump page on, in order, one for each code page asked for |
| TraceRemap.AnswersAvoidCode | ChampSim进阶要求/tracer/cvp_converter/cvp2champsim.cc:329-348 | no answer is on a code page; the low 12 bits stay |
| TraceRemap.AnswersNeverChange | ChampSim进阶要求/tracer/cvp_converter/cvp2champsim.cc:330-345 | the same answer on every later call |
| TraceRemap.BumpIsBounded | ChampSim进阶要求/tracer/cvp_converter/cvp2champsim.cc:336-343 | new pages stay within the number of pages seen of the first one |
| TraceRemap.FirstFree | ChampSim进阶要求/tracer/cvp_converter/cvp2champsim.cc:337-342 | the search ends at the first page that is neither code nor data |
| TraceRemap.Converter.Collect | ChampSim进阶要求/tracer/cvp_converter/cvp2champsim.cc:304-306 | one record of the collecting pass |
| TraceRemap.Converter.Transform | ChampSim进阶要求/tracer/cvp_converter/cvp2champsim.cc:324-349 | one address; the search loop terminates |

## Left out

- Branch prediction, fetch redirection and the instruction cache: how many instructions fetch may take, which fetches completed and which decoded-buffer lookups hit are inputs of a cycle.
- O3Cpu.Cpu.DecodeInstruction: filling the decoded buffer and resuming fetch after a mispredicted branch are not modelled, being parts of the front end that is an input.
- O3Cpu.Cpu.InitializeInstruction: the branch prediction and the cycle at which fetch resumes enter as the number of instructions taken.
- O3Cpu.Cpu.CheckDib: the `dib_checked` mark and the FETCH_WIDTH window are folded into the set of hits, which is an input; the decoded buffer itself is LruTable.
- O3Cpu.Cpu.Operate: the fetch stage is the input set of completed fetches; statistics, heartbeat and deadlock printing are not modelled.
- Optgen.HitsAreOptimal: stated for windows of at most 127 accesses, because the source counts longer ones without looking at the ring; Optgen.HitsInGeneral says what happens then.
- HawkeyeSampler.Sampler.Access: the address hash and the choice of sampled sets are inputs; the predictor's counters and the re-reference counters of the ways are not modelled.
- DramController.DramChannel.Operate: one channel; the distribution of upper-level queues over channels, row-hit statistics and the conversion of nanoseconds to cycles are not modelled.
- CacheLevel.Level.HandleFill: the way and the metadata chosen by policy and prefetcher are inputs, and the assertion that a write is never bypassed is left to the policy.
- CacheLevel.Level.PerformTagChecks: the gate on translated requests and the translation stash are not carried, since requests come translated.
- CacheLevel.Level.Operate: address translation of requests, the prefetcher, and the transfer from the upper queues are inputs (new requests and policy choices per cycle); virtual addresses, instruction pointers and cpu numbers are not carried; the check that a write is never bypassed is the replacement policy's business.
- CacheSteps.MissSendsExactly: the kind of a request sent below (a write goes down as a read for ownership) is not carried.
- CacheRuns.EveryRunServes: the lower level's queues may change arbitrarily between cycles, so what happens to a request below is ChannelQueues.EveryRunServes, not part of this theorem.
- CacheProof.FillKeepsDirtyData: blocks are grouped by set instead of stored in one flat vector.
- ChannelQueues.Channel.CheckCollision: counters, virtual addresses and address-space ids are not carried; a duplicate keeps the older request's data, as the source does.
- LruTable.Table.Fill: set and tag projections are one tag and a function from tag to set, as in every use in the source, where equal tags index the same set.
- FastSet.Set.SmallToBit: array and bits are two fields instead of one shared piece of memory; only the one that the cardinality selects is ever read.
- FastSet.Set.Join: the bound must be below 512, because for 512 the source would touch a ninth word of eight; elements are below 512, as the commented-out assertions say.
- VirtualMemory.Memory.VaToPa: the warnings about the size of physical memory are not modelled; a page must be left where the source asserts it.
- TraceRemap.Converter.Collect: reading and decompressing traces is not modelled; the collecting pass is over before the first address is moved.
- Prefetchers, branch predictors, the other replacement policies, trace readers, printers, configuration scripts and the older copies of core, cache and memory controller are not modelled.
