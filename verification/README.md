# Verified models of the simulator's state machines

This project models the small machines that a cycle-level processor simulator is built from, and proves
what their sanity checks take for granted. Each machine is given twice: as functions on values (what one
step does), with lemmas about every step and every run, and as a class whose methods update arrays,
counters and queues in place and are proved equal to those functions.

| machine | files |
|---|---|
| DRAM controller of one channel: coupling invariant, bus timing, draining | `DramModel`, `DramInvariant`, `DramEffects`, `DramRun`, `DramDrain`, `DramSizes`, `DramController` |
| Register wakeup in the reorder buffer | `WakeupModel`, `WakeupInvariant`, `WakeupRun`, `ReorderBuffer` |
| Store order and store-to-load forwarding | `LsqModel`, `StoreOrder`, `StoreOrderSteps`, `Forwarding`, `ForwardingSteps`, `ForwardingServe`, `ForwardingAdd`, `ForwardingRetire`, `LsqAdding`, `LsqRun`, `TwoStores`, `LoadStoreQueue` |
| Requests between the first and second cache level | `CacheProtocol`, `CacheRun`, `CacheQueues`, `CacheLevels` |
| Cache array beside its misses, replacement | `CacheArray`, `Recency`, `Replacement` |
| KPCP lookahead prefetcher | `KpcpModel`, `Kpcp` |
| `fastset` | `FastSet` |
| Hashed perceptron, call-stack feature, successor prefetcher, page tables | `HashedPerceptron`, `CallStack`, `Sisb`, `PageTables` |
| Shared | `Counting`, `CoreTypes`, `Rings` |

Three exact conditions came out of the proofs:

- The DRAM controller drains from every reachable state exactly when its write queue has at least two
  places (`DramSizes.DrainsIff`). With fewer, the high watermark is 0 and the mode flips in every cycle.
  The simulator has 64 places.
- No request of the first cache level is ever refused exactly when the read queue of the second level has
  a place for every first-level miss (`CacheRun.NeverRefusesIff`). The simulator has 32 places for 8 + 16.
- The producer check of `execute_store` holds in every run exactly when no instruction has two memory
  destinations (`TwoStores.CheckHoldsIff`). With two equal destinations the second store finds its load
  already released. With two different ones a load that depends on the instruction through one address,
  but reads the other address from a younger store, fails the check. Store order needs no such condition.

Conventions. A step is a total function where its guard holds, and `Inv`, `OrderInv` and `ForwardInv` are
the invariants of the machines. `View()` is the value that a class represents; a method that changes state
says `View() == Step(old(View()))`, and what each step does to entries, queues, banks and tables is stated
once more without naming the step function, as part of the contract or as a lemma about the step. Timing is left open wherever it is not the point: in the core, in the
load and store queues and between the caches any enabled step may come next, so the theorems hold for
every latency, translation and scheduling order. Numbers are unbounded unless a width matters.

## Model

| member | source | states |
|---|---|---|
| DramModel.AddressRoundTrip | src/dram_controller.cc:628-676 | the column, bank, rank and row fields of a one-channel address determine the block address again, so no two addresses collide in bank and row and column |
| DramModel.OldestIsFirstMinimum | src/dram_controller.cc:177-182 | the cached argmin search finds the first entry of least event cycle among the eligible ones, or none exists |
| DramInvariant.InitialInv | inc/dram_controller.h:42-73 | the freshly built channel satisfies the coupling invariant |
| DramInvariant.SwitchKeepsInv | src/dram_controller.cc:7-67 | a mode switch cancels all scheduled work of the old queue, frees exactly its banks, and keeps the coupling |
| DramInvariant.ChoiceIsFirstReady | src/dram_controller.cc:132-215 | the scheduler picks the oldest row hit on an idle bank, else the oldest request on an idle bank, and nothing only when no request can start |
| DramInvariant.StartKeepsInv | src/dram_controller.cc:217-261 | starting a request makes its bank name it and keeps counts, caches and coupling exact |
| DramInvariant.ScheduleKeepsInv | src/dram_controller.cc:123-272 | scheduling keeps the coupling; what it does is DramEffects.SchedulingStartsFirst |
| DramInvariant.ProcessedEntryIsServed | src/dram_controller.cc:276-296 | when a request is due, the process index is in range and its bank's request_index names it, so the sanity checks cannot fire |
| DramInvariant.ProcessKeepsInv | src/dram_controller.cc:274-414 | serving a request, or waiting for the bus, keeps the coupling |
| DramInvariant.OperateKeepsInv | src/dram_controller.cc:69-121 | every controller cycle keeps the coupling |
| DramInvariant.AddReadKeepsInv | src/dram_controller.cc:416-490 | a read arrival that is answered, merged or queued keeps the coupling and addresses stay distinct |
| DramInvariant.AddWriteKeepsInv | src/dram_controller.cc:492-532 | a write arrival keeps the coupling |
| DramInvariant.GuardedAddsAreKept | src/dram_controller.cc:448-480 | when the caller's occupancy test passes, an arrival is never dropped, and occupancy is the number of used slots |
| DramEffects.SchedulingStartsFirst | src/dram_controller.cc:123-272 | scheduling starts the waiting entry on an idle bank that goes first, row hits before age; entry and bank become ready after tCAS if its row was open and after tRP + tRCD + tCAS if not, the hit flag says which, that row is open afterwards, and everything else stays; without such an entry nothing changes |
| DramEffects.SwitchingCancels | src/dram_controller.cc:7-93 | the mode ends at the watermarks or when only the other queue has requests; then all banks become free, scheduled entries wait again from now on, and a bank whose work is cancelled after its row was opened keeps that row open |
| DramEffects.ProcessingSendsNext | src/dram_controller.cc:274-414 | the scheduled entry that is ready first is sent with its own data exactly when its bank is done and the bus is free; otherwise it waits for the bus, and no other entry changes |
| DramEffects.CycleStartsWithLatency | src/dram_controller.cc:69-121 | whatever a whole cycle schedules pays exactly the latency that the row open in its bank calls for, after the cancellations of the same cycle |
| DramEffects.ReadArrives | src/dram_controller.cc:416-490 | a read takes the data of the first pending write to its address, else joins the first pending read of it, else is stored in the first free slot |
| DramEffects.WriteArrives | src/dram_controller.cc:492-532 | a write joins the first pending write to its address, else is stored in the first free slot |
| DramRun.ReachableStatesAreCoupled | src/dram_controller.cc:7-414 | the coupling holds after every run of arrivals and cycles from the initial state, including cycle_available >= tCAS for every working bank, so the subtraction at a reset never underflows |
| DramRun.BusStep | src/dram_controller.cc:299-349 | a transfer starts only when the bus is free and holds it for the return time; a switch lengthens the wait by the turnaround time |
| DramRun.TransfersAreSpaced | src/dram_controller.cc:73-93 | two transfers are apart by the return time of each transfer from the first on, plus the turnaround time of every switch between them |
| DramRun.OperatePays | src/dram_controller.cc:299-353 | a cycle removes from the pending requests exactly the one it transfers, or none |
| DramDrain.OperateProgresses | src/dram_controller.cc:69-121 | without arrivals each cycle lowers the measure: requests owed, a switch due, requests to start, cycles to wait |
| DramDrain.Drains | src/dram_controller.cc:69-121 | from every state that satisfies the invariant both queues become empty |
| DramDrain.EveryRequestIsServedOnce | src/dram_controller.cc:299-353 | every pending request uses the data bus in exactly one cycle |
| DramSizes.StarvingStays | src/dram_controller.cc:69-98 | with fewer than two write-queue places a channel with only reads serves nothing in a cycle, and stays so |
| DramSizes.DrainsIff | src/dram_controller.cc:69-121 | every quiet run drains if and only if the write queue has at least two places |
| DramController.PacketQueue.UpdateScheduleCycle | src/dram_controller.cc:544-574 | the loop leaves the least waiting cycle and its first index in the cache fields |
| DramController.PacketQueue.UpdateProcessCycle | src/dram_controller.cc:576-598 | the same for scheduled entries |
| DramController.PacketQueue.CheckQueue | src/dram_controller.cc:600-626 | the first slot with the address, or -1 |
| DramController.MemoryController.ResetRemainRequests | src/dram_controller.cc:7-67 | the in-place loop equals the cancellation function |
| DramController.MemoryController.Choose | src/dram_controller.cc:129-215 | the two search loops equal the first-ready choice |
| DramController.MemoryController.StartRequest | src/dram_controller.cc:217-261 | the updates of bank, slot and counters equal the start function |
| DramController.MemoryController.ProcessRequest | src/dram_controller.cc:274-400 | the updates equal the process function and the transfer it reports |
| DramController.MemoryController.TurnAround | src/dram_controller.cc:73-93 | a mode switch in place equals cancelling, flipping the mode and paying for the bus |
| DramController.MemoryController.OperateCycle | src/dram_controller.cc:69-121 | one cycle in place equals the cycle function and keeps the invariant; DramEffects states what that cycle does to modes, banks, rows, latencies and data |
| DramController.MemoryController.AddRq | src/dram_controller.cc:416-490 | a read arrival in place equals the arrival function |
| DramController.MemoryController.AddWq | src/dram_controller.cc:492-532 | a write arrival in place equals the arrival function |
| WakeupModel.ProducerIsYoungest | src/ooo_cpu.cc:945-969 | the backward search finds the youngest uncompleted older writer of a register, or there is none |
| WakeupInvariant.ScheduleKeepsInv | src/ooo_cpu.cc:888-999 | linking an instruction to its producers keeps counters exact, links older-to-younger and rings duplicate-free |
| WakeupInvariant.ScheduledPairs | src/ooo_cpu.cc:973-999 | scheduling adds exactly one (producer, slot) pair per source with an uncompleted writer, and changes nobody else's pairs |
| WakeupInvariant.Issue0KeepsInv | src/ooo_cpu.cc:1010-1027 | the head of the first ring names a ready instruction, and starting it keeps the invariant |
| WakeupInvariant.Issue1KeepsInv | src/ooo_cpu.cc:1035-1052 | the same for the second ring |
| WakeupInvariant.StartMemoryKeepsInv | src/ooo_cpu.cc:1135-1149 | starting a memory instruction keeps the invariant |
| WakeupInvariant.CompletionRemovesPairs | src/ooo_cpu.cc:1768-1778 | completion takes from a waiter exactly the pairs that went through the completed producer |
| WakeupInvariant.WokenBecomesReady | src/ooo_cpu.cc:1776-1797 | an entry becomes ready through a completion exactly when its last dependence was on the completed one |
| WakeupInvariant.CompleteKeepsInv | src/ooo_cpu.cc:1720-1808 | completion and release keep the invariant |
| WakeupInvariant.DispatchKeepsInv | src/ooo_cpu.cc:402-434 | the tail entry is empty when there is room, and filling it keeps the invariant although indices are reused |
| WakeupInvariant.RetireKeepsInv | src/ooo_cpu.cc:2306-2317 | freeing the oldest completed entry keeps the invariant |
| WakeupInvariant.ReadyMeansNoProducer | src/ooo_cpu.cc:888-999 | reg_ready of a scheduled instruction holds exactly when no uncompleted producer names it |
| WakeupInvariant.StartsAfterItsWriters | src/ooo_cpu.cc:1001-1080 | a started instruction has no unfinished youngest older writer for any source |
| WakeupInvariant.RingsFit | src/ooo_cpu.cc:906-909 | the two rings together never hold more indices than the buffer has entries |
| WakeupRun.WakeupIsExact | src/ooo_cpu.cc:888-1808 | in every reachable state the counter is the number of (uncompleted producer, slot) pairs, readiness is its being zero, and nothing starts before the youngest writers of its sources complete |
| WakeupRun.EntersRingsOnce | src/ooo_cpu.cc:904-921 | between dispatch and retirement a non-memory instruction enters the rings exactly once, a memory instruction never |
| WakeupRun.PushFindsRoom | src/ooo_cpu.cc:1786-1800 | whatever a step appends to the rings fits, so the ring checks cannot fire |
| WakeupRun.ActionsKeepProgramOrder | src/ooo_cpu.cc:402-2317 | the buffer is a queue of instructions: dispatch appends, retirement takes the oldest, and no other step touches the order |
| WakeupRun.InstructionsStayInOrder | src/ooo_cpu.cc:402-2317 | in every run the retired instructions followed by those in the buffer are the dispatched ones, in order |
| WakeupRun.RetiringIsOldest | src/ooo_cpu.cc:2306-2317 | only a completed instruction retires, and it is the oldest |
| WakeupRun.ActionsMoveTheirInstruction | src/ooo_cpu.cc:888-1808 | an instruction is scheduled, started and completed by the step that names it and by no other |
| WakeupRun.DispatchedIsUnscheduled | src/ooo_cpu.cc:402-434 | a dispatched instruction sits in the tail entry, neither scheduled nor started |
| ReorderBuffer.LinkOne | src/ooo_cpu.cc:980-988 | one field-by-field link equals adding that producer to the set of links |
| ReorderBuffer.ProducersStep | src/ooo_cpu.cc:945-969 | trying the entry one age further back extends the links as the youngest-writer search prescribes |
| ReorderBuffer.OutOfOrderCore.AddToRob | src/ooo_cpu.cc:402-434 | the tail slot is empty, and the update equals dispatch |
| ReorderBuffer.OutOfOrderCore.RegRawDependency | src/ooo_cpu.cc:973-999 | one producer is linked for one slot exactly when it writes the source register |
| ReorderBuffer.OutOfOrderCore.RegDependency | src/ooo_cpu.cc:926-971 | the backward loops, with wrap-around, link every source to its youngest uncompleted older writer |
| ReorderBuffer.OutOfOrderCore.DoScheduling | src/ooo_cpu.cc:888-924 | scheduling in place equals the scheduling step; the ring slot written is free |
| ReorderBuffer.OutOfOrderCore.ExecuteInstruction | src/ooo_cpu.cc:1001-1058 | the issued instructions are the longest due prefix of the first ring, then of the second, within the width and the loop bound; exactly they start executing, exactly they leave the rings, and nothing else changes |
| ReorderBuffer.OutOfOrderCore.RegRawRelease | src/ooo_cpu.cc:1768-1808 | the nested loops release every waiter by its slots and append the woken ones in index order |
| ReorderBuffer.OutOfOrderCore.CompleteExecution | src/ooo_cpu.cc:1720-1766 | completion in place equals the completion step when it is due, else nothing changes |
| ReorderBuffer.OutOfOrderCore.RetireOldest | src/ooo_cpu.cc:2222-2317 | the oldest entry retires exactly when it has completed and its stores fit the write queue |
| LsqModel.FreeSlot | src/ooo_cpu.cc:1210-1222 | the first free slot of the load queue, or none |
| LsqModel.ForwardingSlot | src/ooo_cpu.cc:1263-1278 | the first store-queue slot with the producer's id and the address, or none |
| StoreOrder.RankIsUnique | src/ooo_cpu.cc:223-240 | the position of a store among all stores of the window is unique and follows program order |
| StoreOrder.TailIsFree | src/ooo_cpu.cc:1385-1389 | while the store queue has room its tail slot is empty, so the sanity check cannot fire |
| StoreOrder.NextStoreIsOldest | src/ooo_cpu.cc:1180-1187 | the store whose id heads the list is the oldest one that is not in the queue |
| StoreOrder.ListIsShort | inc/ooo_cpu.h:28 | the list of pending stores is at most two per instruction in the window |
| StoreOrderSteps.ReadKeepsInv | src/ooo_cpu.cc:219-240 | listing the stores of a new instruction keeps the store order |
| StoreOrderSteps.DispatchKeepsInv | src/ooo_cpu.cc:402-434 | moving an instruction into the reorder buffer keeps the store order |
| StoreOrderSteps.AddStoreKeepsInv | src/ooo_cpu.cc:1383-1435 | a store takes the empty tail slot given by its rank and leaves the list |
| StoreOrderSteps.RetirementFreesHead | src/ooo_cpu.cc:2282-2300 | the slots freed at retirement are the head of the store queue, one after the other |
| StoreOrderSteps.RetireKeepsInv | src/ooo_cpu.cc:2282-2317 | retirement keeps the store order |
| StoreOrderSteps.AddLoadKeepsOrder | src/ooo_cpu.cc:1207-1358 | adding a load does not touch the store order |
| StoreOrderSteps.ExecuteStoreKeepsOrder | src/ooo_cpu.cc:1617-1689 | executing a store does not touch the store order, whatever its loads are |
| LsqRun.StoresKeepProgramOrder | src/ooo_cpu.cc:1151-1435 | in every reachable state, for all programs: the tail is free when there is room, the list is bounded, stores enter in program order and leave from the head |
| LsqRun.ListNeverWraps | inc/ooo_cpu.h:56-62 | with the simulator's sizes at most 764 of the 1408 places of the list are used |
| Forwarding.ProducerIsStore | src/ooo_cpu.cc:1360-1381 | the producer found is a live older store to the address |
| ForwardingAdd.ForwardsIffDone | src/ooo_cpu.cc:1263-1310 | the store-queue search finds an executed slot exactly when the producer has executed its store |
| ForwardingAdd.AddLoadKeepsForwarding | src/ooo_cpu.cc:1207-1358 | a load that is added names the youngest older store to its address, or is served at once, and num_mem_ops stays exact |
| ForwardingAdd.RoomMeansFreeSlot | src/ooo_cpu.cc:1161-1222 | occupancy below the size means a free slot is found, so the search check cannot fire |
| ForwardingSteps.QuietKeepsInv | src/ooo_cpu.cc:1383-1435 | any step that only adds entries or unexecuted stores keeps the forwarding invariant |
| ForwardingSteps.ReadKeepsForwarding | src/ooo_cpu.cc:175-240 | reading an instruction with at most one store keeps it |
| ForwardingSteps.DispatchKeepsForwarding | src/ooo_cpu.cc:402-434 | dispatch keeps it |
| ForwardingSteps.AddStoreKeepsForwarding | src/ooo_cpu.cc:1383-1435 | a store that enters its queue keeps it |
| ForwardingSteps.CompleteKeepsForwarding | src/ooo_cpu.cc:1743-1752 | completing an instruction without open operations keeps it |
| ForwardingServe.FinishLoadKeepsForwarding | src/ooo_cpu.cc:2093-2130 | data from the cache release a load without producer and keep it |
| ForwardingServe.MatchIsWaiting | src/ooo_cpu.cc:1641-1660 | every dependent operand with the store's address is still in the load queue, in the slot it names, with this store as producer |
| ForwardingServe.ExecuteStoreServesItsLoads | src/ooo_cpu.cc:1617-1689 | executing a store never fails its producer check, and releases exactly the loads that name it, once each |
| ForwardingServe.ExecuteStoreMarks | src/ooo_cpu.cc:1617-1689 | executing a store marks its slot executed; besides freed load slots and operation counts nothing else changes |
| ForwardingRetire.RetireKeepsForwarding | src/ooo_cpu.cc:2222-2317 | retirement leaves no load waiting for the retired store and keeps the invariant |
| LsqAdding.AddingTriesAll | src/ooo_cpu.cc:1151-1205 | every missing load is added to a free slot, with its youngest older store as producer, or served at once, or the load queue is full; every missing store is added to its slot or blocked by a full queue or an older store; what was queued before stays, and other entries change only by gaining a dependent |
| LsqAdding.AddingKeepsForwarding | src/ooo_cpu.cc:1151-1205 | adding all operations of an entry keeps forwarding and operation counts exact |
| LsqRun.ForwardingIsExact | src/ooo_cpu.cc:1207-1689 | in every reachable state a queued load names exactly the youngest older store to its address, which has not executed and lists it; a store execution releases it iff it names that store |
| LsqRun.OperationCountIsExact | src/ooo_cpu.cc:1622-1630 | in every reachable state num_mem_ops is the number of loads and stores not done, hence never negative |
| LsqRun.ActionsKeepWindow | src/ooo_cpu.cc:175-2317 | reading appends to the window, retirement drops its oldest instruction, and no other step touches it |
| LsqRun.WindowFollowsProgram | src/ooo_cpu.cc:175-2317 | in every run the window holds the instructions read, in order, without those that have retired |
| TwoStores.EqualStoresFault | src/ooo_cpu.cc:1655-1660 | an instruction that stores twice to one address fails the producer check in some run |
| TwoStores.DistinctStoresFault | src/ooo_cpu.cc:1655-1660 | so does one that stores to two different addresses |
| TwoStores.CheckHoldsIff | src/ooo_cpu.cc:1617-1689 | the producer check holds in every run if and only if the destinations name at most one address |
| LoadStoreQueue.ProducerByAge | src/ooo_cpu.cc:1235-1260 | the first match of the backward scan over physical indices is the youngest older store |
| LoadStoreQueue.MemoryUnit.ReadInstruction | src/ooo_cpu.cc:219-240 | the list entry written is free, and the updates equal reading the instruction |
| LoadStoreQueue.MemoryUnit.DispatchInstruction | src/ooo_cpu.cc:402-434 | dispatch in place equals the dispatch step |
| LoadStoreQueue.MemoryUnit.CheckAndAddLsq | src/ooo_cpu.cc:1151-1205 | afterwards every missing operation is in its queue or its queue is full or it is not the store's turn; operations added before, and everything else, stay; the result is 0 exactly when all are added, and forwarding stays exact |
| LoadStoreQueue.MemoryUnit.CountOutside | src/ooo_cpu.cc:1195-1205 | the count of missing operations is zero exactly when all operations are added |
| LoadStoreQueue.MemoryUnit.MemRawDependency | src/ooo_cpu.cc:1360-1381 | a producer is linked exactly when it stores to the load's address |
| LoadStoreQueue.MemoryUnit.LinkProducer | src/ooo_cpu.cc:1235-1260 | the backward loops, with wrap-around, stop at the youngest older store |
| LoadStoreQueue.MemoryUnit.AddLoadQueue | src/ooo_cpu.cc:1207-1340 | adding a load in place equals the add step |
| LoadStoreQueue.MemoryUnit.AddStoreQueue | src/ooo_cpu.cc:1383-1423 | adding a store in place equals the add step; the tail slot is empty |
| LoadStoreQueue.MemoryUnit.ReleaseLoadQueue | src/ooo_cpu.cc:2210-2220 | a load slot is freed and counted as done |
| LoadStoreQueue.MemoryUnit.ExecuteStoreQueue | src/ooo_cpu.cc:1617-1689 | the nested loops equal the execution step, with the producer check proved at each release |
| LoadStoreQueue.MemoryUnit.FinishLoad | src/ooo_cpu.cc:2093-2130 | data from the cache free the load's slot and keep the forwarding invariant |
| LoadStoreQueue.MemoryUnit.CompleteInstruction | src/ooo_cpu.cc:1743-1752 | an instruction without open operations is marked complete |
| LoadStoreQueue.MemoryUnit.RetireOldest | src/ooo_cpu.cc:2222-2317 | retirement in place equals the retirement step |
| Rings.SentinelRing.Add | src/ooo_cpu.cc:911-920 | a value enters the ring at a free place, and the queue it stands for grows at the end |
| Rings.SentinelRing.First | src/ooo_cpu.cc:1011-1012 | the head place holds the oldest value, or the sentinel exactly when the ring is empty |
| CacheProtocol.QueueIsShort | inc/cache.h:51-66 | with one request per miss in flight the read queue holds at most as many requests as the first level has misses |
| CacheRun.MissIsAccepted | src/cache.cc:331-336 | recording a miss and then requesting it is always accepted, also when a pending write answers it at once, and keeps requests conserved |
| CacheRun.MissOutcome | src/cache.cc:1182-1336 | a miss is answered at once by a pending write, else shares the request of its address, else appends its own; nothing else changes |
| CacheRun.FillLeavesRoom | src/cache.cc:30-226 | after a fill the miss is gone and its dirty victim waits in the write queue, behind the older writes, unless it was there already |
| CacheRun.EveryMissCanBeAnswered | src/cache.cc:6-795 | from every reachable state every miss in flight is answered by some steps of the second level alone |
| CacheRun.RequestJoinsMiss | src/cache.cc:658-771 | a request that misses waits in the register together with everyone who waited there; the register fills the first level, is no prefetch, and keeps data that are back already |
| CacheRun.SecondFillAnswers | src/cache.cc:162-185 | a second-level fill returns data to exactly the flagged caches and frees exactly its register |
| CacheRun.PrefetchIsInFlight | src/cache.cc:905-1000 | a prefetch is a miss of its own afterwards, or only lowers the level of the miss that is there |
| CacheRun.FirstFillKeepsInv | src/cache.cc:6-226 | filling returned data, with or without a write-back of the victim, keeps requests conserved |
| CacheRun.ReadHitKeepsInv | src/cache.cc:594-612 | a second-level hit answers exactly the flagged caches, whose misses are there |
| CacheRun.ReadMissKeepsInv | src/cache.cc:658-771 | a second-level miss carries the flags into the register it joins or takes, also when it replaces a prefetch |
| CacheRun.PrefetchKeepsInv | src/cache.cc:946-1000 | a second-level prefetch answers nobody and keeps requests conserved |
| CacheRun.LastLevelKeepsInv | src/cache.cc:1586-1610 | data of the last level may return more than once |
| CacheRun.SecondFillKeepsInv | src/cache.cc:162-185 | a second-level fill answers exactly the flagged caches, whose misses are there |
| CacheRun.RequestsAreConserved | src/cache.cc:1182-1336 | in every reachable state each miss in flight has exactly one request on its way, at most 24 requests are queued, and every enabled step is accepted |
| CacheRun.NeverRefusesIff | src/cache.cc:1289-1294 | no request is ever refused if and only if the read queue has a place for every first-level miss |
| CacheQueues.PacketFifo.CheckQueue | src/block.cc:3-74 | the oldest packet with the address, or -1, also when the ring is full with head equal to tail |
| CacheQueues.PacketFifo.Scan | src/block.cc:8-27 | the first match in a stretch of the ring |
| CacheQueues.PacketFifo.Add | src/block.cc:76-95 | the place written is free, and the packet becomes the youngest |
| CacheQueues.PacketFifo.Remove | src/block.cc:97-117 | the oldest packet leaves |
| CacheQueues.MissRegisters.CheckMshr | src/cache.cc:1654-1696 | the register with the address, or -1 exactly when the address is not missed |
| CacheQueues.MissRegisters.FindFree | src/cache.cc:1705-1707 | below full occupancy a free register is found |
| CacheQueues.MissRegisters.AddMshr | src/cache.cc:1698-1720 | a new address takes a free register; addresses stay distinct and occupancy exact |
| CacheQueues.MissRegisters.UpdateFillCycle | src/cache.cc:1623-1652 | the next register to fill is the first returned one of least cycle |
| CacheQueues.MissRegisters.NextReady | src/cache.cc:8-20 | a register is filled exactly when some returned one is due |
| CacheLevels.TwoLevels.ReturnData | src/cache.cc:1586-1621 | the register is found, and its data are marked returned |
| CacheLevels.TwoLevels.AddRq | src/cache.cc:1182-1336 | answered from the write queue, shared, queued or refused, exactly as the request function says |
| CacheLevels.TwoLevels.AddWq | src/cache.cc:1338-1387 | a write is merged or queued |
| CacheLevels.TwoLevels.HandleMiss | src/cache.cc:303-396 | the miss path of reads and stores: joined, started and requested, or put off when the registers are full |
| CacheLevels.TwoLevels.FillFirstLevel | src/cache.cc:6-226 | due data fill unless a dirty victim finds the lower write queue full |
| CacheLevels.TwoLevels.HandleReadHit | src/cache.cc:594-628 | a second-level hit in place equals the hit step |
| CacheLevels.TwoLevels.HandleReadMiss | src/cache.cc:630-795 | a second-level miss in place equals the miss step, or waits for a register |
| CacheLevels.TwoLevels.HandlePrefetchMiss | src/cache.cc:905-1000 | a second-level prefetch miss in place |
| CacheLevels.TwoLevels.LastLevelData | src/cache.cc:1586-1621 | data of the last level mark the register returned, however often they come |
| CacheLevels.TwoLevels.HandleWrite | src/cache.cc:228-300 | the oldest write leaves the queue and nothing else changes here |
| CacheLevels.TwoLevels.FillSecondLevel | src/cache.cc:6-226 | a second-level fill in place equals the fill step |
| CacheArray.UsedKeepsRow | replacement/base_replacement.cc:59-68 | using a way changes ranks only and keeps the set in order |
| CacheArray.FillKeepsRow | src/cache.cc:1071-1118 | an absent block replaces one way: it is there, the old one is not, all others stay, tags stay distinct |
| CacheArray.InvalidKeepsRow | src/cache.cc:1151-1180 | invalidation removes exactly one block |
| CacheArray.VictimIsUnique | replacement/base_replacement.cc:19-57 | a set has only one victim |
| CacheArray.CacheUnit.CheckHit | src/cache.cc:1120-1149 | the way that holds the block, or -1 exactly when it is not cached |
| CacheArray.CacheUnit.FindVictim | replacement/base_replacement.cc:19-57 | the first invalid way, else the way of the last rank, which always exists |
| CacheArray.CacheUnit.HandleAccess | src/cache.cc:524-824 | an access hits exactly when the block is cached; a hit makes its way the most recent, the ways before it age by one, and a store marks it dirty; a miss joins or takes a register, or waits, and changes no contents |
| CacheArray.CacheUnit.DataReturn | src/cache.cc:1586-1621 | the register of the block is found and marked returned |
| CacheArray.CacheUnit.HandleFill | src/cache.cc:6-226 | something is filled exactly when a returned miss is due and its victim is clean or the write queue has room; the victim is the first invalid way, else the least recently used one; the new row holds the block there with rank 0, the other ways keep tag and dirty bit and age as LRU prescribes, and what is evicted is what the victim held; no block is ever both cached and missed |
| CacheArray.CacheUnit.Invalidate | src/cache.cc:1151-1180 | exactly the invalidated block leaves |
| Recency.PromoteKeepsPermutation | replacement/base_replacement.cc:59-68 | LRU ranks stay a permutation of 0..N-1 |
| Recency.RankIsHeld | replacement/base_replacement.cc:38-54 | every rank is held by some way, so the victim search never fails |
| Recency.RanksFollowUses | replacement/base_replacement.cc:59-68 | after any history of uses the ranks order the ways by their last use |
| Recency.VictimIsLeastRecent | replacement/base_replacement.cc:38-54 | the way of the last rank was used before every other way |
| Replacement.LruVictim | replacement/base_replacement.cc:19-57 | the first invalid way, else the least recently used way |
| Replacement.LruUpdate | replacement/base_replacement.cc:59-68 | the in-place loop equals promotion to the most recent rank |
| Replacement.FindVictim | replacement/ship.llc_repl:204-221 | aging ends, values stay at most 3, and the victim is the first way of the largest value before |
| Replacement.Sampler.TryHit | replacement/ship.llc_repl:117-140 | the first valid sample with the tag is marked used and its counter lowered, not below 0 |
| Replacement.Sampler.Replace | replacement/ship.llc_repl:143-190 | an unused sample, else the least recently used one, takes the tag; an unused victim raises its counter, not above 7 |
| Replacement.Sampler.UpdateSampler | replacement/ship.llc_repl:110-201 | a sampled tag is marked used and lowers its instruction's counter; a new one takes an unused sample, else the least recent one, whose counter rises if it was never used; the sample has the most recent rank, ranks stay a permutation and valid tags distinct |
| KpcpModel.UpdateKeepsRow | inc/kpcp.h:317-393 | in a pattern set the delta counters sum to at most the signature counter, which stays below 16, through counting, halving and replacement; a victim is always found |
| KpcpModel.UpdateTeaches | inc/kpcp.h:317-393 | the signature counts once more, at 16 all counts are halved; a known delta counts once more, an unknown one takes an unused way, else one of least count, with count 0; other ways keep delta and count |
| KpcpModel.SignatureMixes | inc/kpcp.h:117-136 | a signature is the old one shifted by three bits mixed with the code of the step, or the code alone where they cancel; it is never 0, and a zero step keeps the old one |
| KpcpModel.SignatureRemembers | inc/kpcp.h:117-136 | two signatures that one step leads to the same signature agree in their low nine bits, unless only the code is left |
| KpcpModel.CodeIsNonzero | inc/kpcp.h:124-127 | the code of a nonzero delta is nonzero |
| KpcpModel.PathConfidenceFalls | prefetcher/kpcp.l2c_pref:243 | every extension of a path is strictly less confident than the path |
| KpcpModel.ConfidenceIsShare | prefetcher/kpcp.l2c_pref:156-158 | a confidence is the percentage of the signature's uses that the delta followed, rounded down |
| KpcpModel.PathConfidenceIsShare | prefetcher/kpcp.l2c_pref:242-243 | a path confidence is that share of the path's confidence, scaled by the confidence limit, rounded down twice |
| KpcpModel.WalkFollowsStrongest | prefetcher/kpcp.l2c_pref:230-309 | an iteration follows the first most used way of enough path confidence, adds up the deltas, and lists a prefetch unless the distance is zero or leaves the page; without such a way, or with a full buffer, it ends the walk |
| KpcpModel.StartIsStrongest | prefetcher/kpcp.l2c_pref:188-222 | the walk starts along the first most used confident way, or not at all |
| KpcpModel.CandidatesAreAll | prefetcher/kpcp.l2c_pref:154-204 | the candidates are exactly the ways of a quarter or more whose block lies in the page, in way order |
| KpcpModel.WalkFalls | prefetcher/kpcp.l2c_pref:230-309 | each iteration of the lookahead loop lowers the path confidence, so the loop ends |
| KpcpModel.WalkIsGood | prefetcher/kpcp.l2c_pref:268-288 | an iteration adds at most one prefetch, in the page, confident, and within the buffer |
| KpcpModel.FallingMeans | prefetcher/kpcp.l2c_pref:228-310 | the prefetches of one walk have strictly falling confidence, consecutive depths, and fit the buffer |
| KpcpModel.CandidatesAreGood | prefetcher/kpcp.l2c_pref:154-204 | every candidate is confident, in the page and has a nonzero delta |
| KpcpModel.PfCheckIsGood | prefetcher/kpcp.l2c_pref:144-314 | one check fills at most 32 places, each with a nonzero in-page delta |
| KpcpModel.GoodPrefetchStaysInPage | prefetcher/kpcp.l2c_pref:678-680 | a requested address lies in the page of its trigger and is another block |
| Kpcp.AccessKeepsTable | inc/kpcp.h:139-292 | the signature table keeps its recency order and tracks a page at most once; what it teaches is a nonzero in-page delta |
| Kpcp.AccessCases | inc/kpcp.h:149-231 | a page that is not tracked starts with signature 0; a first hit takes the code of its step; a later one teaches the step from the last block with its old signature, unless the step is 0 |
| Kpcp.EntriesFollowBlocks | inc/kpcp.h:139-292 | in every run an entry is determined by the accesses to its page since the page was given the way: its signature mixes exactly the steps between them and its last block is the last of them |
| Kpcp.VisitTeachesStep | inc/kpcp.h:151-180 | in every run an access teaches the step from the block before it, under the signature of the earlier steps, or nothing where there is none |
| Kpcp.LookaheadStep | prefetcher/kpcp.l2c_pref:230-309 | the walk is one iteration followed by the walk from where it leads |
| Kpcp.Prefetcher.PtUpdate | inc/kpcp.h:317-393 | the loops over a pattern set equal the update function and keep all sets in order |
| Kpcp.Prefetcher.SearchDelta | inc/kpcp.h:336-348 | the first way that holds the delta, or -1 |
| Kpcp.Prefetcher.WeakestWay | inc/kpcp.h:372-382 | the first way of least counter, which exists |
| Kpcp.Prefetcher.StCheck | inc/kpcp.h:294-315 | the first way that tracks the page, or -1 |
| Kpcp.Prefetcher.FindWay | inc/kpcp.h:149-236 | the tracking way, else a free one, else the least recently used one |
| Kpcp.Prefetcher.StUpdate | inc/kpcp.h:139-292 | the page's entry takes the block, and its signature the step from the last block; exactly when a later step is not 0 the set of the old signature learns block minus last block; the entry becomes the most recent, the others age, and both tables stay in order |
| Kpcp.Prefetcher.Train | inc/kpcp.h:149-192 | a hit in place: the entry after the step, and what the pattern table learns from it; no other entry changes |
| Kpcp.Prefetcher.Collect | prefetcher/kpcp.l2c_pref:150-222 | the buffer holds exactly the confident in-page candidates, and the path starts at the most used one |
| Kpcp.Prefetcher.BestStep | prefetcher/kpcp.l2c_pref:240-265 | the most used way whose path confidence suffices |
| Kpcp.Prefetcher.WalkPath | prefetcher/kpcp.l2c_pref:228-310 | the do-while loop terminates and appends exactly the lookahead |
| Kpcp.Prefetcher.Request | prefetcher/kpcp.l2c_pref:659-680 | the requests are the buffered deltas applied to the block, all in the page and none to the block itself |
| Kpcp.Prefetcher.Operate | prefetcher/kpcp.l2c_pref:598-680 | an access trains both tables as above, its page is tracked, the buffer is what the check prescribes for the signature after it, and no sanity check can fire |
| FastSet.AscendingIsUnique | inc/set.h:220-247 | an ascending enumeration is determined by its set |
| FastSet.AscendingIsShort | inc/set.h:220-247 | elements below n are at most n |
| FastSet.Fastset.Insert | inc/set.h:142-166 | insertion adds one element, also across the switch from sorted array to bitset |
| FastSet.Fastset.InsertSmall | inc/set.h:57-73 | the sorted array stays strictly ascending and gains the element |
| FastSet.Fastset.SearchSmall | inc/set.h:88-117 | linear or binary search is membership |
| FastSet.Fastset.SmallToBit | inc/set.h:119-129 | the bitset has the elements of the array |
| FastSet.Fastset.Search | inc/set.h:169-187 | search is membership in either form |
| FastSet.Fastset.Join | inc/set.h:189-217 | join is union, with elements of a bitset taken up to the word that covers n |
| FastSet.Fastset.Expand | inc/set.h:220-247 | the strictly ascending enumeration of exactly the elements |
| HashedPerceptron.FoldWord | branch/hashed_perceptron.bpred:141-158 | adding the bits of one word extends the fold by the outcomes of those ages |
| HashedPerceptron.ShiftRecords | branch/hashed_perceptron.bpred:184-195 | shifting an outcome through all words keeps bit b of word k the outcome 12k+b branches ago |
| HashedPerceptron.NumberIsInjective | branch/hashed_perceptron.bpred:160-166 | different folds select different weights |
| HashedPerceptron.ThresholdStaysInRange | branch/hashed_perceptron.bpred:220-240 | the threshold never becomes negative and its counter stays within 17 |
| HashedPerceptron.ThresholdCounts | branch/hashed_perceptron.bpred:220-240 | 18 times the threshold plus its counter grows by one at a misprediction, falls by one at a weak hit and stays otherwise; a step of the threshold clears the counter |
| HashedPerceptron.SumMoves | branch/hashed_perceptron.bpred:203-218 | weights trained by an outcome move their sum towards it, unless all of them are saturated |
| HashedPerceptron.Predictor.TrainWeights | branch/hashed_perceptron.bpred:203-218 | the selected weights rise by one when the branch was taken and fall by one when not, saturating, so the sum they give moves with the outcome; the other weights stay |
| HashedPerceptron.Predictor.HashHistory | branch/hashed_perceptron.bpred:141-158 | the loop over words computes the fold of the n newest outcomes |
| HashedPerceptron.Predictor.PredictBranch | branch/hashed_perceptron.bpred:122-174 | each index is the fold of its history length with the address; the sum of the selected weights decides and stays within 2048 |
| HashedPerceptron.Predictor.LastBranchResult | branch/hashed_perceptron.bpred:176-242 | the outcome joins the history; exactly the selected weights are trained, saturating, on a misprediction or weak hit; threshold and counter follow their rule |
| CallStack.TracksVisibleFrames | codeinfo/call_stack.cc:85-97 | for every balanced trace the tracked stack is exactly the frames that differ from a user caller |
| CallStack.StepTracks | codeinfo/call_stack.cc:85-101 | one call, return or plain instruction keeps that agreement |
| CallStack.UserFramesCollapse | codeinfo/call_stack.cc:85-97 | when all frames are user functions the tracked stack is the collapsed stack above the root |
| CallStack.LibraryIsTransparent | codeinfo/call_stack.cc:73-84 | a library call leaves the caller's tracked stack as it was |
| CallStack.CallTracker.NewestFrames | codeinfo/call_stack.cc:18-22 | the feature is the 10 newest functions, newest first, padded with null |
| CallStack.CallTracker.Update | codeinfo/call_stack.cc:68-119 | the update in place equals observing the instruction, and reports the feature |
| Sisb.SuccessorIsLatest | prefetcher/pc_mod_sisb.h:74-101 | the successor function returns what followed the latest followed occurrence, or there is none |
| Sisb.TrainingAgrees | prefetcher/pc_mod_sisb.h:74-103 | training keeps both maps in agreement with the history, and divergence grows exactly when a successor changes |
| Sisb.Prefetcher.Train | prefetcher/pc_mod_sisb.h:74-103 | the map updates keep that agreement |
| Sisb.Prefetcher.Predict | prefetcher/pc_mod_sisb.h:105-122 | the loop pushes exactly the successor chain, cut at the degree or the first missing or zero link |
| Sisb.Prefetcher.Operate | prefetcher/pc_mod_sisb.h:55-123 | a load extends the history and yields its chain; other accesses do nothing |
| PageTables.PagesAreSeparate | src/main.cc:343-477 | different virtual pages never share a physical page |
| PageTables.RunKeepsInverse | src/main.cc:343-477 | after every run of translations the tables are inverse to each other and within the memory |
| PageTables.TranslationIsStable | src/main.cc:343-477 | a translation holds until its page is the victim of a swap |
| PageTables.Translator.LeastUnused | src/main.cc:349-361 | the first page in order that was not used recently |
| PageTables.Translator.FreePage | src/main.cc:405-440 | the page after the previous one while a stretch lasts and that page is free, else the first free draw, which starts a new stretch |
| PageTables.Translator.Translate | src/main.cc:343-477 | a known page keeps its translation; a new one gets the next free page, or takes the page of the least unused victim once memory is full |

## Left out

- Several memory channels and several cores: the models have one of each. Cloudsuite mode, which has four destinations per instruction, is left out too.
- Cycle counts: they are unbounded natural numbers, with the sentinel of the cached minima as a separate value, so a wrap-around of the 64-bit clock is not modelled.
- Core timing: which instruction is due, which access is translated and when data return are open, so `ReorderBuffer` takes the due instructions as a parameter and the load and store queues have no ready-to-load and ready-to-store rings.
- One core in one model: register wakeup and the memory queues are separate machines on the same reorder buffer; each leaves the other's decisions open.
- Fetch and decode buffers: one queue in front of the reorder buffer, with their capacities added.
- Reads of the trace, branch handling in the front end, dead code after the early return in complete_instr_fetch, statistics, printing, and option parsing.
- LoadStoreQueue.MemoryUnit.ReadInstruction: asks for an instruction id below the list's free marker, so it does not cover 2^64 - 1 instructions.
- LoadStoreQueue.MemoryUnit.ExecuteStoreQueue: is proved for programs whose instructions store at most once; TwoStores shows the rest.
- WakeupInvariant.StartMemoryKeepsInv: does not say when all operations of a memory instruction are queued; that is part of the memory queues.
- CacheRun.RequestsAreConserved: the first-level prefetchers are off, because a demand that replaces a prefetch in the second level loses flags otherwise (src/cache.cc:763-771). The second-level array is an oracle, the last level may answer any miss in flight at any time.
- CacheLevels.TwoLevels.HandleMiss: merged consumers (instruction, load and store indices that wait for a packet) are not part of the packets.
- CacheArray.CacheUnit.HandleAccess: models the first-level caches and the TLBs; a write-back miss of the second and last level fills without consulting the misses (src/cache.cc:397-488) and is not part of it.
- Kpcp.Prefetcher.Operate: leaves out the bitmaps that filter prefetched and used blocks, the global history register, and the accounting behind the confidence limit, which is a parameter of at most 99 as in the source.
- FastSet.Fastset.Join: the other set is a different object, and n is below 512, the size of the bitset.
- HashedPerceptron.Predictor.PredictBranch: words are sequences of twelve bits and the address is its low twelve bits.
- CallStack.TracksVisibleFrames: an instruction is an optional function with call and return flags, never both; jumps between functions without a call are not part of a balanced trace.
- Sisb.Prefetcher.Operate: per-instruction counters, outstanding prefetches and the context of the code informer are left out.
- PageTables.Translator.Translate: random pages are a given list of draws that contains a free page, and invalidation of cached blocks is CacheArray's Invalidate.
- Replacement.Sampler.UpdateSampler: which sets are sampled, and the random choice of these at start, are left out; DRRIP and the other predictors and prefetchers would add only easy members.
- The instrumentation, compiler plug-in and tracing code use foreign libraries and are not part of this model.
