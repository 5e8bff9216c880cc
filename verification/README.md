# McSimA+ core components: models and proofs

This project models the components of the McSimA+ manycore simulator that carry real state machines, and
proves what they keep over whole runs. Each component comes in two layers. A pure module says what one step
does and proves properties of all runs. A class with the fields of the original component, updated in place by
the loops and branches of the original code, is proved to make exactly those steps.

| component | state machine and its properties | class over the program's own representation |
|---|---|---|
| DRAM controller | `Dram`, `DramTiming`, `DramBus`, `DramExact`, `DramBubble`, `DramBatch`, `DramChoice`, `DramAnswers`, `DramClosedPage`, `DramOpenPage`, `DramDrain` | `MemoryController` |
| address mapping | `AddressMap` | - |
| out-of-order core | `O3`, `O3Safety`, `O3Runs`, `O3Program`, `O3Reasons`, `O3Calls`, `O3Times`, `O3ZeroWord` | `OutOfOrderCore` |
| thread library | `Pthread`, `PthreadSafety`, `PthreadRuns`, `PthreadHandOver`, `PthreadOutcomes` | `PthreadLibrary` |
| directory | `DirectoryEntry`, `DirectorySharers`, `Inbox` | `DirectoryController` |
| second-level cache | `CacheSet`, `CacheAnswers`, `CacheRequests`, `CacheLines`, `CacheOrders`, `Inbox` | `CacheL2`, `CacheQueues` |
| crossbar | `Crossbar` | `CrossbarArbiter` |
| event queue, TLB | `EventQueue`, `EventDelivery`, `Tlb` | in the same modules |

`Arithmetic` holds the few facts about multiplication and remainders that are used throughout.

How the parts are modelled:

- Times are integers; a component's process interval is positive. Calls of a component come at the times it asked
  for (`EventQueue` proves that the global queue delivers them, `EventDelivery` that the messages of the directory and
  of the second-level cache then get exactly the calls they ask for).
- `MemoryController` forgets expired data-bus slots when the program does, only when a row hit is examined; the
  state machine forgets them at every call. `LazyPruning` and `ScheduleMatches` show that nobody can tell.
  `BankStatus` and address decoding meet in `Req`, which carries the decoded bank and row.
- `O3` keeps all micro-operations ever dispatched in a log, and a dependency is a position in it. The class keeps
  the circular buffer, where a dependency is a slot. The fields `instr`, `src` and `start` are history.
  The outcome of the branch predictor is a field of the queued instruction.
- In `Pthread` a step has three outcomes: a next state, the end of the program because every thread waits, and
  the end of the program by a failed check. `place` and `exited` are history. The running thread is chosen
  freely among the active ones.
- In `DirectoryEntry` and `CacheSet` a failed check is an outcome too, with the checks on the number of sharers told apart
  from those on the kind of message. The former never fail in `CacheSet`; in `DirectoryEntry`
  exactly the stale answers named in `StepOk` can make them fail.

Where code and documentation disagree the models follow the code:

- Locking a mutex again by its owner queues the thread on its own mutex even for the error-checking kind, where
  section 2.9 (Threads) and `pthread_mutex_lock` of IEEE Std 1003.1-2017 ask for an error return.
- A fast mutex may be unlocked by any thread.
- The header comment of the address generator speaks of zero ranks; the code is an encoder for one rank.

Properties that the code keeps only under a condition are stated with the exact condition:

- the idle time between bursts of opposite direction (`BubbleExact`, `BubbleOneRankExact`);
- the order of accesses to one word of memory (`WordsOrderedExactly`; word 0 is not ordered);
- the order of packets of one flow (`OvertakingExact`) and how long a packet waits (`WaitingExact`);
- the consistency of a directory entry (`StepOk`, `ConsistentExactly`; `StaleAnswerBreaks` is a run that ends in a
  failed check), who is listed in it (`ReceiverIsListed`, `ServesListedExactly`) and whose requests it answers
  (`AnsweredToAskers`);
- what the first-level caches are told (`StepAgrees`) and which questions of the directory are answered
  (`AsksConserved`, `HeldUntilAnswered`);
- the maps of the TLB when two accesses have the same time (`Tlb.Buffer.Access`);
- the calls that the global queue keeps (`CallKeeps`; `SelfCallLost` is the exception).

## Model

| member | source | states |
|---|---|---|
| `Dram.SelectedUnique` | McSim/PTSMemoryController.cc:274-458 | the scheduling rule (a marked issuable request least by row hit, outstanding requests of its thread and age; else the oldest issuable one) chooses at most one request |
| `Dram.SelectedExists` | McSim/PTSMemoryController.cc:274-458 | whenever any request of the window is issuable the rule chooses one |
| `Dram.StepShape` | McSim/PTSMemoryController.cc:258-598 | no call leaves the existing banks, ranks and threads |
| `DramTiming.StepTiming` | McSim/PTSMemoryController.cc:293-321 | one call keeps the timing invariant between bank state and command history |
| `DramTiming.BankTimingSafe` | McSim/PTSMemoryController.cc:293-573 | over every run and all policies: each RD/WR targets the row of the latest ACT of its bank, tRCD or more after it; ACTs of a bank are tRAS+2tRP apart, of a rank tRR, columns of a bank tBBL |
| `DramBus.TurnAround` | McSim/PTSMemoryController.cc:357-435 | a look-back that finds no opposite slot guarantees the bubble although old slots have been forgotten |
| `DramBus.StepBus` | McSim/PTSMemoryController.cc:357-536 | one call keeps the relation between remembered slots and earlier bursts |
| `DramBus.DataBusSafe` | McSim/PTSMemoryController.cc:357-596 | over every run: bursts on shared wires do not overlap, the write-read and read-write bubbles hold while not longer than tCL, tWTR and tRRBUB hold; in full duplex per direction |
| `DramBus.BurstsDisjoint` | McSim/PTSMemoryController.cc:504-536 | no tick of the data bus belongs to two bursts of one direction (half duplex: to two bursts at all) |
| `DramExact.ColumnsWaitExactly` | McSim/PTSMemoryController.cc:357-435 | over every run a request whose bank is ready with its row open may get its column command if and only if every earlier column command allows it: no overlapping burst, no opposite slot in the bubble that is not over yet, and the waits of its rank and between ranks |
| `DramExact.RowsWaitExactly` | McSim/PTSMemoryController.cc:293-321 | over every run a rank may be activated exactly tRR after its latest activate |
| `DramExact.BanksWaitExactly` | McSim/PTSMemoryController.cc:293-321 | over every run a bank is ready exactly from the time on that its latest command and its latest activate ask for, and open exactly if that command left it open |
| `DramBubble.BubbleExact` | McSim/PTSMemoryController.cc:358-435 | half duplex, two ranks, a window of two or more: the write-read bubble (or the read-write bubble) separates the bursts of every run if and only if it is not longer than tCL |
| `DramBubble.BubbleOneRankExact` | McSim/PTSMemoryController.cc:358-435 | with one rank the read-write bubble holds in every run; the write-read bubble if and only if tWRBUB <= tCL + tWTR, or, with a single bank, tBL + tWRBUB <= tBBL |
| `DramBubble.TurnsEarly` | McSim/PTSMemoryController.cc:258-598 | for any two banks and any policy a run exists in which a burst of the other direction follows exactly tCL after a burst ends (tCL + tWTR for a read in the same rank) |
| `DramBatch.IssueBatch` | McSim/PTSMemoryController.cc:496-584 | issuing a command keeps counters and marker: counters equal the requests queued per thread, the marker is -1 exactly on an empty queue |
| `DramBatch.RunBatch` | McSim/PTSMemoryController.cc:496-614 | the batch invariant holds after every run |
| `DramBatch.BatchIsClosed` | McSim/PTSMemoryController.cc:575-614 | a call leaves the batch alone, serves one of its members and removes exactly that one, or serves its last member; arrivals never join |
| `DramBatch.RequestsConserved` | McSim/PTSMemoryController.cc:584-614 | over every run the requests served and still queued are, as a multiset, the ones that arrived |
| `DramChoice.ServesBest` | McSim/PTSMemoryController.cc:268-458 | in every run each call serves, of the requests of the batch that can be issued, the one with its row open, then of the thread with the fewest queued requests, then the oldest; without one the oldest request that can be issued; and nothing only when nothing can be |
| `DramChoice.QueueInOrder` | McSim/PTSMemoryController.cc:494-614 | requests queue in order of arrival; a column command takes exactly its request, and closes its row exactly if the policy is not the open one and no younger request of the window wants it |
| `DramAnswers.AnsweredInOrder` | McSim/PTSMemoryController.cc:504-545 | over every run the messages sent are, in order, exactly the answers to the served requests other than evictions: mcToDir after the command, with the request unchanged except that a read-and-write is answered as a read |
| `DramAnswers.EveryRequestAnswered` | McSim/PTSMemoryController.cc:504-614 | over every run each request that became due, evictions apart, is still queued or has been answered exactly once |
| `DramAnswers.OneCommand` | McSim/PTSMemoryController.cc:258-598 | a call issues at most one command, at its time, for the bank of its request |
| `DramClosedPage.OwedBound` | McSim/PTSMemoryController.cc:473-482 | 2 x queued requests minus open banks never becomes negative, because every open bank is wanted by a request of the window |
| `DramClosedPage.CommandDecreases` | McSim/PTSMemoryController.cc:460-586 | under the closed and predictive policies every command lowers that measure by at least one |
| `DramOpenPage.ActOwed` | McSim/PTSMemoryController.cc:268-493 | under the open policy an activate opens its bank for a request that decides, because the rule prefers the batch: one bank less is useless |
| `DramOpenPage.PreOwed` | McSim/PTSMemoryController.cc:325-346 | a precharge closes only a bank that is open for no request that decides |
| `DramOpenPage.ColumnUseful` | McSim/PTSMemoryController.cc:494-614 | serving a request of another bank keeps a bank useful, also when it ends the batch and a new one is marked |
| `DramOpenPage.CommandDecreases` | McSim/PTSMemoryController.cc:460-586 | under the open policy every selected command lowers 3 x queued requests + useless banks + banks open for nobody |
| `DramDrain.QuietIssuable` | McSim/PTSMemoryController.cc:293-435 | once all timing waits have expired some request is issuable, under every policy |
| `DramDrain.EveryPolicyDrains` | McSim/PTSMemoryController.cc:258-598 | from every reachable state, under every policy, the queue is empty after an explicit number of calls without arrivals: 2q(Wait+1) with closed pages, (3q + 2 banks)(Wait+1) with open pages |
| `MemoryController.LazyPruning` | McSim/PTSMemoryController.cc:358-378 | forgetting expired slots only when a row hit is examined cannot be observed |
| `MemoryController.ScheduleMatches` | McSim/PTSMemoryController.cc:258-598 | the same decision and the same commands whether or not expired slots are still stored |
| `MemoryController.Controller.constructor` | McSim/PTSMemoryController.cc:41-124 | a new controller is an initial state of the state machine, so everything proved over runs holds of it |
| `MemoryController.Controller.AddReqEvent` | McSim/PTSMemoryController.cc:144-170 | a request is put behind those due at the next multiple of the interval, for which a call is asked |
| `MemoryController.Controller.PreProcessing` | McSim/PTSMemoryController.cc:601-614 | due requests are queued in order, counted per thread, and a new batch is marked only when there was none |
| `MemoryController.FindBubble` | McSim/PTSMemoryController.cc:378-388 | the walk over the reserved slots from the lower bound on finds a slot of the opposite kind exactly if there is one in the bubble |
| `MemoryController.Controller.CheckBus` | McSim/PTSMemoryController.cc:357-435 | decides exactly whether data bus and rank constraints allow the column command |
| `MemoryController.Controller.NeedsPrecharge` | McSim/PTSMemoryController.cc:325-346 | decides exactly whether no respected request wants the open row |
| `MemoryController.Controller.Examine` | McSim/PTSMemoryController.cc:293-458 | decides exactly row command, column command or neither |
| `MemoryController.Controller.SelectRequest` | McSim/PTSMemoryController.cc:268-458 | the one-pass loop returns the request of the declarative rule, or -1 |
| `MemoryController.Controller.ReserveBurst` | McSim/PTSMemoryController.cc:504-536 | the loop adds exactly the slots of the burst |
| `MemoryController.Controller.SearchKeepOpen` | McSim/PTSMemoryController.cc:555-573 | decides exactly whether a younger request of the window wants the row |
| `MemoryController.Controller.IssueRow` | McSim/PTSMemoryController.cc:473-493 | ACT or PRE as the state machine issues it |
| `MemoryController.Controller.IssueColumn` | McSim/PTSMemoryController.cc:494-585 | RD or WR with bank, bus, batch and queue updates as the state machine issues it |
| `MemoryController.Controller.ProcessEvent` | McSim/PTSMemoryController.cc:258-598 | one call is one step of the state machine, keeps the invariant, answers read requests, and asks for the next call exactly while requests are queued |
| `AddressMap.XorInvolutive` | McSim/PTSMemoryController.cc:105-113 | hashing with the same upper bits twice changes nothing |
| `AddressMap.UnhashField` | McSim/PTSMemoryController.h:151-158 | the hashed unit and the hash bits give the raw field back |
| `AddressMap.RemoveInjective` | McSim/PTSMemoryController.cc:197-199 | squeezing a field out loses nothing but that field |
| `AddressMap.DecodeInjective` | McSim/PTSMemoryController.cc:105-202 | for power-of-two widths and separate fields below the hash bits, in any order of their bases, controller, rank, bank, row and page offset determine the address |
| `AddressMap.GenerateLayout` | McSim/test/AddressGen.cc:23-42 | without 32-bit overflow a generated address is its fields side by side |
| `AddressMap.DecodeOfGenerate` | McSim/test/AddressGen.cc:23-42 | a generated address decodes to the controller, bank and row it was generated for |
| `AddressMap.GenerateOfDecode` | McSim/test/AddressGen.cc:23-42 | and generating from what a page-aligned address decodes to gives that address |
| `AddressMap.ComputeLog2` | McSim/PTSComponent.cc:98-108 | the loop computes the logarithm |
| `O3Safety.NewestFound` | McSim/PTSO3Core.cc:206-239 | the backward search finds the newest unfinished entry that answers the query |
| `O3Safety.NewPrecedes` | McSim/PTSO3Core.cc:206-302 | whatever must precede a new entry has finished or is waited for, directly or through another entry |
| `O3Safety.StartSound` | McSim/PTSO3Core.cc:318-372 | starting an entry without dependencies keeps the invariant |
| `O3Safety.WakeSound` | McSim/PTSO3Core.cc:389-411 | after the wake-up nobody depends on a finished entry, and everything that precedes is still finished or waited for |
| `O3Safety.RetireOne` | McSim/PTSO3Core.cc:413-422 | retiring the finished head leaves no dependency behind |
| `O3Runs.ProcessSound` | McSim/PTSO3Core.cc:146-433 | one call, with dispatch, execution, wake-up and commit, keeps the invariant |
| `O3Runs.StagesLively` | McSim/PTSO3Core.cc:318-427 | a call that asks for no further call leaves an empty buffer or a memory access under way |
| `O3Runs.DependenciesLive` | McSim/PTSO3Core.cc:206-302 | in every reachable state a dependency belongs to an entry not started and points at a live, strictly older entry that is unfinished or still to be announced |
| `O3Runs.OldestIsFree` | McSim/PTSO3Core.cc:318-411 | the oldest entry never waits on a dependency |
| `O3Runs.NeverStuck` | McSim/PTSO3Core.cc:318-427 | a buffer that is not empty has a future call or an outstanding access (with at least one unit of each kind) |
| `O3Runs.DataFlow` | McSim/PTSO3Core.cc:206-411 | an entry starts only after every earlier part of its instruction, every earlier mispredicted branch, every earlier access to its word (not word 0) and the last writer of each non-zero register it reads have finished |
| `O3Runs.WholeWriter` | McSim/PTSO3Core.cc:221-239 | all parts of the writing instruction have finished by then |
| `O3ZeroWord.WordsOrderedExactly` | McSim/PTSO3Core.cc:272-283 | an access starts only after every older access to its word has finished, in every reachable state, if and only if the word is not word 0 |
| `O3ZeroWord.ZeroWordUnordered` | McSim/PTSO3Core.cc:272-283 | word 0 is not ordered: a concrete run in which a load from address 5 starts while the older store to it is under way |
| `O3Runs.RetiredAreDone` | McSim/PTSO3Core.cc:413-422 | entries leave the buffer finished |
| `O3Program.LogIsProgram` | McSim/PTSO3Core.cc:182-307 | over every run the entries of instruction k are, for the k-th dispatched instruction, one for each non-zero operand with its address and direction in the order raddr, raddr2, waddr, or a single one without memory, with its registers, kind and branch outcome; dispatched and queued instructions together are those that found room in the queue, in order |
| `O3Reasons.NoFalseDependencies` | McSim/PTSO3Core.cc:206-302 | over every run an entry waits only for an earlier part of its instruction, a mispredicted branch, a writer of a register it reads or an access to its word |
| `O3Calls.DispatchesInOrder` | McSim/PTSO3Core.cc:182-307 | a call takes the oldest instructions, at most the issue width, and stops before only at an empty queue, a full buffer or an instruction that is not ready |
| `O3Calls.CommitsInOrder` | McSim/PTSO3Core.cc:413-422 | finished entries leave in order, as many as the commit width allows |
| `O3Calls.UnitsRespected` | McSim/PTSO3Core.cc:312-375 | in one call no more entries start on ALUs, SSE units, memory ports, loads or stores than there are |
| `O3Calls.StartsGreedily` | McSim/PTSO3Core.cc:318-387 | out of order, an entry that is ready, free of dependencies and not held up by a synchronisation starts, unless older entries that start in this call use up one of its units |
| `O3Calls.InOrderStarts` | McSim/PTSO3Core.cc:376-386 | mimicking a core without reordering, an entry starts only if every older one of the buffer is ready and free of dependencies |
| `O3Calls.SyncsAtHead` | McSim/PTSO3Core.cc:323-345 | notifications and waits complete only as the oldest entry; one sets its flag, the other takes it, and nothing else touches the flags |
| `O3Calls.NewEntriesWait` | McSim/PTSO3Core.cc:241-302 | new entries wait for the next interval; none starts in the call that dispatches it |
| `O3Times.TakesItsTime` | McSim/PTSO3Core.cc:323-361 | over every run each finished entry without memory has taken the time of its kind |
| `O3Times.AnswerFinishes` | McSim/PTSO3Core.cc:487-537 | the answer of the memory finishes exactly its entry, at the next multiple of the interval or the branch penalty later |
| `O3Times.FetchExact` | McSim/PTSO3Core.cc:160-188 | exactly the instructions of the line of the oldest one not in the queue are asked for, and those of line 0 in front of it |
| `O3Times.DeliveredExact` | McSim/PTSO3Core.cc:466-485 | a line that comes back makes exactly its instructions ready |
| `O3Times.CallsAskedFor` | McSim/PTSO3Core.cc:146-187 | the calls that each action asks for |
| `OutOfOrderCore.SlotDistinct` | McSim/PTSO3Core.cc:186-187 | slots are re-used but never within one window of the buffer |
| `OutOfOrderCore.O3Core.FindBranch` | McSim/PTSO3Core.cc:206-214 | the slot of the newest unfinished mispredicted branch, or -1 |
| `OutOfOrderCore.O3Core.FindWriters` | McSim/PTSO3Core.cc:221-239 | the slots of the newest unfinished writers of four registers |
| `OutOfOrderCore.O3Core.FindAccess` | McSim/PTSO3Core.cc:273-283 | the slot of the newest unfinished access to the word |
| `OutOfOrderCore.O3Core.FillRob` | McSim/PTSO3Core.cc:241-302 | the loop over the operands writes one entry per memory operand or one without memory, and scribbles only on free slots |
| `OutOfOrderCore.O3Core.DispatchHead` | McSim/PTSO3Core.cc:182-307 | dispatching the head of the queue is the abstract dispatch |
| `OutOfOrderCore.O3Core.ExecuteEntry` | McSim/PTSO3Core.cc:322-386 | one entry is started, held, or ends the search, as the state machine says |
| `OutOfOrderCore.O3Core.ExecuteReady` | McSim/PTSO3Core.cc:312-387 | the loop with its breaks and unit counters is the abstract execution stage |
| `OutOfOrderCore.O3Core.WakeUp` | McSim/PTSO3Core.cc:389-411 | the nested loops clear exactly the dependencies on entries that finish now |
| `OutOfOrderCore.O3Core.CommitHeads` | McSim/PTSO3Core.cc:413-427 | up to the commit width finished heads leave; a further call is asked for if the next head is finished |
| `OutOfOrderCore.O3Core.FetchLines` | McSim/PTSO3Core.cc:160-180 | the loop asks for the line of the oldest instruction not yet in the queue and marks all its instructions |
| `OutOfOrderCore.O3Core.AddInstruction` | McSim/McSim.cc:307-353 | an instruction is appended unless the queue is full |
| `OutOfOrderCore.O3Core.AddReqEvent` | McSim/PTSO3Core.cc:466-484 | a line that comes back makes its instructions ready |
| `OutOfOrderCore.O3Core.AddRepEvent` | McSim/PTSO3Core.cc:516-535 | an answer completes the entry in the named slot, which is a live executing one |
| `OutOfOrderCore.O3Core.ProcessEvent` | McSim/PTSO3Core.cc:146-433 | one call over the circular buffers is one call of the state machine and keeps the invariant |
| `OutOfOrderCore.O3Core.SlotsNeverStale` | McSim/PTSO3Core.cc:206-411 | in the buffer itself: a slot waited on holds a strictly older live entry that is unfinished or still to be announced |
| `PthreadSafety.Move` | Pthread/PthreadMutex.cpp:151-196 | moving one thread from one place to another keeps everyone seated exactly once |
| `PthreadSafety.LockMid` | Pthread/PthreadMutex.cpp:51-94 | asking for a mutex grants it or puts the thread in its queue, and keeps the invariant |
| `PthreadSafety.HandOffMid` | Pthread/PthreadMutex.cpp:172-196 | handing the mutex to the longest waiter keeps the invariant |
| `PthreadRuns.StepInv` | Pthread/EEPthreadSim.cpp:153-526 | every call of a running thread keeps the invariant |
| `PthreadRuns.NoWaiterLost` | Pthread/EEPthreadScheduler.cpp:231-268 | in every run a thread is inactive exactly when it occurs once in exactly one queue, barrier list or join record, and nactive counts the active threads |
| `PthreadRuns.OnlyThreadsWait` | Pthread/PthreadMutex.cpp:151-196 | whoever sits in a queue is an inactive thread of the scheduler |
| `PthreadRuns.WaitersMeanHeld` | Pthread/PthreadMutex.cpp:106-196 | a mutex with waiters is held |
| `PthreadRuns.JoinBijection` | Pthread/PthreadJoin.cpp:82-123 | joined records and joiners mirror each other |
| `PthreadRuns.OnlyMisuseFails` | Pthread/EEPthreadScheduler.cpp:212-268 | a call ends in a failed check if and only if it breaks a listed rule; the checks inside block, unblock and the join tables never fail |
| `PthreadHandOver.LockOutcome` | Pthread/EEPthreadSim.cpp:466-484 | all outcomes of lock: granted, counted, deadlock when nobody else is active, or waiting at the end of the queue; a try never waits and changes nothing when refused |
| `PthreadHandOver.UnlockOutcome` | Pthread/PthreadMutex.cpp:106-196 | all outcomes of unlock: a released mutex belongs at once to the longest waiter, which runs again, or is free; an error-checking mutex of somebody else is left alone, a recursive one must be held and is counted down |
| `PthreadHandOver.MutexesAreFair` | Pthread/PthreadMutex.cpp:151-230 | every step only appends to a mutex queue or takes its first thread |
| `PthreadHandOver.SignalServes` | Pthread/EEPthreadSim.cpp:206-232 | a signal moves exactly the first waiter to its mutex |
| `PthreadOutcomes.ConditionsAreFair` | Pthread/PthreadCond.cpp:20-78 | every step leaves the queue of a condition alone, appends the waiting caller at its end, takes its first waiter for a signal, or empties it for a broadcast |
| `PthreadOutcomes.WaitOutcome` | Pthread/EEPthreadSim.cpp:255-271 | all outcomes of wait: the mutex is given up as by unlock, then the caller stops as the last waiter with its mutex, or the program ends because nobody else runs |
| `PthreadHandOver.BroadcastQueues` | Pthread/EEPthreadSim.cpp:153-179 | broadcast ends, empties the condition, and appends the waiters to their mutex queues in wait order, except the one that owns the mutex |
| `PthreadHandOver.BroadcastServesAll` | Pthread/EEPthreadSim.cpp:153-179 | every former waiter is active and owns its mutex, or waits in the queue of that mutex |
| `PthreadHandOver.BarrierOpens` | Pthread/EEPthreadSim.cpp:731-760 | the last participant frees everyone waiting; an earlier one stops alone |
| `PthreadHandOver.BarrierRound` | Pthread/EEPthreadSim.cpp:746-755 | a round frees exactly as many threads as take part |
| `PthreadHandOver.BarrierHolds` | Pthread/PthreadBarrier.cpp:29-47 | no other step lets a thread leave a barrier |
| `PthreadHandOver.JoinAfterExit` | Pthread/PthreadJoin.cpp:82-115 | join after exit delivers the exit value without waiting |
| `PthreadOutcomes.JoinBeforeExit` | Pthread/PthreadJoin.cpp:82-123 | a join before the exit stops the caller and makes the two records point at each other |
| `PthreadOutcomes.ExitAlone` | Pthread/PthreadJoin.cpp:27-51 | an exit that nobody waits for keeps its value for a later join and affects nobody else |
| `PthreadOutcomes.CreateOutcome` | Pthread/EEPthreadScheduler.cpp:170-205 | a new thread runs at once under a number never used before, with a join record if it is joinable |
| `PthreadOutcomes.DetachOutcome` | Pthread/PthreadJoin.cpp:58-74 | a detached thread can no longer be joined unless it has been joined before |
| `PthreadOutcomes.InitOutcome` | Pthread/PthreadMutex.cpp:23-42 | a new mutex is free and of its kind, a new barrier waits for as many threads as were asked for, a destroyed one is gone |
| `PthreadHandOver.ExitAfterJoin` | Pthread/PthreadJoin.cpp:27-51 | exit after join delivers the value and wakes the joiner |
| `PthreadHandOver.WokenByExitOnly` | Pthread/PthreadJoin.cpp:27-123 | only the exit of the joined thread wakes a joiner, with the value of that exit |
| `PthreadLibrary.PthreadSim.LockFor` | Pthread/PthreadMutex.cpp:51-94 | mutex record and queue as the step function says |
| `PthreadLibrary.PthreadSim.UnblockSpinning` | Pthread/PthreadMutex.cpp:172-196 | the hand-over as the step function says |
| `PthreadLibrary.PthreadSim.MutexLock` | Pthread/EEPthreadSim.cpp:466-484 | lock as the step function says; keeps the invariant |
| `PthreadLibrary.PthreadSim.MutexUnlock` | Pthread/EEPthreadSim.cpp:509-526 | unlock as the step function says; keeps the invariant |
| `PthreadLibrary.PthreadSim.CondWait` | Pthread/EEPthreadSim.cpp:255-271 | unlock, join the condition, stop; keeps the invariant |
| `PthreadLibrary.PthreadSim.CondSignal` | Pthread/EEPthreadSim.cpp:206-232 | signal as the step function says; keeps the invariant |
| `PthreadLibrary.PthreadSim.CondBroadcast` | Pthread/EEPthreadSim.cpp:153-179 | the loop over the waiters is the recursive broadcast |
| `PthreadLibrary.PthreadSim.BarrierWait` | Pthread/EEPthreadSim.cpp:731-760 | the loop over the barrier list is the recursive release |
| `PthreadLibrary.PthreadSim.CreateThread` | Pthread/EEPthreadScheduler.cpp:170-205 | a new active thread with its join record |
| `PthreadLibrary.PthreadSim.ExitThread` | Pthread/EEPthreadSim.cpp:336-356 | deliver or store the value, then leave the scheduler |
| `PthreadLibrary.PthreadSim.JoinThread` | Pthread/PthreadJoin.cpp:82-123 | fetch the value or wait for it |
| `PthreadLibrary.PthreadSim.DetachThread` | Pthread/PthreadJoin.cpp:58-74 | the record is dropped unless somebody joins |
| `DirectoryEntry.StepOk` | McSim/PTSDirectory.cc:177-690 | every message keeps a consistent entry consistent and fails no check on the number of sharers, if and only if it is not a stale answer that ends an open round: an exclusive answer of the memory, or an upgrade answer while more or fewer than one sharer is left or the line has been received |
| `DirectoryEntry.ConsistentExactly` | McSim/PTSDirectory.cc:177-690 | a run keeps the entry consistent throughout if and only if no such answer occurs in it |
| `DirectoryEntry.StaleAnswerBreaks` | McSim/PTSDirectory.cc:177-690 | it can occur: seven messages after which the program stops at a check on the number of sharers |
| `DirectoryEntry.DirectoryConsistent` | McSim/PTSDirectory.cc:177-690 | over every run: one sharer while exclusive or modified, at least one while shared, a held request while moving to shared, and in an open round the sharers left are those recorded minus those that answered |
| `DirectoryEntry.RoundStarts` | McSim/PTSDirectory.cc:587-680 | a round records all sharers and asks each of them once, the first for the line |
| `DirectoryEntry.OwnerAfterAllAnswers` | McSim/PTSDirectory.cc:314-346 | a round ends if and only if every recorded sharer has answered, or a message ends it early; with the last answer the waiting writer becomes the only sharer; until then its request stays and others are refused |
| `DirectorySharers.AnsweredToAskers` | McSim/PTSDirectory.cc:177-690 | for every cache: each of its requests is refused, answered, sent to memory or held back for it exactly once, except exactly for one held back when an upgrade answer ends its round |
| `DirectorySharers.ReceiverIsListed` | McSim/PTSDirectory.cc:177-690 | whoever is sent the line or may upgrade is listed as a sharer, if and only if the message is no answer of the memory for a cache that is not listed |
| `DirectorySharers.HoldersAreListed` | McSim/PTSDirectory.cc:177-690 | over every run without stale answers, each cache that has been sent the line and has not given it up since is listed |
| `DirectorySharers.ServesListedExactly` | McSim/PTSDirectory.cc:177-690 | a run serves only listed caches if and only if no answer of the memory is misdirected in it |
| `DirectorySharers.SharersChange` | McSim/PTSDirectory.cc:177-690 | a cache leaves the list only by its own eviction or answer to an invalidation, or with the entry; it joins by its own request; a read that is served keeps all earlier sharers and adds the reader |
| `DirectorySharers.WriterIsOwner` | McSim/PTSDirectory.cc:177-690 | who is sent the line to write, or may upgrade, is the only sharer of an entry that is modified or becomes so |
| `DirectorySharers.ReadOutcome` | McSim/PTSDirectory.cc:546-586 | all outcomes of a read request |
| `DirectorySharers.WriteOutcome` | McSim/PTSDirectory.cc:587-687 | all outcomes of a write request |
| `DirectorySharers.EvictOutcome` | McSim/PTSDirectory.cc:177-290 | an eviction takes exactly its sender off the list, unless a write is under way, and ends the entry only when nobody is left |
| `DirectorySharers.WritesBack` | McSim/PTSDirectory.cc:177-392 | the line is written back if and only if its owner evicts it while memory is out of date, or hands over data it has written |
| `DirectorySharers.DirtyUntilWritten` | McSim/PTSDirectory.cc:177-690 | a line that memory does not have stays marked so until it is written back, asked for by a new owner, or answered for as not written or gone |
| `DirectoryEntry.TransitEnds` | McSim/PTSDirectory.cc:177-690 | the answer that an entry in transit waits for ends the transit in the kind that it stands for; until then requests are refused |
| `DirectoryEntry.FailsExactly` | McSim/PTSDirectory.cc:177-690 | a message ends the program if and only if it is an answer that does not fit the entry |
| `DirectoryController.Directory.AddReqEvent` | McSim/PTSDirectory.cc:101-108 | a request is stored for the next multiple of the interval together with a call |
| `DirectoryController.Directory.AddRepEvent` | McSim/PTSDirectory.cc:111-123 | likewise for a reply |
| `DirectoryController.Directory.TakeNext` | McSim/PTSDirectory.cc:126-179 | a call moves what is due into the queues, takes the first reply or else the first request, and always finds one |
| `DirectoryController.Directory.FirstOf` | McSim/PTSDirectory.cc:578-584 | the least sharer |
| `DirectoryController.Directory.InvalidateAll` | McSim/PTSDirectory.cc:640-648 | the loop asks every sharer in order |
| `DirectoryController.Directory.HandleRead` | McSim/PTSDirectory.cc:546-586 | read requests as the state machine says |
| `DirectoryController.Directory.HandleWrite` | McSim/PTSDirectory.cc:587-687 | write requests as the state machine says |
| `DirectoryController.Directory.HandleEvict` | McSim/PTSDirectory.cc:177-290 | evictions as the state machine says |
| `DirectoryController.Directory.HandleInvalidated` | McSim/PTSDirectory.cc:314-346 | answers to invalidations as the state machine says |
| `DirectoryController.Directory.HandleShared` | McSim/PTSDirectory.cc:347-392 | answers to sharing requests as the state machine says |
| `DirectoryController.Directory.ProcessEvent` | McSim/PTSDirectory.cc:126-690 | one call handles the first message and keeps the invariant |
| `Inbox.SomethingDue` | McSim/PTSDirectory.cc:149-161 | a call that was asked for finds a message |
| `Inbox.TimelyNext` | McSim/PTSDirectory.cc:163-170 | after a call every waiting message again has a call and every call its message |
| `CacheSet.ReadLineOk` | McSim/PTSCache.cc:1114-1177 | a read request keeps the line consistent and is always served, held or refused |
| `CacheSet.WriteLineOk` | McSim/PTSCache.cc:1178-1261 | a write request keeps the line consistent and is always served, sent on, held or refused |
| `CacheSet.OnLineOk` | McSim/PTSCache.cc:775-1089 | no reply breaks a line or fails a check of the number of sharers |
| `CacheSet.StepOk` | McSim/PTSCache.cc:754-1282 | every message keeps line states, sharers and unique tags; the sharer-count checks never fail |
| `CacheSet.OwnersConsistent` | McSim/PTSCache.cc:754-1282 | over every run: a modified line owned modified by the first level has one sharer, exclusive at most one, invalid or in transit none; requests never end in a failed check |
| `CacheSet.StepAgrees` | McSim/PTSCache.cc:754-1282 | who is told to write is the only sharer of a modified line, who is told to read is a sharer, and a dropped sharer has been told or sent the message, if and only if the message is no misfit: a request answered without the line in the always-hit mode, or a line given up for a write while it waits to be shared |
| `CacheAnswers.AsksConserved` | McSim/PTSCache.cc:964-1084 | each question of the directory is answered in the same step by a message of its kind or held back, and a held one stays until it is answered, if and only if it does not overwrite an earlier one |
| `CacheAnswers.HeldUntilAnswered` | McSim/PTSCache.cc:754-1285 | questions stay with lines for which a first-level cache has been asked, if and only if no fill takes over such a line; and each stays with its line until a step sends its answer |
| `CacheAnswers.EveryAskAnswered` | McSim/PTSCache.cc:754-1285 | over every run without such a fill each question has been answered exactly once or is held |
| `CacheAnswers.AnswersSayPresence` | McSim/PTSCache.cc:964-1084 | data and shares come only from a line of the set, and an invalidation is confirmed with data only if the line is there and data was asked for |
| `CacheRequests.RequestsConserved` | McSim/PTSCache.cc:754-1285 | each message for which a first-level cache waits is carried on by exactly one output of its kind: an answer to that cache, a request to the directory, or the order to the owner that takes the request along; and nothing else is answered |
| `CacheLines.StateFollows` | McSim/PTSCache.cc:754-1285 | a line becomes modified or exclusive only when the directory grants it, and is shared or gone once the directory has been told so |
| `CacheLines.LinesLeave` | McSim/PTSCache.cc:754-1285 | a line leaves the set only displaced and announced (or sent back by its owner), fetched anew for a write, or invalidated by the directory |
| `CacheLines.EvictionsAnnounced` | McSim/PTSCache.cc:801-845 | a displaced line is announced if and only if no owner has to send it back first, a filled one if and only if the line it would displace is in transit |
| `CacheLines.WritesInPlace` | McSim/PTSCache.cc:1178-1205 | a write request for a line that is not owned keeps the line for an upgrade if and only if its requester is the only sharer of an exclusive line; otherwise all sharers lose it and the line is given up |
| `CacheLines.FirstLevelFollows` | McSim/PTSCache.cc:754-1285 | how the state towards the first level comes about: shared only with a second reader, a shared fill or a line given up, exclusive only for a first reader or while the owner sends the line back, modified only for a writer |
| `CacheOrders.OrdersExactly` | McSim/PTSCache.cc:754-1285 | for every message and cache: exactly who is refused, told to drop the line, or asked for it as its owner, and in which way |
| `CacheLines.UsedGoesLast` | McSim/PTSCache.cc:754-1345 | each message moves exactly the line it uses to the end and leaves the order of the others |
| `CacheLines.VictimIsOldest` | McSim/PTSCache.cc:801-845 | after every run the line that a fill displaces has been used less recently than every other valid line of the set |
| `CacheLines.Reported` | McSim/PTSCache.cc:776-963 | the directory is told whether an upgrade was taken, of a fill that is not kept, and gets data that is evicted after its line has gone |
| `CacheLines.L1EvictOutcome` | McSim/PTSCache.cc:935-955 | an eviction by the first level takes exactly its sender off the sharers, or answers the directory and lists it again |
| `CacheLines.FailsExactly` | McSim/PTSCache.cc:754-1285 | a message ends the program if and only if it does not fit the line |
| `CacheL2.L2Set.FindWay` | McSim/PTSCache.cc:766-774 | the first way with the tag |
| `CacheL2.L2Set.UpdateLru` | McSim/PTSCache.cc:1340-1345 | the shift in place is the touch |
| `CacheL2.L2Set.EvictSharers` | McSim/PTSCache.cc:1348-1362 | all sharers, or all but one, are told |
| `CacheL2.L2Set.ReadHit` | McSim/PTSCache.cc:1114-1177 | a read request for a line as the state machine says |
| `CacheL2.L2Set.WriteHit` | McSim/PTSCache.cc:1178-1261 | a write request for a line as the state machine says |
| `CacheL2.L2Set.DirReadHit` | McSim/PTSCache.cc:964-1005 | the directory reads a line as the state machine says |
| `CacheL2.L2Set.DirInvalidateHit` | McSim/PTSCache.cc:1034-1084 | the directory invalidates a line as the state machine says |
| `CacheL2.L2Set.UpgradeHit` | McSim/PTSCache.cc:776-797 | an upgrade is taken, or refused because the line was lost, as the state machine says |
| `CacheL2.L2Set.FillHit` | McSim/PTSCache.cc:839-882 | a fill of a line that is there, or its bypass, as the state machine says |
| `CacheL2.L2Set.FillMiss` | McSim/PTSCache.cc:803-882 | a fill that displaces the least recently used line, or is bypassed because that line is in transit |
| `CacheL2.L2Set.YieldHit` | McSim/PTSCache.cc:883-934 | a line that a first-level cache gives up, with the held message of the directory, as the state machine says |
| `CacheL2.L2Set.L1EvictHit` | McSim/PTSCache.cc:935-955 | an eviction by the first level, which may answer the directory, as the state machine says |
| `CacheL2.L2Set.DirShareHit` | McSim/PTSCache.cc:1015-1027 | the directory asks to share a line |
| `CacheL2.L2Set.ReplyMiss` | McSim/PTSCache.cc:776-1069 | the answer when the line is gone |
| `CacheL2.L2Set.RequestMiss` | McSim/PTSCache.cc:1091-1240 | a request that is not served by the set |
| `CacheL2.L2Set.HandleRequest` | McSim/PTSCache.cc:1091-1285 | a request is one step of the set and keeps the invariant |
| `CacheL2.L2Set.HandleReply` | McSim/PTSCache.cc:754-1089 | a reply is one step of the set and keeps the invariant |
| `CacheQueues.SomethingTaken` | McSim/PTSCache.cc:1091-1285 | when something is queued or due, a reply or a request is taken |
| `CacheQueues.BanksInOrder` | McSim/PTSCache.cc:729-753 | a call takes the oldest reply or else the oldest request of every bank that has one; in each bank what is taken followed by what stays is what was queued followed by what became due |
| `CacheQueues.L2Queues.TakeNext` | McSim/PTSCache.cc:729-753 | a call takes the first reply, or else the first request of each bank, and always finds one |
| `EventQueue.CallKeeps` | McSim/PTSComponent.cc:126-189 | a call removes itself and nothing else; what is asked for is in the queue, except a call that a component other than a core asks of itself for the present time |
| `EventQueue.TimeNeverDecreases` | McSim/PTSComponent.cc:133-189 | time never decreases |
| `EventQueue.NothingStranded` | McSim/PTSComponent.cc:126-189 | a call asked for is in the queue until it has been made at its time |
| `EventQueue.CalledByThen` | McSim/PTSComponent.cc:126-189 | once time has passed it the call has been made |
| `EventDelivery.RunLinked` | McSim/PTSComponent.cc:126-189 | over every run of the global queue, the calls it holds for a component are exactly those that its waiting messages ask for |
| `EventDelivery.CallsFindMessages` | McSim/PTSDirectory.cc:101-179 | over every run, a call of such a component finds a message |
| `EventDelivery.MessageTaken` | McSim/PTSDirectory.cc:101-179 | a message for time t is there when the component is called at t, and that call has been made once time has passed t |
| `EventQueue.SelfCallLost` | McSim/PTSComponent.cc:168-177 | the exception is real: such a call is forgotten |
| `EventQueue.GlobalEventQueue.AddEvent` | McSim/PTSComponent.cc:126-130 | adds one call |
| `EventQueue.GlobalEventQueue.BeginCall` | McSim/PTSComponent.cc:133-160 | the earliest time is served; a core is taken off before its call |
| `EventQueue.GlobalEventQueue.EndCall` | McSim/PTSComponent.cc:161-177 | the others are taken off after theirs |
| `Tlb.ResidentIsRecent` | McSim/PTSTLB.cc:62-99 | after any trace the resident pages are the most recently used ones, as many as there are entries |
| `Tlb.LargerMissesLess` | McSim/PTSTLB.cc:62-99 | a larger buffer holds at least the same pages and never misses more |
| `Tlb.Buffer.Access` | McSim/PTSTLB.cc:60-99 | one access hits exactly when the page is among the most recently used; the maps are afterwards inverse and hold exactly those pages again if and only if no other page has taken the same time |
| `Tlb.Buffer.EvictOldest` | McSim/PTSTLB.cc:78-81 | the entry with the least time is the least recently used page |
| `Crossbar.EveryPortOnce` | McSim/PTSXbar.cc:199-203 | each call visits every port exactly once |
| `Crossbar.OnePerDestination` | McSim/PTSXbar.cc:194-235 | each destination gets at most one packet per call |
| `Crossbar.TwoPerPort` | McSim/PTSXbar.cc:204-234 | each port sends at most two packets per call |
| `Crossbar.NoDestinationIdles` | McSim/PTSXbar.cc:204-234 | every destination of the first two packets of a port gets a packet in the call |
| `Crossbar.FlowsInOrder` | McSim/PTSXbar.cc:140-235 | per port, destination and priority: what is sent followed by what stays is what was queued followed by what arrived |
| `Crossbar.OvertakingExact` | McSim/PTSXbar.cc:140-235 | from every state with a packet queued, a later packet of the same source and destination can leave before it if and only if it has the higher priority |
| `Crossbar.OrderKept` | McSim/PTSXbar.cc:140-235 | over every run, a packet behind one of the same source, destination and at least its priority leaves in a later call |
| `Crossbar.WaitingExact` | McSim/PTSXbar.cc:194-241 | a reply with k packets ahead of it is sent within 2 x ports x (k+1) calls whatever arrives; for no other packet is there any bound |
| `Crossbar.PacketsLeave` | McSim/PTSXbar.cc:194-241 | a packet with k ahead of it is sent by its port in one of the next 2 x ports x (k+1) calls, unless packets of higher priority arrive there; a reply whatever arrives |
| `CrossbarArbiter.PortIs` | McSim/PTSXbar.cc:200-202 | the index arithmetic visits the port of the turn in both directions |
| `CrossbarArbiter.Arbiter.Enqueue` | McSim/PTSXbar.cc:145-192 | due packets are queued by priority, then age |
| `CrossbarArbiter.Arbiter.VisitPort` | McSim/PTSXbar.cc:204-234 | the first two packets of a port are looked at |
| `CrossbarArbiter.Arbiter.ProcessEvent` | McSim/PTSXbar.cc:140-241 | one call is the call of the abstract arbiter |

## Left out

- System-wide coherence: the first-level caches and the network between the caches are not part of this model; each component's own invariant is proved instead.
- The directory cache and limitless broadcast: `pending` is used for two purposes there; both are off by default.
- DirectoryEntry.Least: pointer order of the sharers is modelled by the order of their numbers.
- Access times and statistics of cache lines.
- CacheSet.OwnersConsistent: nothing is claimed about the sharers of lines that are not modified towards the directory.
- The first-level cache, its fill and evict paths and prefetching: its lines follow what the second level tells it.
- DramBus.DataBusSafe: the bubbles are claimed only up to tCL; `DramBubble.BubbleExact` and `DramBubble.BubbleOneRankExact` say exactly when they hold.
- DramBubble.BubbleExact: a scheduling window of a single request is not covered; there a closed row has to be opened between the two bursts.
- Memory-controller refresh (only one initial event exists), fixed-latency modes, page-access statistics and message types that end in a fatal error.
- O3Runs.NeverStuck: assumes at least one unit of each kind and that every access is answered in the end; negative acknowledgements and TLB replies re-send the access and change no entry.
- The messages of the out-of-order core to the TLBs and first-level caches: an access under way is the state `Executing`, a line asked for the state `BeingLoaded`.
- The branch predictor's tables, `skip_all_instrs`, the instruction address kept for debugging, and statistics of the out-of-order core.
- PthreadRuns.StepInv: excludes initialising or destroying a mutex or barrier that threads wait on, cancelling a thread, and `docontextswitch`, which blocks a thread nobody wakes.
- The re-execution flag `executed`, cleanup handlers, thread-specific data, stacks and processor contexts of the thread library.
- AddressMap.DecodeOfGenerate: for two controllers, one rank and no 32-bit overflow, which is what the generator is written for.
- Overflow of 64-bit simulated times.
- EventDelivery.MessageTaken: messages are for later times than the call that sends them, as all links take time; how the crossbar and the TLB ask for their next call is not modelled.
- TOML parsing, trace files, signal handling, process forking, message passing between processes, printing.
