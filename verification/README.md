# Round-robin CPU scheduler simulator: a Dafny model

This project models the core of a small C++ operating-system simulator:

- **`CPU` in cpu.h**: a round-robin scheduler with a simulated clock, a process table and three FIFO queues (ready, waiting, terminated).
  - Records are admitted by `addProcess` and, once their arrival time has come, by `checkAndAddNewArrivedProcesses`.
  - `RoundRobin_Schedule` dispatches the head of the ready queue for `min(timeSlice, remaining run time)` ticks.
  - `executeInstruction` fetches lines from a global program store.
  - `manageTimeAndSchedule` loops until every record is TERMINATED.
- **The process record of pcb.h**: its counters, its code location, its priority comparison and its frame stack.
- **The variant record of all_pcb.h**, which main.cpp uses: its default state is BLOCKED and its priority comparison is inverted.
- **The set-up in main.cpp**: the 1026-line program store, the loader that copies each program into a 256-line slot, and the `std::sort` of the five sample records by priority.

The scheduler state is an immutable datatype. Each step of the source is a pure function, and the queues hold indices into the process table where the source holds `PCB*` pointers. The outer `while (true)` loop takes a fuel bound.

The model reproduces the source's quirks as written:

- The program counter moves by two per fetch.
- A fetch is bounded by the record's code length, not by the buffer.
- The loader records a program's full length even when the copy was cut short at the end of the buffer.
- main.cpp loads the third program for the third, fourth and fifth records.
- The loader stops at the end of the buffer but not at the end of a slot. A program longer than 256 lines overwrites the start of the next slot, and ProgramStore.Loaded does the same. SlotsDisjoint and LaterLoadKeepsEarlier are stated only for programs of at most 256 lines.

Modules and files:

| file | module | models |
|---|---|---|
| common.dfy | Common | `Option`, `Min`/`Max`, duplicate-free and bounded sequences, order-preserving removal |
| process_record.dfy | ProcessRecord | pcb.h: `PCB`, `Stack`, the creation counter, `operator<` |
| process_record_variant.dfy | ProcessRecordVariant | all_pcb.h: the BLOCKED default and the inverted `operator<` |
| text.dfy | Text | `stripComma` and the `iss >> cmd >> var` tokenising |
| program_store.dfy | ProgramStore | `ALL_MEMORY_SIZE`, the blank store, the `loadInstructions` lambda |
| scheduler.dfy | Scheduler | the `CPU` class as a state machine |
| scheduler_invariants.dfy | SchedulerInvariants | the queue invariant, dispatch facts, loop termination |
| priority_sort.dfy | PrioritySort | the `std::sort` call with the comparator `!(*a < *b)` |
| main_setup.dfy | MainSetup | the five sample programs and records, loading and sorting them |

## Model

| member | source | states |
|---|---|---|
| Scheduler.NewCpu | cpu.h:32-38 | A new scheduler starts at time 0 with the given slice and an empty table and queues |
| Scheduler.AddProcess | cpu.h:40-58 | The record is appended to the table. If it has arrived (arrivalTime <= time) it becomes READY and goes to the ready tail. Otherwise it becomes BLOCKED and goes to the waiting tail. Exactly one queue grows, and nothing else changes |
| SchedulerInvariants.AddProcessKeepsValid | cpu.h:40-58 | Adding a never-run record keeps every record in exactly the queue its state names |
| SchedulerInvariants.NewCpuValid | cpu.h:32-38 | A new scheduler satisfies the queue invariant |
| SchedulerInvariants.ExactlyOneQueue | cpu.h:134-137 | Between dispatches every record is in exactly one of the ready, waiting and terminated queues |
| Scheduler.ArrivalsFacts | cpu.h:159-171 | The admission scan picks exactly the records that are BLOCKED, have arrived, have no used run time and have pc 0. It picks each once, in table order |
| Scheduler.RemoveArrivedIsWithout | cpu.h:175-189 | Rebuilding the waiting queue once per admitted record removes exactly the admitted records and keeps the others in their order |
| Scheduler.AdmitQueues | cpu.h:155-190 | After admission the ready queue is the old queue plus the arrivals at the tail, in table order. The waiting queue is the old one minus the arrivals, in order. The arrived records are READY and no other record changes |
| Scheduler.Admit | cpu.h:155-190 | Admission changes neither the clock, the terminated queue nor the table size, and it keeps queue entries within the table |
| Scheduler.RemoveProcess | cpu.h:175-186 | Removing a record from a queue keeps exactly the other entries, never lengthens the queue, and leaves a queue without the record unchanged |
| Scheduler.RemoveArrived | cpu.h:175-189 | After removing every admitted record, the queue holds exactly the entries that were in it and were not admitted, and it is no longer than before |
| Scheduler.MarkArrived | cpu.h:159-168 | Marking arrivals keeps the table size and changes only states. A record is READY afterwards exactly when it was READY before or passes the admission test at this time |
| SchedulerInvariants.AdmitKeepsInv | cpu.h:155-190 | Admission keeps the queue invariant. It leaves the running record alone, changes other records only from BLOCKED to READY, and the waiting queue keeps exactly its still-BLOCKED entries |
| SchedulerInvariants.AdmitIdempotent | cpu.h:155-190 | A second admission at the same time changes nothing |
| SchedulerInvariants.AdmitNothingArrived | cpu.h:159-171 | When no record passes the admission test, admission leaves the state as it was |
| SchedulerInvariants.AdmitKeepsAllTerminated | cpu.h:165-167 | Admission never changes whether every record is TERMINATED |
| Scheduler.ExecuteInstruction | cpu.h:293-316 | With run time left, one tick passes. If pc < codeLength, line codeStartIndex + pc is fetched and pc grows by 2; otherwise the record waits for the terminal and pc is unchanged. Without run time left nothing changes. pc never passes codeLength + 1 |
| Scheduler.CurrentReadVariable | cpu.h:199-210 | Past the program end the result is "". Otherwise it is the second token of the current line with a trailing comma stripped. It is undefined exactly when that line lies outside the buffer |
| Text.StripComma | cpu.h:22-27 | The result is a prefix of the input and at most one character shorter. It is shorter exactly when the input ends in a comma |
| Text.StripCommaUndoesAppend | cpu.h:22-27 | Stripping s + "," gives back s |
| Text.StripCommaKeepsUnterminated | cpu.h:22-27 | An input that does not end in a comma comes back unchanged |
| Text.Extract | cpu.h:205-207 | One `>>` from a stream position skips only whitespace, then takes a whitespace-free token. The token ends at whitespace or the line end, and the stream is left just after it. The token is empty only when nothing but whitespace remains |
| Text.ExtractToken | cpu.h:205-207 | When whitespace fills the gap before a whitespace-free run that ends at whitespace or the line end, one `>>` yields exactly that run |
| Text.SecondToken | cpu.h:205-207 | The token `iss >> cmd >> var` leaves in `var` contains no whitespace. SecondTokenOfInstruction gives its value for an instruction line |
| Text.SecondTokenOfInstruction | cpu.h:205-207 | For a line "cmd v rest" with v followed by whitespace or the line end, `iss >> cmd >> var` extracts v |
| Text.ReadVariableOfInstruction | cpu.h:205-208 | For an instruction "cmd v," the read variable is v |
| Scheduler.PopHead | cpu.h:218-224 | Taking the ready head keeps the clock, the slice, the program store and the table size, and keeps every queue entry inside the table |
| Scheduler.SliceTick | cpu.h:229-249 | One pass of the dispatch loop keeps the slice, the program store and the table size, and keeps queue entries inside the table |
| Scheduler.RunSlice | cpu.h:229-249 | Any number of passes keeps the slice, the program store and the table size, and keeps queue entries inside the table |
| Scheduler.AfterTick | cpu.h:229-231 | The loop test after a pass, with what follows it, keeps the slice, the program store and the table size, and keeps queue entries inside the table |
| Scheduler.Settle | cpu.h:252-276 | Settling the record after its slice keeps the clock, the slice, the program store and the table size, and keeps queue entries inside the table. SettleFacts states which queue it joins |
| Scheduler.RoundRobin | cpu.h:213-279 | A dispatch keeps the slice, the program store and the table size, and keeps queue entries inside the table. RoundRobinFacts states its full effect |
| SchedulerInvariants.PopHeadFacts | cpu.h:218-224 | The dispatched record is taken from the ready head, leaves every queue and is the only RUNNING record |
| SchedulerInvariants.SliceTickFacts | cpu.h:229-241 | One pass of the dispatch loop, for a record with run time left, advances the clock and the record's run time by exactly one, keeps it RUNNING and keeps the invariant |
| SchedulerInvariants.RunSliceFacts | cpu.h:229-249 | A dispatch loop of n passes, for a record with run time for all n, runs all n passes: clock and run time advance by exactly n. The terminated queue is unchanged, the ready queue only grows at its tail, the waiting queue keeps exactly its still-BLOCKED records, and other records are at most promoted from BLOCKED to READY |
| SchedulerInvariants.SettleFacts | cpu.h:252-276 | After the slice the record goes to the terminated tail if its run time is used up, and otherwise to the ready tail as READY. No other queue or record changes |
| SchedulerInvariants.RoundRobinFacts | cpu.h:213-279 | One dispatch advances the clock and the head's run time by min(timeSlice, remaining). The head ends TERMINATED at the terminated tail exactly when its run time is used up, and otherwise READY at the ready tail. The rest of the ready queue keeps its order, and the invariant holds |
| SchedulerInvariants.DispatchKeepsRunTimeBound | cpu.h:227-254 | A dispatch keeps 0 <= usedRunTime <= totalRunTime, and the record ends TERMINATED exactly when the two are equal |
| SchedulerInvariants.ZeroSliceRotates | cpu.h:227-229 | With timeSlice <= 0, a dispatch of a head record with run time left grants no tick: it only moves the record from the head to the tail of the ready queue |
| SchedulerInvariants.NoWorkTerminatesAtOnce | cpu.h:227-258 | A head record with no run time left is retired to the terminated tail without a tick passing |
| Scheduler.Step | cpu.h:62-103 | One turn of the outer loop exits exactly when every record is TERMINATED, and then changes nothing. Otherwise it keeps the slice, the table size and the queue indices |
| Scheduler.Schedule | cpu.h:60-104 | Running the loop for any number of turns keeps queue entries inside the table. When it reports the loop left because all work is done, every record is TERMINATED |
| Scheduler.Resume | cpu.h:62-104 | Going on after a turn keeps queue entries inside the table. A reported normal exit means every record is TERMINATED |
| SchedulerInvariants.IdleTick | cpu.h:78-85 | When nothing is ready after admission, the turn only advances the clock by one |
| SchedulerInvariants.StubPoliciesSpin | cpu.h:93-98 | Under selectors 1 and 2, whose policies are empty, once something is ready every later turn leaves the state as it is and the loop never exits |
| SchedulerInvariants.UnknownSelectorReturns | cpu.h:99-101 | An unknown selector makes the loop return as soon as something is ready |
| SchedulerInvariants.StepKeepsValid | cpu.h:62-103 | Every turn, under any selector, keeps the queue invariant |
| SchedulerInvariants.ScheduleKeepsValid | cpu.h:60-104 | Any number of turns keeps the queue invariant |
| SchedulerInvariants.ExitAtOnce | cpu.h:65-69 | Once every record is TERMINATED, the loop exits at its next test whatever the selector |
| SchedulerInvariants.StepDecreasesMeasure | cpu.h:62-103 | Under round robin with a positive slice, every turn that does not exit lowers the remaining work plus the distance to the latest arrival |
| SchedulerInvariants.IdleTickDecreases | cpu.h:78-85 | An idle tick happens only while some record has yet to arrive, so it brings the clock closer to the latest arrival |
| SchedulerInvariants.DispatchDecreases | cpu.h:213-279 | A dispatch with a positive slice lowers the remaining work |
| SchedulerInvariants.RoundRobinTerminates | cpu.h:60-104 | Under selector 0 with timeSlice >= 1, the loop exits, with every record TERMINATED, within Measure + 1 turns |
| SchedulerInvariants.FinishedReport | cpu.h:106-128 | At the exit the report shows no pid in the ready queue, and the terminated queue holds every record, with exactly as many entries as there are records |
| Scheduler.DisplayQueues | cpu.h:106-128 | The report lists, front to back, the pids of the ready queue and of the terminated queue |
| ProcessRecord.Construct | pcb.h:67-81 | A new record has the given pid, priority, arrival and run time, zero counters, an empty stack, and the counter value as its creation index. The counter moves on by one |
| ProcessRecord.New | pcb.h:67-81 | The default state is READY |
| ProcessRecord.ConstructAll | pcb.h:67-81 | Records built one after another from counter value k get creation indices k, k+1, ... |
| ProcessRecord.CreationIndicesFromZero | pcb.h:174-178 | Since the counter starts at 0, successive records are numbered 0, 1, 2, ... |
| ProcessRecord.SetPriority | pcb.h:86 | `setPriority` sets exactly the priority and changes no other field |
| ProcessRecord.SetCurrentState | pcb.h:88 | `setCurrentState` sets exactly the state and changes no other field |
| ProcessRecord.SetRemainingTimeSlice | pcb.h:103 | `setRemainingTimeSlice` sets exactly the remaining slice and changes no other field |
| ProcessRecord.SetCodeInfo | pcb.h:105-108 | `setCodeInfo` changes only the code start and length fields |
| ProcessRecord.UpdateUsedRunTime | pcb.h:91 | `updateUsedRunTime(k)` adds exactly k and changes no other field |
| ProcessRecord.UpdateUsedTimeSlice | pcb.h:100 | `updateUsedTimeSlice` adds exactly 1 and changes no other field |
| ProcessRecord.CodeInfoRoundTrip | pcb.h:105-112 | `setCodeInfo(s, l)` followed by the getters gives back (s, l) |
| ProcessRecord.BeforeIsStrictWeakOrder | pcb.h:117-120 | pcb.h's `operator<` is irreflexive and transitive, and incomparability is transitive |
| ProcessRecord.Pop | pcb.h:34-44 | Pop returns the top frame and the stack below it. On an empty stack it returns the default frame and the same stack |
| ProcessRecord.Push | pcb.h:29-32 | Push puts the frame on top and leaves the frames below it as they were |
| ProcessRecord.PushThenPop | pcb.h:29-44 | Pop right after push gives back the pushed frame and the previous stack |
| ProcessRecord.PopEmpty | pcb.h:34-49 | Popping an empty stack gives the default frame and leaves the stack empty |
| ProcessRecordVariant.New | all_pcb.h:59-71 | The variant's default state is BLOCKED, with zero counters and the next creation index |
| ProcessRecordVariant.BeforeMeansAtLeast | all_pcb.h:98-101 | The variant's a < b holds exactly when a.priority >= b.priority, the negation of pcb.h's comparison |
| ProcessRecordVariant.BeforeIsReflexiveAndTotal | all_pcb.h:98-101 | The variant's x < x always holds, so it is not a strict weak order, and for any a and b at least one of a < b and b < a holds |
| ProcessRecordVariant.ConstructedInOrder | all_pcb.h:59-71 | Records built from the initial counter are numbered 0, 1, 2, ... and start BLOCKED |
| ProgramStore.Blank | main.cpp:78 | Before loading, the store holds exactly 1026 empty lines |
| ProgramStore.Read | main.cpp:82-86 | Reading line k gives the stored line exactly when k lies inside the buffer |
| ProgramStore.Loaded | main.cpp:82-86 | After copying a program to an offset, the store keeps its size. Every program line that falls inside the buffer is at offset + i, and every line outside the copied range is unchanged |
| ProgramStore.LoadInstructions | main.cpp:80-88 | The loader writes line i of the program to offset numOfpro * 256 + i for every i that falls inside the buffer. It leaves every other line alone and records the offset and the full program length |
| ProgramStore.SlotsDisjoint | main.cpp:82-85 | Loads for distinct records, each at most 256 lines, write disjoint line ranges |
| ProgramStore.LaterLoadKeepsEarlier | main.cpp:91-95 | A later load for another record leaves an earlier program in place |
| ProgramStore.FifthSlotTruncated | main.cpp:80-95 | The fifth slot starts at line 1024, so only 2 of a 7-line program are stored, while the slot end lies beyond the buffer |
| PrioritySort.CompIsLowerPriority | main.cpp:97-98 | Under the variant operator, the comparator `!(*a < *b)` is a.priority < b.priority. It is irreflexive and transitive, and incomparability is transitive, so it is the strict weak order `std::sort` needs |
| PrioritySort.Sort | main.cpp:97-98 | The result is a permutation of the records, ordered by the comparator |
| PrioritySort.Insert | main.cpp:97-98 | Inserting into an ordered sequence keeps it ordered and adds exactly the inserted record |
| PrioritySort.SortedUnique | main.cpp:97-98 | Two ordered permutations of the same records, where priority decides the record, are equal |
| PrioritySort.AnySortAgrees | main.cpp:97-98 | Any ordered permutation `std::sort` may return, for records of pairwise distinct priorities, is the model's sort |
| MainSetup.Created | main.cpp:66-70 | The five sample records carry their constructor arguments: pid, priority, arrival time and total run time. They have zero used run time and pc 0, creation indices 0 to 4 and the BLOCKED state |
| MainSetup.FilledAsExpected | main.cpp:78-95 | After the five loads, each line holds the line of its slot's program, or is blank. This includes the fifth slot cut to two lines |
| MainSetup.ByPriorityIsOrdered | main.cpp:97-98 | The order pid 2, 4, 1, 5, 3 is a permutation of the sample records that is ordered by the comparator |
| MainSetup.SortOrder | main.cpp:66-98 | Records with the sample pids and priorities have exactly one ordered permutation, pid order 2, 4, 1, 5, 3, whatever `std::sort` does internally |
| MainSetup.Setup | main.cpp:66-98 | The store ends holding every loaded program line in its slot and blanks elsewhere. The sorted records come in pid order 2, 4, 1, 5, 3, each BLOCKED with its slot start and full program length |

## Left out

- `saveContext`/`restoreContext` (inline x86 assembly) have no meaning in the model. The `Context` register map appears only as the register map of a stack frame.
- The timer thread, `signalHandler`, `stopTimer`, `incrementTime` and the duplicate `stripComma` of all_cpu.cpp are left out. They are wall-clock and thread plumbing, and the `stripComma` is a copy.
- MessageQueue.h is left out: it is a thread hand-off queue, and the core never uses it.
- Mutex guards, `sleep_for` pauses and all `std::cout`/`std::cerr` narration are left out. They do not change the scheduler state.
- `pthread_create`/`pthread_join`/`signal` in main.cpp are left out.
- The dead fields (`inputAvailable`, `lastInstructionTime`, `parent`, `memoryUsage`) and the empty `recoverWaitingProcesses` are left out.
- `currentProcess` is not part of the state, because it is only set during a dispatch.
- FCFS_Schedule and HighestPriorityFirst_Schedule are empty in the source. They are modelled as turns that only admit.
- `codeStartIndex` and `codeLength` are left uninitialised by the constructors; the model starts them at 0.
- Integers are unbounded. The source's 32-bit `int` arithmetic on the clock, run times, program counter and slot offset is not modelled to wrap, since no value in the simulator comes near the limit. The same goes for the `long long` pid of pcb.h against the `int` pid of all_pcb.h.
- ProgramStore.Read: indexing `code` outside the buffer is undefined behaviour in the source; the model returns `None` there.
- Scheduler.Schedule: the outer `while (true)` loop runs under a fuel bound. A `Continue` result means the fuel ran out before the loop left. Termination is proved for round robin with a positive slice; for the other selectors, StubPoliciesSpin shows the loop does not exit.
- PrioritySort.AnySortAgrees: `std::sort` does not fix the order of records with equal priority. Agreement with any result is proved only when priorities are pairwise distinct, as they are for the five sample records.
- Scheduler.AddProcess: each record is assumed to be added once. The source accepts the same `PCB*` twice; both queue entries then share one record, and the second ready entry is dispatched again with 0 ticks and pushed onto the terminated queue a second time. The model appends two separate records instead.
- Scheduler.Schedule: a record added BLOCKED with used run time or program counter other than 0 never passes the admission test, so while nothing else is ready the loop idles forever and never exits. Termination is proved only for records that start with both at 0.
- Scheduler.Schedule: under selector 0 with timeSlice <= 0 a dispatch grants 0 ticks and requeues the record (SchedulerInvariants.ZeroSliceRotates), so the loop spins while the clock stands still. Termination is proved only for timeSlice >= 1.
- The queue invariant (SchedulerInvariants.Valid) is proved for records added through `addProcess` with zero used run time and program counter. Records entered in any other state are not covered.
- main.cpp's final printing loop and the `CPU::currentTime` report are narration and are left out. main.cpp builds no `CPU`, so the scheduler is not run on the sample records.
