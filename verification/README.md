# Yalnix kernel: a verified model

This project models the heart of a small Yalnix kernel and of the heap allocator it ships, and proves
what they promise. Five parts are modelled.

* **Processes, scheduler and terminals** are one step system (`KernelState`). A kernel call that blocks is
  split where `KernelContextSwitch` is called, and each process carries a tag that says where it goes on.
  Events are the system calls, the clock trap, the two terminal traps, and the continuation of a process
  that was dispatched inside the kernel. Histories record bytes sent and received, every delivery of bytes
  to a reader, births, exits and reapings. `Invariant`, `Steps` and `TtySteps` hold the invariant and the
  step theorem; `Runs`, `Scheduling`, `Reads` and `Reachable` speak of whole runs. `Answers` and `Service`
  say of each call and trap what it answers and to whom, without the functions that make up the step, and
  `Histories`, `ReadHistories` and `WriteHistories` follow a call from its event to its return.
* **The kernel as code** (`Kernel`) works in place on the kernel's data (`Machines`): eleven doubly linked
  queues and one for each process's children, which share no node (`ProcessQueue`, `Lists`, `Kids`), and
  terminal structures whose read buffers are arrays that memmove shifts down (`Ttys`). It is proved to do
  exactly the step system's steps, among them the sweep that walks the blocked queue while its callback
  unlinks nodes.
* **Frames and page tables**: `Frames`, `PageTables`, `Paging`, `Regions`, `Boot`, `StackGrowth` and
  `Forking` give each operation as a function on the kernel's memory and prove its properties;
  `Addresses` says what SetKernelBrk and growStack do to the byte at an address;
  `VirtualMemory.Memory` is the code on the real arrays; `MemoryRuns` and `BootRuns` speak of whole runs,
  `MemoryDepartures` of runs that go wrong.
* **The argument block** that `LoadProgram` builds (`ArgBlock`), on byte memory, and its place in the rebuilt
  page table (`NewProgram`).
* **The heap allocator**: `HeapBlocks` and `HeapCalls` on block lists, `HeapImage` for block headers in
  byte memory, `HeapAllocator.Allocator` for the code that reads and writes those bytes through pointers,
  and `HeapUse` for a program that fills its blocks between two calls.

## Where the code departs from its intent

`Invariant.Good` names the three kernel steps that can break the invariant, as conditions on the state
before the step, and `TtySteps.StepIff` proves that exactly these do; `Departures` gives a run for each.

1. `waiting_for_child_pid` starts at -1, but Exit tests it for nonzero: a parent that has never waited is
   enqueued a second time. The initial value is a parameter of the model; with 0 this cannot happen, and
   `Reachable.ReachableIff` says exactly which runs from boot stay good.
2. A forked child learns its parent only when it first runs, which can be after the parent was freed.
3. A woken writer that gets no buffer wakes the next writer without taking it out of `blocked_queue`.

In the memory, two calls can break soundness, and `MemoryRuns.CallInvIff` and `MemoryRuns.RunIff` prove
that these are the only ones, and exactly when. Each of the other departures has its exact condition too.

4. `LoadProgram` never looks at what `allocFrame` returns (`Regions.RebuildIff`; run:
   `MemoryDepartures.NoFramesDeparture`).
5. `InitializeKernelStackIdle` never looks at what `allocSpecificFrame` returns (`Boot.IdleStackIff`). After
   what the boot code does first, in any order, it goes wrong exactly when the break at boot is 126 and the
   user page was taken (`BootRuns.BootIdleIff`; run: `MemoryDepartures.IdleDeparture`); with a break of at
   most 125 it never does.
6. The highest break `SetKernelBrk` allows reaches the source scratch page, so that copying a page drops a
   page of the kernel heap (`Regions.HeapSurvivesClone`). CopyPT drops it exactly when it copies a page at
   all; a fork that gets past CopyPT always does, since it copies the kernel stack
   (`Forking.CopyDropsHeapIff`, `Forking.ForkHeapIff`; run: `MemoryDepartures.HighBreakDeparture`).
   A failed `SetKernelBrk` keeps what it mapped, unless it refuses the address or finds no frame
   (`Regions.FailedBrkIff`), and a later call that grows over those pages leaks their frames
   (`Regions.BrkLeaks`; run: `MemoryDepartures.FailedBrkDeparture`). An address above 0xFFFFE000 rounds up
   to 0 in 32 bits: the call then succeeds and unmaps the whole heap (`Addresses.BreakWraps`).
7. Fork does not copy the stack base, so the first stack growth of a child runs up to the end of the region.
   It keeps the child's pages exactly when the parent had none from the fault page on; otherwise those
   pages are lost and their frames leak (`StackGrowth.ForkedChildGrows`; run:
   `MemoryDepartures.LostStackDeparture`). `growStack` itself gives back everything exactly when the pages
   it tried were not mapped (`PageTables.GrowStackGivesBack`).
8. `realloc` of a block that was freed frees what it has just allocated exactly when that block is the last
   one and the heap has to grow (`HeapCalls.ReallocFreedIff`; input: `HeapCalls.ReallocFreedLoses`).

## Model

| member | source | states |
|---|---|---|
| `Runs.RunIff` | src/traps/trap.c:42-180 | all states of a run satisfy the kernel invariant exactly when each of its steps is a good one |
| `TtySteps.StepIff` | src/syscalls/process.c:62-228 | a step from a good state leads to a good state if and only if it is none of the three departures |
| `Runs.InitialInv` | src/kernel.c:44-116 | the state KernelStart leaves behind is good, with the flag at -1 or at 0 |
| `Runs.ExitAlwaysGood` | src/syscalls/process.c:118-144 | while the flag starts at 0, Exit from a good state is a good step |
| `Reachable.StepFlag` | src/proc.c:65 | no step changes the value a new flag starts with |
| `Reachable.ReachableIff` | src/syscalls/process.c:62-228 | in a run from boot with the flag starting at 0, all states are good exactly when every child first runs while its parent's PCB exists and every woken writer gets its buffer or leaves nobody waiting |
| `Runs.OnePlace` | src/syscalls/process.c:118-228 | every unreaped process but idle is in exactly one place: running, ready once, blocked once, waiting in Wait, or zombie once; idle is in no queue |
| `Runs.NoLostWakeup` | src/syscalls/process.c:154-172 | a process blocked in Wait has no zombie child |
| `Runs.ResumedWaitReaps` | src/syscalls/process.c:178-192 | a process resumed inside Wait always finds a zombie child of its own, so the final ERROR is unreachable |
| `Runs.ReapedOnce` | src/syscalls/process.c:157-164 | over any run a child is reaped at most once, with the status recorded when it exited; that this is the one it passed to Exit is `Histories.ExitStatus` |
| `Histories.ExitStatus` | src/syscalls/process.c:126-164 | over any run: after a process other than init called Exit(st), every reaping of it hands out st |
| `Histories.ReapedExited` | src/syscalls/process.c:157-164 | over any run: every reaped child called Exit with the status handed out earlier in the run, or had exited with it before the run began |
| `Histories.ForkReturnsTwice` | src/syscalls/process.c:91-100 | over any run: Fork returns to the caller at once with the child's pid, which was not in the table; and when the child is first dispatched, to it, with 0 and the caller as its parent |
| `Answers.ForkAnswers` | src/syscalls/process.c:91-96 | the caller goes on with the child's pid in register 0; the child is new, last in ready_queue, a child of the caller, and nobody else changes |
| `Answers.ChildAnswers` | src/syscalls/process.c:97-100 | the child gets 0 and its parent exactly when the parent's PCB is still there |
| `Answers.ExitAnswers` | src/syscalls/process.c:118-143 | Exit leaves a zombie with that status, readies exactly a parent that waits, and dispatches the head of ready_queue; init's exit halts |
| `Answers.WaitAnswers` | src/syscalls/process.c:147-176 | Wait fails exactly when the caller has no child, reaps the first zombie child in the queue when there is one, with its pid and status, and waits only when there is none |
| `Answers.WaitResumes` | src/syscalls/process.c:178-192 | resumed, Wait reaps the first zombie child in the same way |
| `Answers.DelayAnswers` | src/syscalls/process.c:201-228 | Delay(0) returns 0 at once, below -1 the machine halts, and any other waits with its ticks |
| `Histories.DelayReturns` | src/syscalls/process.c:201-228 | over any run: a Delay that waited returns 0 when its caller is next dispatched |
| `Answers.ClockAnswers` | src/traps/trap.c:15-40 | a clock trap takes one tick from every delay, readies those due in order, sends the current process unless idle to the end of the line and dispatches the head; with nobody in line the current process goes on |
| `Family.ResumedWaitFinds` | src/syscalls/process.c:178-192 | the second scan of Wait finds a child |
| `Family.ExitFamily` | src/syscalls/process.c:126-135 | Exit keeps the family relations: parents, children queues, zombies, flags |
| `Family.ReapFamily` | src/proc.c:74-97 | reaping orphans the dead process's children and keeps every other family relation |
| `Steps.ForkInv` | src/syscalls/process.c:91-97 | Fork's parent side keeps the invariant; what it returns is `Answers.ForkAnswers` |
| `Steps.FirstRunInvIff` | src/syscalls/process.c:97-100 | a child's first run keeps the invariant exactly when its parent's PCB still exists |
| `Steps.ExitInvIff` | src/syscalls/process.c:126-139 | Exit keeps the invariant exactly when the parent does not carry the flag -1 |
| `Steps.WaitInv` | src/syscalls/process.c:147-172 | Wait keeps the invariant whether it reaps, blocks or fails |
| `Steps.WaitAgainInv` | src/syscalls/process.c:178-194 | so does its second half |
| `Steps.DelayStepInv` | src/syscalls/process.c:201-228 | so does Delay |
| `Steps.VisitAllInv` | src/traps/trap.c:344-354 | the sweep over blocked_queue keeps the invariant although it changes the queue |
| `Steps.ClockInv` | src/traps/trap.c:15-40 | the clock trap keeps the invariant |
| `Scheduling.BoundedWaiting` | src/traps/trap.c:23-36 | the process at index k of ready_queue is dispatched at exactly the (k+1)-th later dequeue, and k+1 clock traps suffice, whatever else happens |
| `Scheduling.RunForward` | src/traps/trap.c:23-36 | over a run, dispatched processes followed by ready_queue only grow at the end |
| `Scheduling.DelayCall` | src/syscalls/process.c:201-228 | after Delay(n) the caller is blocked until the n-th later clock trap, which makes it ready; Delay(-1) never ends |
| `Scheduling.DelayExact` | src/traps/trap.c:344-354 | from any state on, a process with d ticks left is blocked until the d-th clock trap, which makes it ready |
| `Scheduling.DelayStep` | src/traps/trap.c:344-354 | only clock traps count down a delay, by one each |
| `Scheduling.SweepDelay` | src/traps/trap.c:344-354 | the sweep visits each blocked process once although it removes some on the way |
| `Runs.WholeMessagesInOrder` | src/syscalls/tty.c:91-152 | the bytes sent to a terminal are whole messages in TtyWrite call order followed by write_buffer[..position] of the current one; waiting writers imply in_use and stand in call order |
| `Runs.OneHolder` | src/traps/trap.c:269-290 | no two processes are ever entitled to a terminal, also between hand-over and the next writer running |
| `Runs.TrapsPerMessage` | src/traps/trap.c:241-292 | a message of L bytes completes after exactly ceil(L / TERMINAL_MAX_LINE) transmit traps |
| `Runs.RunPaced` | src/traps/trap.c:246-254 | transmit traps answer TtyTransmit calls one to one, and finished messages stay finished in order |
| `Runs.StepPaced` | src/syscalls/tty.c:26-29 | a step makes at most one TtyTransmit call, never while one is outstanding, with 1 to TERMINAL_MAX_LINE bytes |
| `Terminals.ChunksAreTheMessage` | src/traps/trap.c:246-254 | the chunks of a message put together are the message, each nonempty and within the line limit |
| `Terminals.WireIsMessages` | src/traps/trap.c:246-254 | the chunks sent so far spell the finished messages and the sent part of the current one |
| `TtySteps.WriteInv` | src/syscalls/tty.c:91-152 | TtyWrite keeps the invariant in all its branches |
| `TtySteps.LockResumeInvIff` | src/syscalls/tty.c:117-147 | a writer woken to take the terminal keeps the invariant exactly when it gets its buffer or nobody else waits |
| `TtySteps.GiveUpBreaks` | src/syscalls/tty.c:126-138 | giving up while others wait puts the next writer into ready_queue and leaves it in blocked_queue |
| `TtySteps.TransmitInv` | src/traps/trap.c:241-292 | the transmit trap keeps the invariant, mid-message and at hand-over |
| `TtySteps.ReadInv` | src/syscalls/tty.c:33-89 | TtyRead keeps the invariant |
| `TtySteps.ReceiveInv` | src/traps/trap.c:294-341 | the receive trap keeps the invariant whatever its mallocs answer |
| `Runs.ReadsConserved` | src/traps/trap.c:294-341 | the bytes a terminal handed to readers, in order, followed by its read buffer are the bytes it received; what a process was handed is what reached its user buffers plus its stash; waiting readers imply an empty buffer; how many bytes each reader gets is `ReadHistories.ReadReturns` |
| `ReadHistories.ReadReturns` | src/syscalls/tty.c:33-88 | over any run: a TtyRead of len bytes that had to wait is handed bytes exactly once before its caller's next turn, by a receive trap of that terminal, and these are the first min(len, n) of the n > 0 bytes received and not yet handed out, or none when malloc fails; it returns with those bytes and their number |
| `Answers.ReadAnswers` | src/syscalls/tty.c:33-89 | a bad TtyRead fails; one that finds bytes returns the first min(len, n) and leaves the rest, or fails without memory; any other waits with its length at the end of the terminal's queue |
| `Service.ReceiveAnswers` | src/traps/trap.c:294-341 | a receive trap serves the first readers in order, each with as many of the bytes left as it asked for or none when its malloc fails, readies exactly those, and stops only when no reader or nothing is left |
| `Service.LeftIsBuffer` | src/traps/trap.c:294-341 | what a terminal has received and not yet handed out is what stands in its read buffer |
| `WriteHistories.WriteReturns` | src/syscalls/tty.c:91-152 | over any run: a TtyWrite that had to wait returns the length of its message, and then that message is among those finished since the call; or ERROR, when it was handed the terminal and malloc failed |
| `Answers.WriteAnswers` | src/syscalls/tty.c:91-152 | a bad TtyWrite fails; on a terminal in use it waits at the end of the queue; else its first line is sent, or it fails without memory and leaves the terminal as it was |
| `Answers.LockAnswers` | src/syscalls/tty.c:117-147 | a writer handed the terminal sends its first line, or gives up its call and the terminal |
| `Answers.TransmitAnswers` | src/traps/trap.c:241-292 | a transmit trap sends the next line of the message, or readies the writer with the length of the message and then the longest waiting writer, which holds the terminal from then on; without one it is free |
| `Reads.StepLine` | src/traps/trap.c:304-340 | blocked readers served so far followed by those waiting only grow, by exactly the reader a step makes wait, at the end |
| `Reads.ServedInOrder` | src/traps/trap.c:304-340 | over any run the reader at index k of a terminal's queue is the (k+1)-th blocked reader served from then on |
| `Departures.FlagDeparture` | src/proc.c:65 | a run in which the initial flag -1 puts init in two places at once |
| `Departures.FreedParentDeparture` | src/syscalls/process.c:99 | a run in which a child first runs after its parent was freed |
| `Departures.NoBufferDeparture` | src/syscalls/tty.c:126-138 | a run in which a woken writer without a buffer puts the next one in two places at once |
| `Kernel.Step` | src/traps/trap.c:42-180 | on every event the code, on linked queues and arrays, does the step system's step, and its state stays good exactly on good events |
| `Kernel.FindZombie` | src/syscalls/process.c:154-167 | the walk along the linked zombie queue finds the first zombie whose parent pid is the current pid, if any |
| `Machines.Freed` | src/proc.c:74-97 | the walk along the linked children queue leaves exactly its members without their parent, and only the dead process leaves the table |
| `Kernel.SweepBlocked` | src/queue.c:105-116 | the walk along the linked blocked queue with the successor saved visits each process that was there at the start once, in order, although the callback unlinks nodes from that queue |
| `Kernel.SweepOne` | src/queue.c:110-114 | the saved successor is still a node of the queue, or NULL at its end, and what is left to visit from it is what was left before |
| `Kernel.ServeReaders` | src/traps/trap.c:304-340 | the loop hands bytes to one reader after the other from the head of the linked queue until buffer or queue is empty, whatever malloc answers |
| `Ttys.Tty.Take` | src/traps/trap.c:311-331 | memcpy gives the first n bytes of the read buffer, and memmove in place leaves exactly the others |
| `Ttys.Tty.Receive` | src/traps/trap.c:298-299 | the received bytes follow those already in the read buffer |
| `ProcessQueue.Queue.Enqueue` | src/queue.c:54-79 | appends to the sequence and keeps all links, or does nothing when the node cannot be allocated |
| `ProcessQueue.Queue.Dequeue` | src/queue.c:81-103 | takes the head of the sequence and keeps all links |
| `ProcessQueue.Queue.Remove` | src/queue.c:26-52 | deletes the first occurrence, or nothing, and keeps all links |
| `ProcessQueue.Queue.Contains` | src/queue.c:132-148 | membership in the sequence |
| `Frames.FirstFreeSome` | src/mem.c:14-24 | allocFrame finds a frame exactly when the number of free frames is not zero, and a free one |
| `Frames.TakeSound` | src/mem.c:14-24 | handing out a free frame keeps the memory sound, and nothing names that frame |
| `Frames.ReleaseSound` | src/mem.c:42-50 | freeing an unnamed frame keeps the memory sound exactly when it was not free already |
| `Frames.CloneSound` | src/mem.c:109-138 | CloneFrame keeps the memory sound and maps nothing new |
| `Paging.CopyUpToIs` | src/mem.c:140-171 | CopyPT succeeds exactly when there are as many free frames as valid entries; the copied entries have fresh frames, the same bytes and protection; a failure keeps what was copied |
| `Paging.CopyUpToSound` | src/mem.c:140-171 | CopyPT keeps the memory sound, whether it succeeds or not |
| `Paging.ForkReads` | src/mem.c:140-171 | after a copy into an empty table every address reads the same through parent and child as it did before |
| `Paging.ForkIsolates` | src/mem.c:140-171 | from then on, after any writes through any tables, region 0 with its window on the current kernel stack among them, each of the two reads the old bytes overwritten by its own writes only |
| `Paging.WritesStayApart` | src/mem.c:140-171 | in a memory where no frame is named twice, every address of every table reads as if it were alone; an address in the window is the address of the kernel stack shown there |
| `PageTables.MapRangeIs` | src/traps/trap.c:365-382 | mapping n pages takes exactly n free frames, maps exactly those pages, and changes nothing else |
| `PageTables.MapRangeSound` | src/traps/trap.c:365-382 | and keeps the memory sound |
| `PageTables.DropRangeIs` | src/kernel.c:449-454 | dropping a range unmaps it and frees exactly the frames it named |
| `PageTables.GrowStackGrows` | src/traps/trap.c:365-385 | with frames enough, growStack maps exactly the pages from the fault page to the stack base to new frames |
| `PageTables.GrowStackGivesBack` | src/traps/trap.c:367-377 | out of frames, frame usage, free count and all other tables are as before, and the valid bits of this table exactly when none of the pages tried was mapped |
| `StackGrowth.GrowStackKeepsIff` | src/traps/trap.c:365-385 | with frames enough, every page that was mapped is as before exactly when none of the pages grown over was mapped |
| `StackGrowth.GrowStackLeaks` | src/traps/trap.c:379-381 | the frame of a page grown over stays taken although no table names it |
| `StackGrowth.ForkedChildGrows` | src/proc.c:46 | the first stack growth of a forked child keeps its pages exactly when the parent had none from the fault page on; otherwise all of those are lost with the bytes copied into them |
| `Regions.BrkIs` | src/kernel.c:232-295 | in pages: when SetKernelBrk succeeds, and what it maps, unmaps, frees or leaves alone in each case, also when it refuses or fails half-way; which page an address means is `Addresses.BreakIs` |
| `Addresses.BreakIs` | src/kernel.c:232-295 | in addresses, up to 0xFFFFE000: accepted exactly when not 0, at most (KSTACK_START - 1) * PAGESIZE, and within the frames there are; the break is then the first page boundary not below the address; a refused address changes nothing |
| `Addresses.BreakBytes` | src/kernel.c:250-290 | after a successful call every byte of region 0 from the old break up to the new one has a page to read and write in a frame that was free, every byte from the new one up to the old one has none, and the others are as before |
| `Addresses.HeapReaches` | src/kernel.c:240-265 | so every byte from the old break up to the address asked for can be used |
| `Addresses.BreakWraps` | src/kernel.c:240 | above 0xFFFFE000 the rounding wraps around: the call succeeds, the break is 0 and every page below the old one is unmapped |
| `Addresses.StackBytes` | src/traps/trap.c:356-385 | with frames enough, growStack gives every byte from the page of the fault up to the page of the stack base a page to read and write in a frame that was free, and leaves all others |
| `Regions.FailedBrkIff` | src/kernel.c:254-265 | a call that fails changes nothing exactly when the address is refused or no frame is free |
| `Regions.BrkLeaks` | src/kernel.c:254-265 | growing over a page left mapped above the break leaks its frame |
| `Regions.BrkKeepsIff` | src/kernel.c:254-265 | a call that grows the heap keeps every mapped page exactly when none above the break was mapped |
| `Regions.BrkSound` | src/kernel.c:232-295 | every outcome of SetKernelBrk leaves the memory sound |
| `Regions.ShrinkIs` | src/kernel.c:268-290 | shrinking unmaps exactly the pages above the new break |
| `Regions.ShrinkFrees` | src/kernel.c:281-289 | and frees as many frames as were mapped there |
| `Regions.HeapSurvivesClone` | src/include/mem.h:10-11 | a heap mapped up to the break survives CloneFrame exactly when the break is not above the source scratch page |
| `Regions.HighestBreak` | src/kernel.c:243-248 | SetKernelBrk does let the break get one page higher than that |
| `Regions.RebuildIff` | src/kernel.c:448-504 | LoadProgram's rebuild leaves a sound memory exactly when the free frames and those of the old program cover the new one |
| `Regions.RebuildLaid` | src/kernel.c:448-553 | the new table then maps exactly text, data and stack with their protections, to frames marked as a user's, and no other table and no byte changed |
| `Regions.Gap` | src/kernel.c:395-399 | at least one page lies between data and stack, and those are unmapped unless the text reaches there |
| `Regions.AddStackIs` | src/kernel.c:213-230 | a new kernel stack gets two fresh frames and the window on the current one does not move |
| `Regions.SwitchToIs` | src/kernel.c:127-135 | a switch moves the window to the next stack and keeps the memory sound |
| `Regions.CopyStackIs` | src/kernel.c:164-170 | the child's kernel stack holds the parent's bytes, and no other frame changed |
| `Boot.IdleStackIff` | src/kernel.c:195-211 | the idle stack leaves a sound memory exactly when no entry names frames 126 and 127 yet |
| `BootRuns.IdleAfterBoot` | src/kernel.c:203 | from boot on, while frames are only taken, 126 and 127 are free exactly when at most 126 frames were taken |
| `BootRuns.BootIdleIff` | src/kernel.c:44-78 | however the boot code interleaves page tables, heap growth and at most one user page, the idle stack then leaves a sound memory exactly when the break at boot and the user page come to at most 126 |
| `MemoryRuns.CallInvIff` | src/kernel.c:448-504 | every call keeps the memory sound and region 0's window equal to the current kernel stack, except a program loaded without frames enough and an idle stack whose frames are in use |
| `MemoryRuns.RunIff` | src/mem.c:14-171 | in every run from a sound memory, all states have a right count, backed entries, no frame named twice and the current kernel stack in region 0's window exactly when every program loaded and the idle stack found their frames |
| `MemoryDepartures.NoFramesDeparture` | src/kernel.c:466-504 | a run from boot to a program loaded without frames enough |
| `Forking.CopyDropsHeapIff` | src/mem.c:140-171 | CopyPT unmaps the heap page at the source scratch page exactly when the parent has a mapped page and there is a free frame |
| `Forking.ForkHeapIff` | src/syscalls/process.c:75-88 | a heap mapped up to the break survives a whole fork, kernel stack included, exactly when the break is not above the source scratch page or the fork failed before it copied anything |
| `Forking.ForkGoes` | src/syscalls/process.c:75-88 | with frames enough a fork goes through and leaves a sound memory, and so does one that fails in CopyPT |
| `MemoryDepartures.HighBreakDeparture` | src/kernel.c:243-248 | a run from boot to the highest break and a CopyPT that then drops a heap page below it |
| `MemoryDepartures.FailedBrkDeparture` | src/kernel.c:254-265 | a run from boot with a call that fails and keeps pages, and a later one that leaks their frames |
| `MemoryDepartures.IdleDeparture` | src/kernel.c:203 | a run from boot in which the idle stack and the user page name one frame |
| `MemoryDepartures.LostStackDeparture` | src/proc.c:46 | a run from boot in which a child reads its parent's byte, grows its stack, and reads another |
| `VirtualMemory.Memory.constructor` | src/init.c:38-104 | the boot code leaves exactly the memory Booted: frames below the kernel break taken, pages up to the original break mapped where they were loaded; it is sound exactly when the kernel break is not below the original one or nothing is mapped below that |
| `Boot.BootSoundIff` | src/init.c:38-104 | that condition, on the memory as a value |
| `VirtualMemory.Memory.AllocFrame` | src/mem.c:14-24 | hands out the lowest free frame, or -1 |
| `VirtualMemory.Memory.AllocSpecificFrame` | src/mem.c:26-40 | hands out that frame exactly when it exists and is free |
| `VirtualMemory.Memory.FreeFrame` | src/mem.c:42-50 | frees a frame that exists |
| `VirtualMemory.Memory.CloneFrame` | src/mem.c:109-138 | copies the page byte by byte through region 0's scratch pages and leaves both unmapped |
| `VirtualMemory.Memory.CopyPT` | src/mem.c:140-171 | the memory changes exactly as by all rounds of CopyUpTo, and stays sound |
| `VirtualMemory.Memory.GrowStackTo` | src/traps/trap.c:356-386 | exactly GrowStack from the page of the address, sound either way; the stack base moves exactly on success |
| `VirtualMemory.Memory.SetKernelBrk` | src/kernel.c:232-295 | result and memory are exactly those of Regions.SetKernelBrk, also on its error paths; in addresses, it succeeds exactly for those of `Addresses.BreakIs`, with the break on the first page boundary not below the address |
| `VirtualMemory.Memory.LoadRegion1` | src/kernel.c:448-553 | exactly Rebuild, and sound afterwards exactly when the frames sufficed |
| `VirtualMemory.Memory.NewKernelStack` | src/kernel.c:213-230 | a new stack with two frames of its own, exactly when two are free |
| `VirtualMemory.Memory.IdleKernelStack` | src/kernel.c:195-211 | exactly IdleStack, whatever allocSpecificFrame answers |
| `VirtualMemory.Memory.SwitchStack` | src/kernel.c:127-135 | only the window moves, and the memory stays sound |
| `VirtualMemory.Memory.CopyKernelStack` | src/kernel.c:164-170 | exactly CopyStack, and the memory stays sound |
| `ArgBlock.ArgumentsArrive` | src/kernel.c:582-594 | for every argument list that passes the check, the block reads back as exactly argc and those strings, and nothing below the stack pages changed |
| `ArgBlock.BlockReads` | src/kernel.c:584-591 | the finished block reads back as the arguments |
| `ArgBlock.BlockEnds` | src/kernel.c:593-594 | NULL pointers end argv and envp |
| `ArgBlock.Geometry` | src/kernel.c:350-399 | the block lies in the stack pages, which are as few as can be; the pointer array ends before the strings; a page is left between data and stack |
| `ArgBlock.FitsIff` | src/kernel.c:365-399 | an argument list is taken exactly when some double word leaves room above it for argc, the pointers, two NULLs, the space and the strings, and below it for a page above the data; the stack pointer is the highest such place |
| `ArgBlock.BlockStrings` | src/kernel.c:584-591 | the finished block ends in the strings, one behind the other, each with its NUL |
| `ArgBlock.SaveArgs` | src/kernel.c:421-435 | the saved copy holds every argument at its offset |
| `ArgBlock.BuildBlock` | src/kernel.c:582-594 | argc, pointers, zeros and strings are in place, and nothing below the stack pointer changed |
| `ArgBlock.LayOut` | src/kernel.c:350-389 | the loop and the address arithmetic give the block's place and its number of stack pages |
| `ArgBlock.LoadArgs` | src/kernel.c:350-435 | error exactly when the check fails, kill exactly when the copy cannot be allocated, and otherwise the block at the computed stack pointer |
| `NewProgram.BlockWritableIff` | src/kernel.c:497-552 | in the rebuilt address space every address of the argument block can be written exactly when the text does not reach into the stack pages |
| `NewProgram.BlockLands` | src/kernel.c:582-594 | stored byte by byte through the rebuilt table, the block reads back at every address from the stack pointer to the end of the region, and every other place of every page table reads as before |
| `HeapCalls.EveryRun` | sample/new_heap.c:325-589 | after any sequence of malloc, free and realloc the blocks tile the heap, used <= size, and no two adjacent blocks are free |
| `HeapCalls.HistoryIndependent` | sample/new_heap.c:325-589 | two histories that end with the same range and live blocks end with the same block list |
| `HeapBlocks.CanonicalForm` | sample/new_heap.c:310-321 | a coalesced tiling is determined by its range and its live blocks |
| `HeapCalls.MallocInv` | sample/new_heap.c:391-484 | malloc keeps the heap well-formed and all other live blocks, and fails exactly when told to or when nothing fits and the heap cannot grow; the block has len and a word to spare in whole words, and less than a block's worth over that |
| `HeapCalls.MallocFirst` | sample/new_heap.c:426-437 | no free block at a lower address would have held the request |
| `HeapCalls.MallocSplits` | sample/new_heap.c:270-306 | the block found is split exactly when what is left over is worth a block |
| `HeapCalls.GrowsOnlyWhenNeeded` | sample/new_heap.c:426-453 | malloc grows the heap only when no contiguous free run, headers included, fits the rounded request |
| `HeapCalls.MallocThenFree` | sample/new_heap.c:325-437 | freeing what malloc returned restores the block list exactly, up to growth |
| `HeapCalls.FreeInv` | sample/new_heap.c:325-387 | free takes exactly the addressed block out of the live ones, and does nothing for an address in no block or in a free one |
| `HeapCalls.ReallocInv` | sample/new_heap.c:504-589 | realloc keeps the heap well-formed and coalesced on every path; what it leaves the caller is `HeapCalls.ReallocGives` |
| `HeapCalls.ReallocGives` | sample/new_heap.c:553-588 | realloc of a live block stays in place exactly when there is room there or in a free block behind, and then leaves that block with size_used equal to the request; fails exactly when it has to move and malloc fails, and then changes nothing; otherwise the block at the result has request <= size_used <= size, and the other live blocks are the old ones but the one resized |
| `HeapUse.ReallocateTwice` | sample/new_heap.c:504-589 | realloc to n bytes, the n bytes are written, realloc to m: the first min(n, m) bytes written are at the new place, or all of them at the old one when the second call fails |
| `HeapCalls.ReallocFreedIff` | sample/new_heap.c:578-588 | realloc to more than a freed block holds returns a live block exactly when the heap does not have to grow or that block is not the last; otherwise the live blocks are those of before |
| `HeapCalls.ReallocFreedLoses` | sample/new_heap.c:578-588 | a heap on which the pointer realloc returns is to free memory |
| `HeapBlocks.CoalesceWell` | sample/new_heap.c:310-321 | garbage collection keeps the tiling and the live blocks |
| `HeapBlocks.CoalesceCoalesced` | sample/new_heap.c:310-321 | after it no two adjacent blocks are free |
| `HeapBlocks.PayloadsDisjoint` | sample/new_heap.c:353-380 | payloads of different blocks are disjoint |
| `HeapImage.SanityHolds` | sample/new_heap.c:97-135 | the headers in memory pass the allocator's own sanity check: magics, links, sizes |
| `HeapImage.MergeImage` | sample/new_heap.c:249-257 | the writes of a merge leave the headers of the merged list |
| `HeapImage.SplitImage` | sample/new_heap.c:295-305 | the writes of a split leave the headers of the split list |
| `HeapImage.AppendImage` | sample/new_heap.c:462-463 | linking a new last block leaves the headers of the longer list |
| `HeapAllocator.Allocator.constructor` | sample/new_heap.c:340-343 | init_heap leaves one free block over the whole range, laid out in memory |
| `HeapAllocator.Allocator.MergeFreePair` | sample/new_heap.c:221-261 | merges two free neighbours, or steps on; no live payload byte changes |
| `HeapAllocator.Allocator.GarbageCollect` | sample/new_heap.c:310-321 | terminates, merges exactly the runs of free blocks, and changes no live payload byte |
| `HeapAllocator.Allocator.SplitFreeBlock` | sample/new_heap.c:270-306 | a free block that is large enough becomes two, any other stays; no live payload byte changes |
| `HeapAllocator.Allocator.Release` | sample/new_heap.c:325-387 | free: the block list becomes exactly FreeAt of the old one, and no byte of a payload still live changes |
| `HeapAllocator.Allocator.GrowHeap` | sample/new_heap.c:452-460 | one unlinked free block from the old heap_end to the new one, or NULL |
| `HeapAllocator.Allocator.Allocate` | sample/new_heap.c:391-484 | malloc: result and block list are exactly Malloc of the old list, and no byte of a live payload changes |
| `HeapAllocator.Allocator.Resize` | sample/new_heap.c:553-588 | realloc of any block: the first min(used, size) bytes survive on all three paths, other payloads keep every byte, NULL leaves everything as it was |
| `HeapAllocator.Allocator.Reallocate` | sample/new_heap.c:504-589 | realloc of any pointer, live, freed or foreign: result and block list are exactly Realloc of the old list, the bytes are carried over, and no other live payload changes; of NULL or a live pointer, the block at the result has request <= size_used <= size, beside the other live blocks of before, or nothing changed |

## Left out

- Fork: the page-table copy is in `Paging`; the kernel context and the user registers other than register 0 are not modelled.
- Kernel.Step: assumes that queue nodes can always be allocated; only `ProcessQueue.Queue.Enqueue` models the failure. PCB fields are values in a map, and a children queue is made when the first child is born.
- VirtualMemory.Memory.SetKernelBrk: the soundness of every outcome is stated by `Regions.BrkSound` about the same function.
- ArgBlock.LoadArgs: `int size` is unbounded here, so argument lists of 2 GB or more, where it overflows, are not covered.
- Regions.RebuildIff: a text section that does not lie in region 1, where LoadProgram would write behind the page table, is not modelled.
- TtyTransmit and TtyReceive: a transmit trap only follows an outstanding TtyTransmit, and TtyReceive returns at most the bytes it was offered.
- owner_pid in the frame table: the code stores -1 always.
- init_heap and grow_heap: as in .yalnix/etc/yuserlib/yuser/libc.c; the allocator is modelled after init_heap ran.
- Process ids: `helper_new_pid` is assumed to give fresh ones.
- Frames and process-table slots of dead processes: the code does not reclaim them, and nothing here says that every allocated frame is mapped.
- Brk: its shrink loop tests the wrong table and moves its cursor the wrong way.
- Exec beyond `LoadProgram`'s argument block and page layout; reading the file, `bzero` of bss.
- UP_TO_PAGE and DOWN_TO_PAGE: the hardware's header is not part of this model; they are taken to round in 32-bit unsigned arithmetic.
- TLB flushes, registers, kernel contexts and trace output: hardware.
- `calloc` and the diagnostics: thin wrappers and printing.
- Pipes, locks and condition variables: empty in the source.
