# Verified model of the emulator core

A Dafny model of the parts of this user-mode x86 emulator that carry invariants over whole runs, with
machine-checked proofs. Seven components are modelled, each as a specification on values, the proofs about
it, and a class whose methods change state step by step as the source does and are proved equal to the
specification.

| files | component |
|---|---|
| Schedule, ScheduleRuns, TimerLifetimes, SequentialClock, PcSystem | the virtual-time scheduler taken from Bochs |
| PageHeap, HeapUpdates, Memory | DOSBox's page allocator: handle chains inside one array |
| SoftTlb, TlbProofs, HostAccess, PagingUnit, TlbBanks | DOSBox's software TLB over two-level page tables |
| Bits, LazyFlags, FlagProofs, Ia32Flags, ShiftProofs, ShiftFlags, LimbChains, AluUnit | lazy condition flags and the ALU macros |
| CpuState, FarTransfers, PrivilegeProofs, StackWords, StraightTransfers, GateProofs, GateFrames, InterruptProofs, InterruptFrames, IretFrames, InterruptTrips, TransferFaults, SegmentLoads, DescriptorLayout, TaskProofs, TaskReturns, TaskJumps, SmallMachine, SmallTasks, SmallJumps, X86Cpu | protected-mode far transfers |
| PrefetchQueue, PrefetchUnit | the prefetch queue |
| LinkedLists, RadixTable, StackPool, StackOwners, StackUnit | the emulator's stacks, their exit notifications, and the containers they use |
| Words | the word sizes all of them share |

`dafny verify dfyconfig.toml` checks everything.

## How the source is read

**Scheduler.** 64-bit tick counts and the 32-bit countdown wrap explicitly. A callback is a function of
the history and the schedule it sees to the commands it issues (arm, disarm); a run is any sequence of
elapsed ticks, commands, registrations and unregistrations. Times stay in the signed 64-bit range to
which `time_usec` casts them; `WrappedDeadlineIsMissed` shows that a bound is needed.

**Page allocator.** In this build `memory.cpp:572` leaves the handle array null; the model allocates it.
The inner test at `memory.cpp:305` reads one past the last page, so the array ends in a non-zero
sentinel. `XMS_START` is 0x110 (`include/paging.h:38`). The chains of the live handles are ghost state.
The model's `ram` is twice as long as the emulated memory: its upper half stands for the host memory
behind it, which the move of a scattered block reads when the handle plus its page count passes the last
page.

**Software TLB.** The full-table variant (`USE_FULL_TLB`) is modelled, with `PAGING_LINKS` 32768 and
`LINK_START` 1; TlbBanks models the lookup of the banked variant. Accesses go through the TLB as the
inline functions named at `include/paging.h:263-278` would; the macros of this build at 280-292 bypass it.
A page fault ends the run, because `DOSBOX_RunMachine` exits (`dosbox_emu.cpp:194-197`).

**Flags.** Words are natural numbers and every truncation is written out. One operation type with a width
stands for the three macros of each group.

**Far transfers.** The conditions under `CPU_CHECK_COND` are evaluated and ignored, as in the release
build (`cpu.cpp:99-106`); an address past a descriptor table leaves the zero descriptor, as the
constructor of `Descriptor` does. Descriptors, TSS fields and stacks live in one linear memory of bytes
with addresses modulo 2^32. `CPU_Exception` always ends the branch that calls it, so it is an outcome;
in a run it is delivered before the next transfer. `E_Exit` ends a run. SmallMachine makes the call-gate
and the interrupt round trip, SmallTasks and SmallJumps the two task round trips, so the assumptions of these
theorems can be met. StackWords treats pushes and pops at either width on stacks of either size, with the
wrap of a 16-bit stack. The code for a gate beyond the IDT is 0 for every number, since `?:` binds less tightly than `+`
at `cpu.cpp:593`.

**Stacks.** Every list operation is one atomic step; the steps of any number of threads interleave freely.
An exception that unwinds an activation (`dosbox_emu.cpp:182-187`) is a step too. A stack's owner is the
pool, one activation of a thread that does not exit, or the list an exiting thread is draining.

## Where the code does less than it is for

Each of these is proved, with the exact condition where one is stated:

- A reallocation that moves a scattered block copies the pages after the first one, not the pages of the
  chain: `HeapUpdates.MoveFaithfulIffContiguous`.
- A privileged write through a read-only link reaches the bytes that are read, so ROM is written:
  `TlbProofs.AccessAgreesWithWalkIff`, `TlbProofs.RomWrittenThroughReadOnlyLink`.
- CPU types below 386SLOW link pages that users may not read: `TlbProofs.FastCpuLeaks`.
- The banked lookup compares with `>` and puts page 65536 just past the first table: `TlbBanks.InBoundsIff`.
- The overflow getter and `FillFlags` differ for a right shift by one of the sign bit alone, and `FillFlags`
  leaves the adjust flag of a double shift: `FlagProofs.LazyEqualsEagerIff`.
- The overflow flag of a shift by one is the change of sign, except for SHR of the sign bit alone and for SHLD of
  a word whose operands differ in sign, where `flags.cpp:393-396` looks at the other operand:
  `ShiftFlags.OneBitOverflowIff`.
- `CPU_RET` looks at the selector without the stack mask and pops it with the mask:
  `PrivilegeProofs.RetKeepsRplIff`.
- `CPU_IRET` does not compare the popped level with the current one (`cpu.cpp:884` is compiled out), so a
  return can end at a more privileged level; it does exactly for the frames of
  `InterruptProofs.IretRaisesPrivilegeIff`. A far return never does: `PrivilegeProofs.RetNeverLowersCpl`.
- The hit tests of the word and double-word fetch wrap at 4 GB: `PrefetchQueue.FetchReadsMemoryIff` for one
  fetch, `PrefetchQueue.RunsReadMemoryIff` for a run.
- An exception that leaves an activation of `EmuExecute` skips both the removal of its notification and
  `ReuseStack` (`dosbox_emu.cpp:182-187`), so its stack belongs to nobody until the thread exits. After a run
  every stack has exactly one owner if and only if no thread was unwound since it last began to exit:
  `StackOwners.EveryRunOwnedIff`; the shortest run that loses one is `StackOwners.UnwindLosesStack`.
- `CbNotifyThreadExit` ignores the id it is given, which matters to `TerminateThread`
  (`system_dlls/kernel32_yact/kernel32_impl.cpp:392-405`). Terminating another thread keeps every stack
  owned once if and only if the caller runs on no emulated stack, the victim owns none, and no third thread
  had lost one: `StackOwners.TerminateOtherIff`. A caller on a stack gets it pooled under its feet; a running
  victim's stacks are lost.

## Model

| member | source | states |
|---|---|---|
| ScheduleRuns.BatchedTicksAreUnitTicks | yact/bochs_emu/pc_system.h:101-116 | tickn(n) reaches the same schedule, callback trace and device state as n calls of tick1, and time advances by exactly n |
| ScheduleRuns.TickFiresExactlyTheDue | yact/bochs_emu/pc_system.cpp:318-382 | one tick calls a timer exactly when its deadline is the tick being reached, whatever the other callbacks of the event do |
| ScheduleRuns.NoDeadlineIsEverMissed | yact/bochs_emu/pc_system.cpp:318-382 | in every state a run reaches, every armed deadline is ahead of the clock, the countdown lies between 1 and the period, the period fits 32 bits, and the clock shows exactly the ticks elapsed |
| ScheduleRuns.ArmedOnceFiresOnce | yact/bochs_emu/pc_system.cpp:456-489 | a one-shot timer on a registered slot fires exactly once, exactly its ticks after arming, over any run of batched ticks, commands to other slots, registrations and releases |
| ScheduleRuns.ArmedPeriodicFiresEveryPeriod | yact/bochs_emu/pc_system.cpp:333-371 | over any such run a continuous timer fires at every multiple of its period after arming and at no other time |
| ScheduleRuns.IdleTimerNeverFires | yact/bochs_emu/pc_system.cpp:525-535 | over any such run an inactive timer is never called |
| TimerLifetimes.RegisteredSlot | yact/bochs_emu/pc_system.cpp:258-316 | registration takes the lowest slot not in use, marks it so, and puts the period, the deadline, the activity, the continuity and the function it is given there |
| TimerLifetimes.RegisteredOnceFiresOnce | yact/bochs_emu/pc_system.cpp:258-316 | a timer registered active and not continuous fires exactly once, its ticks after the registration, over any run that spares its slot |
| TimerLifetimes.RegisteredPeriodicFiresEveryPeriod | yact/bochs_emu/pc_system.cpp:258-316 | a timer registered active and continuous fires at every multiple of its period after the registration and at no other time |
| TimerLifetimes.RegisteredIdleNeverFires | yact/bochs_emu/pc_system.cpp:258-316 | one registered inactive never fires |
| TimerLifetimes.DisarmedNeverFires | yact/bochs_emu/pc_system.cpp:525-535 | after deactivation a timer never fires, over any run that spares it |
| TimerLifetimes.ReleasedSlot | yact/bochs_emu/pc_system.cpp:537-565 | unregistering an inactive timer frees its slot for the next registration; an active one keeps it |
| TimerLifetimes.PerformIsRun | yact/bochs_emu/pc_system.cpp:373-381 | the commands of a callback act as if they were issued one after the other between ticks |
| TimerLifetimes.DueCallbackRuns | yact/bochs_emu/pc_system.cpp:318-382 | on a tick on which one timer is due the function of its own slot is called once, after the tick is reached and the slot serviced, and its commands and device state take effect |
| ScheduleRuns.StepKeepsValid | yact/bochs_emu/pc_system.cpp:318-382 | every step keeps all deadlines reachable and lets exactly its ticks pass |
| ScheduleRuns.RegisterKeepsValid | yact/bochs_emu/pc_system.cpp:258-316 | registration keeps every deadline reachable and does not move the clock |
| ScheduleRuns.UnregisterKeepsValid | yact/bochs_emu/pc_system.cpp:537-565 | so does unregistration |
| ScheduleRuns.WrappedDeadlineIsMissed | yact/bochs_emu/pc_system.cpp:476-488 | a deadline past 64 bits wraps behind the clock and is missed |
| Schedule.ActivateOnTimeIff | yact/bochs_emu/pc_system.cpp:456-489 | arming keeps every deadline reachable if and only if the new deadline fits 64 bits |
| Schedule.AdvanceOnTimeIff | yact/bochs_emu/pc_system.cpp:333-371 | the event keeps every deadline reachable if and only if no due periodic deadline passes 64 bits |
| Schedule.AdvanceKeepsValid | yact/bochs_emu/pc_system.cpp:358-371 | the next period is the exact distance to the nearest deadline: its 32-bit cast loses nothing |
| Schedule.NearestGap | yact/bochs_emu/pc_system.cpp:47-65 | because of the null timer the nearest deadline is always within 32 bits |
| SequentialClock.ReadingsStrictlyIncrease | yact/bochs_emu/pc_system.cpp:433-447 | over any run with a clock that never goes back, the readings strictly increase and stay past the real time |
| SequentialClock.ReadingIsNextFree | yact/bochs_emu/pc_system.cpp:433-447 | each reading is the later of the real time and the last reading, plus one |
| PcSystem.PcSystemC.Initialize | yact/bochs_emu/pc_system.cpp:67-77 | the schedule is the initial one: one null timer, time zero |
| PcSystem.PcSystemC.ActivateTimerTicks | yact/bochs_emu/pc_system.cpp:456-489 | the new state is the specified one, the hot countdown shortened when the new deadline is nearer |
| PcSystem.PcSystemC.DeactivateTimer | yact/bochs_emu/pc_system.cpp:525-535 | only that timer becomes inactive |
| PcSystem.PcSystemC.RegisterTimerTicks | yact/bochs_emu/pc_system.cpp:258-316 | the first free slot is taken and filled as specified, which RegisteredSlot spells out |
| PcSystem.PcSystemC.UnregisterTimer | yact/bochs_emu/pc_system.cpp:537-565 | fails on an active timer; otherwise the slot is freed, and numTimers shrinks for the last one |
| PcSystem.PcSystemC.CountdownEvent | yact/bochs_emu/pc_system.cpp:318-382 | the two loops over the array, with callbacks that change the schedule in between, make the specified event |
| PcSystem.PcSystemC.Tick1 | yact/bochs_emu/pc_system.h:101-105 | one tick is the specified tick |
| PcSystem.PcSystemC.TickN | yact/bochs_emu/pc_system.h:106-116 | the loop over whole periods terminates and makes the specified batch |
| PcSystem.PcSystemC.TimeTicks | yact/bochs_emu/pc_system.h:124-127 | the clock is the total plus what has run of the current period |
| PcSystem.PcSystemC.TimeUsecSequential | yact/bochs_emu/pc_system.cpp:433-447 | one reading of the sequential clock |
| PageHeap.Conservation | yact/dosbox_emu/memory.cpp:228-246 | in every well-shaped heap, free pages plus the pages of all live handles are all the pages |
| PageHeap.ChainsDisjoint | yact/dosbox_emu/memory.cpp:286-314 | two live chains share no page |
| PageHeap.AddChain | yact/dosbox_emu/memory.cpp:286-314 | threading a chain through free pages keeps the shape and every other chain |
| PageHeap.RemoveChain | yact/dosbox_emu/memory.cpp:320-326 | clearing a chain keeps the shape and every other chain |
| PageHeap.ReplaceChain | yact/dosbox_emu/memory.cpp:328-399 | rethreading one chain over its own and free pages keeps the shape and every other chain |
| PageHeap.FitExistsIffLargestSuffices | yact/dosbox_emu/memory.cpp:212-226 | the search finds a block if and only if the size query reports one as large |
| PageHeap.FreePageIsFound | yact/dosbox_emu/memory.cpp:299-313 | while a page is free the search for one page succeeds: the corruption exit cannot be reached |
| HeapUpdates.CopyForwardDisjoint | yact/dosbox_emu/memory.cpp:177-179 | a forward byte copy between disjoint ranges copies the source and touches nothing else |
| HeapUpdates.MoveKeepsBytes | yact/dosbox_emu/memory.cpp:383-390 | the move of a contiguous block keeps its bytes, since old and new ranges are disjoint |
| HeapUpdates.MoveFaithfulIffContiguous | yact/dosbox_emu/memory.cpp:383-390 | the move keeps the bytes of every page for all memory contents if and only if the old block is contiguous |
| HeapUpdates.StrayPageLost | yact/dosbox_emu/memory.cpp:383-390 | a memory whose first stray page is lost in the move |
| Memory.MemoryBlock.FreeLargest | yact/dosbox_emu/memory.cpp:212-226 | the length of the longest free run |
| Memory.MemoryBlock.FreeTotal | yact/dosbox_emu/memory.cpp:228-236 | the number of free pages |
| Memory.MemoryBlock.AllocatedPages | yact/dosbox_emu/memory.cpp:238-246 | the length of a handle's chain, 0 for the null and the error handle |
| Memory.MemoryBlock.NextHandleAt | yact/dosbox_emu/memory.cpp:405-411 | the page at a position of a chain |
| Memory.MemoryBlock.BestMatch | yact/dosbox_emu/memory.cpp:250-284 | the start of a shortest maximal free run that is long enough, or 0 exactly when there is none |
| Memory.MemoryBlock.AllocatePages | yact/dosbox_emu/memory.cpp:286-314 | succeeds if and only if a run (sequence) or enough pages (scattered) are free; then a chain of exactly that many formerly free pages is added and nothing else changes |
| Memory.MemoryBlock.AllocateScattered | yact/dosbox_emu/memory.cpp:299-313 | both nested loops terminate with a chain of exactly the requested length |
| Memory.MemoryBlock.ReleasePages | yact/dosbox_emu/memory.cpp:320-326 | frees exactly the handle's pages |
| Memory.MemoryBlock.ReAllocatePages | yact/dosbox_emu/memory.cpp:328-399 | on all five paths: when it succeeds, the chain's new length, contiguity, the bytes kept, no other chain changed; failure changes nothing |
| Memory.MemoryBlock.Move | yact/dosbox_emu/memory.cpp:383-390 | the moved block is contiguous, memory is the forward copy of as many pages as the block had from its first page on, and a contiguous block keeps its bytes |
| Memory.MemoryBlock.Append | yact/dosbox_emu/memory.cpp:391-396 | succeeds if and only if enough pages are free, and keeps the old pages in front |
| TlbProofs.EveryRunStaysCoherent | yact/dosbox_emu/paging.cpp:321-423 | over every run of accesses, mappings, base loads and paging switches, links respect protection and cache the walk, however privilege changes |
| TlbProofs.UserNeverBypasses | yact/dosbox_emu/paging.cpp:232-244 | after any run, a user access to a page the walk forbids faults, in both access forms |
| TlbProofs.LinksRespectProtection | yact/dosbox_emu/paging.cpp:321-423 | no live link on a user-forbidden page and no writable link on a write-protected one |
| TlbProofs.LinksCacheTheWalk | yact/dosbox_emu/paging.cpp:609-625 | a live link holds the page that PAGING_MakePhysPage computes, and its pointers lead to that page's host bytes |
| TlbProofs.FlushBlanksAll | yact/dosbox_emu/paging.cpp:659-669 | the bounded log reaches every entry that is not blank, so the flush resets all |
| TlbProofs.WalkIgnoresMarks | yact/dosbox_emu/paging.cpp:379-415 | accessed and dirty write-backs change no translation |
| TlbProofs.RemapKeepsCoherent | yact/dosbox_emu/paging.cpp:681-691 | mapping the first pages keeps the cache coherent |
| TlbProofs.EnableKeepsCoherent | yact/dosbox_emu/paging.cpp:853-868 | switching paging on or off keeps it coherent |
| TlbProofs.PrivCheckMeaning | yact/dosbox_emu/paging.cpp:321-378 | the privilege decision is 3 exactly on a denied access, 0 exactly on a page open to all, and relinks otherwise |
| HostAccess.WalkFollowsAddress | yact/dosbox_emu/paging.cpp:609-625 | the walk uses address bits 22-31 for the directory entry, 12-21 for the table entry, each a word of the page the level above names |
| HostAccess.BaseIsLoaded | yact/dosbox_emu/paging.cpp:842-851 | after SetDirBase the directory is read at the page of the new base; switching paging on does the same with the base last given |
| HostAccess.MappedAccessReaches | yact/dosbox_emu/include/paging.h:263-268 | with paging, an access in both forms to a mapped page faults with the violation, write and user bits exactly when it is denied, and otherwise ends at host byte of the frame plus the offset in the page, in every coherent state |
| HostAccess.ReadOnlyLinkReaches | yact/dosbox_emu/paging.cpp:557-582 | the one exception, a privileged write through a read-only link, ends at the byte that is read |
| HostAccess.UnpagedAccessReaches | yact/dosbox_emu/paging.cpp:609-625 | without paging an access ends at the byte of the page itself, the first page being remapped |
| HostAccess.UnmappedAccessFaults | yact/dosbox_emu/paging.cpp:425-450 | an access to an address no entries map ends the run, or is reported with the write and user bits |
| HostAccess.MarkUsedMarks | yact/dosbox_emu/paging.cpp:379-415 | the write-back sets the accessed bits of both entries and, if asked, the dirty bit, and changes no other word |
| HostAccess.FirstAccessMarks | yact/dosbox_emu/paging.cpp:321-423 | the first access to a page sets the accessed bits, and a write the dirty bit |
| HostAccess.RemapTakesEffect | yact/dosbox_emu/paging.cpp:681-691 | outside paging the first page is the one it was last mapped to |
| HostAccess.MappingReaches | yact/dosbox_emu/paging.cpp:681-691 | any other page is linked at once: the next access in both forms ends at the byte of the frame it was mapped to |
| TlbProofs.AccessAgreesWithWalkIff | yact/dosbox_emu/paging.cpp:246-320 | an access has the outcome of a fresh walk if and only if it is not a privileged write through a read-only link to a page written elsewhere than read |
| TlbProofs.CheckedAccessAgreesWithWalkIff | yact/dosbox_emu/paging.cpp:425-450 | the checked form reports the very fault of the walk and agrees in the same cases |
| TlbProofs.FastCpuLeaks | yact/dosbox_emu/paging.cpp:232-244 | on the other CPU types a privileged read opens a forbidden page to users |
| TlbProofs.RomWrittenThroughReadOnlyLink | yact/dosbox_emu/paging.cpp:557-582 | a privileged read of write-protected ROM lets the next privileged write reach its bytes |
| PagingUnit.PagingBlock.ClearTlb | yact/dosbox_emu/paging.cpp:659-669 | the loop over the log is the specified flush |
| PagingUnit.PagingBlock.UnlinkPages | yact/dosbox_emu/paging.cpp:671-679 | exactly the named entries are blanked |
| PagingUnit.PagingBlock.LinkPage | yact/dosbox_emu/paging.cpp:693-713 | the entry and the log are the specified ones, with a flush when the log is full |
| PagingUnit.PagingBlock.LinkPageReadOnly | yact/dosbox_emu/paging.cpp:715-734 | the same for a read-only link |
| PagingUnit.PagingBlock.SetDirBase | yact/dosbox_emu/paging.cpp:842-851 | the base is loaded, and the cache flushed when paging is on |
| PagingUnit.PagingBlock.Enable | yact/dosbox_emu/paging.cpp:853-868 | the switch, with a flush or a base load, is the specified one |
| PagingUnit.PagingBlock.MakePhysPage | yact/dosbox_emu/paging.cpp:609-625 | the page of the walk, or none |
| PagingUnit.PagingBlock.InitPage | yact/dosbox_emu/paging.cpp:321-423 | presence check, privilege decision, write-back and link, in place |
| PagingUnit.PagingBlock.UpdateLink | yact/dosbox_emu/paging.cpp:171-180 | relinks read-only or unlinks after a privileged access |
| PagingUnit.PagingBlock.Access | yact/dosbox_emu/paging.cpp:246-320 | one access ends in the specified state and outcome, whose host byte MappedAccessReaches and UnpagedAccessReaches name |
| PagingUnit.PagingBlock.CheckedAccess | yact/dosbox_emu/paging.cpp:425-450 | one checked access, with the same bytes |
| TlbBanks.InBoundsIff | yact/dosbox_emu/include/paging.h:227-236 | the slot of an address lies within its table if and only if the page is not 65536 |
| TlbBanks.SlotsAreDistinct | yact/dosbox_emu/include/paging.h:227-236 | no two pages share a slot |
| FlagProofs.ParityTable | yact/dosbox_emu/flags.cpp:434-461 | the table's entry for a byte is set exactly when the byte has an even number of ones |
| FlagProofs.LazyEqualsEagerIff | yact/dosbox_emu/flags.cpp:464-882 | FillFlags makes the state the simple FillFlags makes from the getters if and only if the operation is neither a right shift by one of exactly the sign bit nor a double shift over a set adjust flag |
| FlagProofs.NoCFOFMatchesGetters | yact/dosbox_emu/flags.cpp:884-1182 | FillFlagsNoCFOF writes the four other bits as the getters report them and leaves carry and overflow |
| FlagProofs.FillIsIdempotent | yact/dosbox_emu/flags.cpp:498-501 | after filling, the getters read the register and filling again is idle |
| FlagProofs.ReadAfterFill | yact/dosbox_emu/flags.cpp:498-882 | outside the two families a flag reads the same before and after filling |
| FlagProofs.SignShiftedOut | yact/dosbox_emu/flags.cpp:401-409 | at every width the getter and FillFlags disagree on SHR by one of the sign bit |
| Ia32Flags.BinaryFlags | yact/dosbox_emu/instructions.h:22-189 | after ADD, ADC, SBB, SUB, CMP and the logic operations at all widths the six getters are the IA-32 flags: exact unsigned, signed and nibble results out of range, zero, sign, parity |
| Ia32Flags.LogicResults | yact/dosbox_emu/instructions.h:62-189 | bit by bit AND and TEST give the conjunction, OR the disjunction and XOR the difference of the operands |
| Ia32Flags.RecordsUnary | yact/dosbox_emu/instructions.h:192-226 | INC, DEC and NEG give the sum, difference or negation truncated to the width |
| Ia32Flags.UnaryFlags | yact/dosbox_emu/instructions.h:192-226 | INC and DEC set the flags of the sum or difference with one and keep the carry |
| Ia32Flags.NegFlags | yact/dosbox_emu/core_normal/prefix_none.h:1005-1014 | NEG sets the flags of zero minus its operand |
| Ia32Flags.EagerOverRuns | yact/dosbox_emu/flags.cpp:498-882 | over any program of ALU operations, shifts and fills, lazy and eager flags agree outside the two families |
| Ia32Flags.ConditionsCompare | yact/dosbox_emu/lazyflags.h:85-100 | after CMP a,b at any width the eight conditions are the unsigned and signed comparisons of a and b, read lazily or after FillFlags |
| ShiftProofs.SarDivides | yact/dosbox_emu/instructions.h:459-495 | SAR divides the signed operand by 2^count rounding down, at every count, clamped or not; the carry is the last bit out |
| ShiftProofs.ShrDivides | yact/dosbox_emu/instructions.h:437-456 | SHR divides the unsigned operand; the carry is the last bit out |
| ShiftProofs.ShlTimes | yact/dosbox_emu/instructions.h:415-434 | SHL multiplies modulo the width; the carry is the last bit out, clear past the width |
| ShiftProofs.DoubleShiftJoins | yact/dosbox_emu/instructions.h:922-957 | SHLD and SHRD, at every count, take their result and the last bit shifted out from the two operands put end to end; a word count above sixteen goes on into the second operand again |
| ShiftFlags.ShiftResultFlags | yact/dosbox_emu/flags.cpp:131-453 | after every shift and double shift zero, sign, parity and adjust are those of its result, and a zero count changes no flag |
| ShiftFlags.OneBitOverflowIff | yact/dosbox_emu/flags.cpp:346-430 | after a shift by one the overflow getter reports the change of sign if and only if it is neither SHR of the sign bit alone nor SHLD of a word whose operands differ in sign |
| LimbChains.CountingKeepsCarry | yact/dosbox_emu/instructions.h:192-226 | any number of INCs and DECs at any widths keep the carry, because LoadCF saves it |
| LimbChains.MultiLimbAdd | yact/dosbox_emu/instructions.h:134-152 | ADD then ADCs over any number of limbs at any width, with counters in between, give the exact sum, the final carry being its top bit |
| LimbChains.MultiLimbSubtract | yact/dosbox_emu/flags.cpp:34-72 | SUB then SBBs give the exact difference with the final carry as borrow |
| LimbChains.BorrowCompares | yact/dosbox_emu/flags.cpp:34-72 | so the final borrow is set exactly when the subtrahend is larger |
| LimbChains.DecimalAdd | yact/dosbox_emu/instructions.h:499-521 | ADC;DAA over packed-BCD bytes of any length gives valid digits of the decimal sum, CF being the carry |
| LimbChains.DecimalSubtract | yact/dosbox_emu/instructions.h:524-550 | SBB;DAS gives valid digits of the decimal difference, CF being the borrow |
| LimbChains.AdjustedFlags | yact/dosbox_emu/instructions.h:499-550 | after DAA and DAS zero, sign and parity are those of AL; DAA keeps overflow and DAS sets it when the adjustment clears the sign |
| AluUnit.LazyCpu.TwoOperands | yact/dosbox_emu/instructions.h:22-189 | the macro's assignments make the specified record; the result is the exact sum or difference truncated, or bit by bit the conjunction, disjunction or difference; and the getters then report the IA-32 flags |
| AluUnit.LazyCpu.OneOperand | yact/dosbox_emu/instructions.h:192-226 | the same for INC and DEC, which keep the carry |
| AluUnit.LazyCpu.Negate | yact/dosbox_emu/core_normal/prefix_none.h:1005-1014 | the same for NEG |
| AluUnit.LazyCpu.ShiftOperand | yact/dosbox_emu/instructions.h:415-495 | the shift macros; a zero count changes nothing |
| AluUnit.LazyCpu.DoubleShiftOperand | yact/dosbox_emu/instructions.h:922-957 | the double-shift macros |
| AluUnit.LazyCpu.FillFlags | yact/dosbox_emu/flags.cpp:498-882 | the switch writes the specified bits, and equals the simple FillFlags exactly outside the two families |
| AluUnit.LazyCpu.FillFlagsNoCFOF | yact/dosbox_emu/flags.cpp:884-1182 | the same without carry and overflow |
| AluUnit.LazyCpu.DecimalAdjustAdd | yact/dosbox_emu/instructions.h:499-521 | DAA's nested branches make the specified AL and flags |
| AluUnit.LazyCpu.DecimalAdjustSubtract | yact/dosbox_emu/instructions.h:524-550 | DAS's nested branches make the specified AL and flags |
| PrivilegeProofs.EveryRunKeepsRpl | yact/dosbox_emu/cpu.cpp:344-1473 | over any sequence of the six transfers and the exceptions they raise, CS.RPL is CPL outside real and virtual-8086 mode, given that no return wraps |
| PrivilegeProofs.RetKeepsRplIff | yact/dosbox_emu/cpu.cpp:1319-1372 | a return at a stack position keeps CS.RPL = CPL for all memory contents if and only if the stack is 32-bit or the selector's place is within its 64 KB |
| PrivilegeProofs.PeekedIsPopped | yact/dosbox_emu/cpu.cpp:1319-1362 | without the wrap the selector checked is the selector popped |
| PrivilegeProofs.WrapBreaks | yact/dosbox_emu/cpu.cpp:1354-1367 | contents that break it, for every wrapping position |
| PrivilegeProofs.SwitchTaskSetsRpl | yact/dosbox_emu/cpu.cpp:473-502 | a task switch makes the level the new CS's RPL, whatever it was |
| PrivilegeProofs.InterruptKeepsRpl | yact/dosbox_emu/cpu.cpp:547-760 | an interrupt, in every branch, keeps CS.RPL = CPL |
| PrivilegeProofs.IretKeepsRpl | yact/dosbox_emu/cpu.cpp:763-996 | so does IRET, to the same level, an outer one, virtual-8086 mode or another task |
| PrivilegeProofs.JmpKeepsRpl | yact/dosbox_emu/cpu.cpp:999-1063 | so does a far jump |
| PrivilegeProofs.CallKeepsRpl | yact/dosbox_emu/cpu.cpp:1066-1299 | so does a far call, through a gate or not |
| PrivilegeProofs.FlagsRestored | yact/dosbox_emu/cpu.cpp:172-176 | CPU_SetFlags takes every bit under its mask from the new word, but bit 1 |
| IretFrames.SetFlagsBits | yact/dosbox_emu/cpu.cpp:172-176 | CPU_SetFlags bit by bit: under the mask the new word, elsewhere the old one, bit 1 set |
| PrivilegeProofs.RetNeverLowersCpl | yact/dosbox_emu/cpu.cpp:1319-1467 | no far return, completed or refused, makes the level more privileged |
| PrivilegeProofs.IretLowersCplIff | yact/dosbox_emu/cpu.cpp:879-972 | a completed IRET within protected mode ends at the popped level, so it lowers CPL exactly when the popped RPL is below it |
| InterruptProofs.IretRaisesPrivilegeIff | yact/dosbox_emu/cpu.cpp:879-972 | an IRET completes at a more privileged level if and only if the popped RPL is below CPL, its descriptor is a code segment and the popped SS is writable |
| SmallMachine.IretToLevelZero | yact/dosbox_emu/cpu.cpp:879-972 | a frame with which an IRET at level 3 ends at level 0 |
| GateProofs.CallBuildsFrame | yact/dosbox_emu/cpu.cpp:1162-1248 | a call through a 386 gate to an inner level leaves SS, ESP, the parameters, CS and the return address on the inner stack, and memory elsewhere alone |
| GateProofs.ParametersInOrder | yact/dosbox_emu/cpu.cpp:1230-1238 | the parameters stand in the caller's order right above the return address |
| GateProofs.ReturnResumes | yact/dosbox_emu/cpu.cpp:1374-1467 | the far return from such a frame with 4k bytes resumes the caller |
| GateProofs.CallGateRoundTrip | yact/dosbox_emu/cpu.cpp:1162-1467 | call through the gate with k parameters, any callee that leaves its frame alone, return with 4k bytes: CS:EIP, SS and CPL are the caller's and ESP is advanced by 4k |
| StackWords.PushesBuild | yact/dosbox_emu/cpu.cpp:137-147 | any pushes at either width, on a stack of either size: the words stand in order from the stack pointer up, on top of what was there, and memory outside them is untouched |
| StraightTransfers.FarCallEnters | yact/dosbox_emu/cpu.cpp:1066-1122 | a completed call to a code segment, in all modes, enters its base and offset at the current level and leaves CS and the return address on the stack, memory elsewhere alone |
| StraightTransfers.FarRetResumes | yact/dosbox_emu/cpu.cpp:1303-1372 | a far return that stays at its level takes CS and EIP off and drops the parameters, within a 16-bit stack in protected mode only |
| StraightTransfers.FarCallRoundTrip | yact/dosbox_emu/cpu.cpp:1066-1372 | call, anything that keeps the two words and the stack position, return: the caller goes on behind its call at its level with its parameters dropped |
| StraightTransfers.JmpIsCallWithoutFrame | yact/dosbox_emu/cpu.cpp:999-1045 | a far jump completes where a call does, in the same state but for the frame |
| StraightTransfers.GateCallStays | yact/dosbox_emu/cpu.cpp:1251-1268 | a call through a gate that stays at its level enters the gate's code and pushes at the gate's width |
| StraightTransfers.GateStaysRoundTrip | yact/dosbox_emu/cpu.cpp:1251-1372 | and the return at that width undoes it |
| GateFrames.CopyIsPushing | yact/dosbox_emu/cpu.cpp:1230-1247 | the copying loop pushes the caller's parameters, highest first, at both widths, although its own pushes change memory |
| GateFrames.GateCallEnters | yact/dosbox_emu/cpu.cpp:1162-1248 | a call through a 286 or 386 gate to an inner level, on stacks of either size: the code, level and stack entered, and the frame from its pointer up |
| GateFrames.RetGoesOut | yact/dosbox_emu/cpu.cpp:1382-1467 | the far return from such a frame, whose parameters are dropped from both stacks |
| GateFrames.InnerCallTrip | yact/dosbox_emu/cpu.cpp:1162-1467 | call and return through a gate of either width: CS:EIP, SS and CPL are the caller's, ESP advanced by the parameters as far as the frame carries it |
| GateProofs.ChecksRevoke | yact/dosbox_emu/cpu.cpp:230-271 | after CPU_CheckSegments every data segment register is empty or names a segment the current level may use |
| GateProofs.ChecksExact | yact/dosbox_emu/cpu.cpp:230-271 | CPU_CheckSegments empties exactly the data segment registers that name nothing in their table or a segment of an inner level, and changes nothing else |
| GateProofs.RetOuterRevokes | yact/dosbox_emu/cpu.cpp:1382-1467 | so every far return to an outer level revokes the inner level's segments |
| InterruptProofs.IretOuterRevokes | yact/dosbox_emu/cpu.cpp:921-993 | and so does every IRET to an outer level |
| SmallMachine.CallAndReturn | yact/dosbox_emu/cpu.cpp:1162-1467 | a flat machine with a two-parameter gate meets the assumptions of the round trip and makes it, for every return address |
| SmallMachine.InterruptAndReturn | yact/dosbox_emu/cpu.cpp:547-993 | the same machine makes the interrupt round trip |
| SmallMachine.MachineMakesTheTrips | yact/dosbox_emu/cpu.cpp:547-1467 | both trips take place on a concrete state |
| InterruptProofs.InterruptBuildsFrame | yact/dosbox_emu/cpu.cpp:629-713 | an interrupt through a 386 gate to an inner level leaves SS, ESP, flags, CS, the return address and any error code on the inner stack |
| InterruptProofs.InterruptRoundTrip | yact/dosbox_emu/cpu.cpp:763-993 | interrupt to an inner level, any handler that leaves its frame alone, IRET: CS:EIP, SS:ESP and CPL are restored, and every flag the mask allows |
| InterruptFrames.HandlerEntry | yact/dosbox_emu/cpu.cpp:604-741 | a completed interrupt through any of the four gates, at the same or an inner level, from protected or virtual-8086 mode: the handler's segment, offset, level and stack, every word on it, and memory elsewhere untouched |
| InterruptFrames.HandlerFlags | yact/dosbox_emu/cpu.cpp:733-738 | for every bit: the handler has the interrupted flags, but TF, NT and VM clear, and IF clear unless the gate is a trap gate |
| InterruptTrips.HandlerCanReturn | yact/dosbox_emu/cpu.cpp:604-741 | a handler that only takes its error code off may execute IRET: its stack holds the words |
| IretFrames.IretStays | yact/dosbox_emu/cpu.cpp:908-922 | IRET at its level takes EIP, CS and the flags off, and writes exactly the flags its level may |
| IretFrames.IretLeaves | yact/dosbox_emu/cpu.cpp:921-993 | IRET to another level takes the stack from the frame too and leaves usable data segments |
| IretFrames.IretToV86Enters | yact/dosbox_emu/cpu.cpp:833-863 | IRET from level 0 to virtual-8086 mode takes nine words: all segment registers, stack, address and flags with VM |
| IretFrames.RealIretResumes | yact/dosbox_emu/cpu.cpp:763-815 | IRET in real mode, and in virtual-8086 mode at I/O level 3, with the flags each may write; below level 3 a general protection fault |
| InterruptTrips.SameLevelTrip | yact/dosbox_emu/cpu.cpp:547-922 | an interrupt at its level and the IRET from it restore CS:EIP and ESP at both gate widths, and exactly the writable flags |
| InterruptTrips.InwardTrip | yact/dosbox_emu/cpu.cpp:547-993 | the same to an inner level, with SS:ESP as far as the frame carries it |
| InterruptTrips.V86Trip | yact/dosbox_emu/cpu.cpp:547-863 | an interrupt out of virtual-8086 mode to level 0 and back restores the six segment selectors, the stack, the address and the flags |
| InterruptTrips.RealInterruptEnters | yact/dosbox_emu/cpu.cpp:566-579 | an interrupt in real mode takes its vector from four bytes a number, leaves IP, CS and flags on the stack, and clears IF and TF only |
| InterruptTrips.RealTrip | yact/dosbox_emu/cpu.cpp:566-777 | and IRET in real mode undoes it |
| TransferFaults.InterruptOutcome | yact/dosbox_emu/cpu.cpp:580-601 | an interrupt faults if and only if I/O privilege, the end of the table or the gate's level stops it, with code 0 for the first two and 8n + 2 for the last; otherwise it completes if and only if its gate leads to code of the same level, inward to a writable stack, or to a task that can be entered |
| TransferFaults.CallOutcome | yact/dosbox_emu/cpu.cpp:1107-1296 | a far call faults if and only if its code is not present or the descriptor is one of two types, with the selector as code; it completes if and only if it leads to present code, through a gate to code, or to a task that can be entered |
| TransferFaults.JmpOutcome | yact/dosbox_emu/cpu.cpp:1016-1045 | a jump faults for code that is not present only, and completes for present code and for a task that can be entered |
| TransferFaults.RetOutcome | yact/dosbox_emu/cpu.cpp:1319-1356 | a far return faults if and only if it asks for an inner level, or for code of its level that is not present; it completes if and only if it leads to present code of its level, or outward to code and a writable stack |
| TransferFaults.IretOutcome | yact/dosbox_emu/cpu.cpp:783-787 | IRET faults if and only if it is in virtual-8086 mode below I/O level 3; when it completes, by mode, nested flag, VM in the popped flags, code and stack |
| TransferFaults.ExceptionFrame | yact/dosbox_emu/cpu.cpp:539-544 | an exception finds its handler with its code on top of the stack, if its number has one, and above it where the program was |
| TransferFaults.TaskInterruptPushes | yact/dosbox_emu/cpu.cpp:742-754 | through a task gate the code goes to the top of the new task's stack at that task's width |
| DescriptorLayout.SegmentLayout | yact/dosbox_emu/include/cpu.h:338-366 | base, limit with granularity, type, level, presence and size by the bytes of a descriptor |
| DescriptorLayout.GateLayout | yact/dosbox_emu/include/cpu.h:346-351 | offset, selector and parameter count by the bytes of a gate |
| DescriptorLayout.HandlerAddress | yact/dosbox_emu/cpu.cpp:589-741 | a handler's EIP, CS base and level by the bytes of the interrupt and descriptor tables |
| DescriptorLayout.HandlerStackAddress | yact/dosbox_emu/cpu.cpp:291-303 | its SS:ESP by the bytes of the task state segment |
| SegmentLoads.SegmentGetsBase | yact/dosbox_emu/cpu.cpp:1909-1988 | a segment load that is accepted sets selector and base, for SS the stack size, and no other selector |
| SegmentLoads.RefusedLoadReports | yact/dosbox_emu/cpu.cpp:1920-1984 | one that is refused changes no register and reports the exception with the selector as code |
| SegmentLoads.LdtGetsTable | yact/dosbox_emu/include/cpu.h:419-434 | LLDT takes base and limit from the bytes of the descriptor, empties the table for a null selector, and otherwise reports why it did not |
| TaskProofs.SaveThenLoad | yact/dosbox_emu/cpu.cpp:358-428 | what a switch saves in a TSS is what a switch loads from it, field by field |
| TaskProofs.SavedGeneral | yact/dosbox_emu/cpu.cpp:398-420 | each register is saved at its offset in the TSS, and the fields the switch does not save stay |
| TaskProofs.CallSwitchSaves | yact/dosbox_emu/cpu.cpp:398-428 | after a switch by CALL the old TSS holds the outgoing registers, selectors, flags and address |
| TaskReturns.CallSwitchLinks | yact/dosbox_emu/cpu.cpp:425-440 | a completed switch by CALL leaves the old selector in the new TSS, NT set, the old TSS and its descriptor intact, and TR on the new, busy task |
| TaskReturns.EntersIff | yact/dosbox_emu/cpu.cpp:463-517 | a switch completes exactly when the code selector of the context is accepted and its stack selector not refused |
| TaskReturns.TaskRoundTrip | yact/dosbox_emu/cpu.cpp:344-517 | a task calls another, anything that keeps the link, NT, TR and the old TSS and descriptor runs, and IRET switches back: it completes exactly under that condition, and then restores the general registers, ESP, EIP, CS with its base and size, CPL, flags and TR, and every data and stack selector that can be loaded |
| SmallTasks.TasksMakeTheTrip | yact/dosbox_emu/cpu.cpp:344-517 | two tasks on which the trip takes place, every selector being restored |
| TaskJumps.JmpSwitchFrees | yact/dosbox_emu/cpu.cpp:390-440 | a completed switch by JMP makes the old task's descriptor available again, saves its context, makes the new task the busy one in TR, and runs it with the registers and flags of its TSS |
| TaskJumps.CallSwitchRuns | yact/dosbox_emu/cpu.cpp:425-517 | a completed switch by CALL runs the new task with the registers, flags and code segment of its TSS, nested |
| TaskJumps.JumpRoundTrip | yact/dosbox_emu/cpu.cpp:344-517 | two tasks that jump to each other: the jump back completes exactly when the saved context can be entered, and then resumes the first task and parks the second |
| TaskJumps.IretSwitchFrees | yact/dosbox_emu/cpu.cpp:390-423 | the return of a nested task makes its descriptor available and saves it without the nested-task flag |
| SmallJumps.TasksJumpAndBack | yact/dosbox_emu/cpu.cpp:344-517 | two tasks that make this trip, every selector being restored |
| X86Cpu.Processor.DoPush | yact/dosbox_emu/cpu.cpp:137-147 | the masked push of a word or double word |
| X86Cpu.Processor.DoPop | yact/dosbox_emu/cpu.cpp:149-159 | the masked pop |
| X86Cpu.Processor.DoSetSegGeneral | yact/dosbox_emu/cpu.cpp:1909-1988 | CPU_SetSegGeneral in all three modes |
| X86Cpu.Processor.DoCheckSegments | yact/dosbox_emu/cpu.cpp:230-271 | CPU_CheckSegments over the four data segments |
| X86Cpu.Processor.SwitchTask | yact/dosbox_emu/cpu.cpp:344-517 | the switch, step by step, is the specified one and keeps CS.RPL = CPL |
| X86Cpu.Processor.Interrupt | yact/dosbox_emu/cpu.cpp:547-760 | the same for an interrupt, whose handler HandlerEntry and HandlerFlags describe |
| X86Cpu.Processor.Iret | yact/dosbox_emu/cpu.cpp:763-996 | the same for IRET |
| X86Cpu.Processor.Jmp | yact/dosbox_emu/cpu.cpp:999-1063 | the same for a far jump |
| X86Cpu.Processor.Call | yact/dosbox_emu/cpu.cpp:1066-1299 | the same for a far call, with its loop over the parameters; what it pushes is in FarCallEnters, GateCallStays and GateCallEnters |
| X86Cpu.Processor.DoCopyParams | yact/dosbox_emu/cpu.cpp:1230-1247 | the copying loop, highest parameter first, over memory that its own pushes change |
| X86Cpu.Processor.Ret | yact/dosbox_emu/cpu.cpp:1302-1473 | the same for a far return, without the wrap |
| PrefetchQueue.FetchReadsMemory | yact/dosbox_emu/core_prefetch.cpp:122-200 | every fetch keeps the buffer a window of memory, and returns the bytes at the fetch address unless it overruns |
| PrefetchQueue.FetchReadsMemoryIff | yact/dosbox_emu/core_prefetch.cpp:122-200 | at a position of a valid queue a fetch returns memory, for all contents, if and only if the hit test does not pass beyond the window |
| PrefetchQueue.OverrunsAtTheTop | yact/dosbox_emu/core_prefetch.cpp:147-176 | only a word or double-word fetch that goes past 4 GB can overrun |
| PrefetchQueue.TopOfMemoryOverruns | yact/dosbox_emu/core_prefetch.cpp:147-151 | a position that does |
| PrefetchQueue.SlidIsFilled | yact/dosbox_emu/core_prefetch.cpp:126-133 | shifting the rest to the front and refilling behind it makes the window at its new start |
| PrefetchQueue.RunsReadMemoryIff | yact/dosbox_emu/core_prefetch.cpp:122-200 | any run of fetches, jumps and invalidations sees exactly the memory, for all contents, if and only if none of its fetches passes beyond the window |
| PrefetchQueue.BelowTopNoneOverruns | yact/dosbox_emu/core_prefetch.cpp:147-176 | no run that stays below 4 GB has such a fetch |
| PrefetchUnit.Prefetcher.Slide | yact/dosbox_emu/core_prefetch.cpp:126-133 | the in-place shift and refill, with every index inside the buffer |
| PrefetchUnit.Prefetcher.Fetchb | yact/dosbox_emu/core_prefetch.cpp:122-145 | returns the byte in memory, always |
| PrefetchUnit.Prefetcher.Fetchw | yact/dosbox_emu/core_prefetch.cpp:147-171 | returns the little-endian word in memory unless it overruns |
| PrefetchUnit.Prefetcher.Fetchd | yact/dosbox_emu/core_prefetch.cpp:173-200 | returns the little-endian double word in memory unless it overruns |
| StackPool.EveryRunExactlyOnce | yact/dosbox_emu/dosbox_emu.cpp:235-286 | under any interleaving of entries, nested entries, returns, unwindings and thread exits, every allocated stack stands once in the pool, once on one notification list, once on a list being drained, or in the hand of one thread |
| StackOwners.EveryRunOwnedIff | yact/dosbox_emu/dosbox_emu.cpp:235-286 | after any run every allocated stack is pooled once, held by exactly one activation, or once on a list being drained, if and only if no thread was unwound since it last began to exit |
| StackOwners.OwnedIffAllRun | yact/cbacks/callbacks.cpp:63-133 | in every such state that is: if and only if each live notification is the stack of a running activation of its thread |
| StackOwners.UnwindLosesStack | yact/dosbox_emu/dosbox_emu.cpp:182-187 | entry, registration and an exception: an allocated stack with no owner |
| StackPool.NoSharing | yact/dosbox_emu/dosbox_emu.cpp:253-257 | no two activations, of one thread or two, run on one stack, and none on a pooled one |
| StackPool.OneNotification | yact/cbacks/callbacks.cpp:88-104 | a running activation's stack has exactly one live notification, in its own thread's list |
| StackPool.KillRemoves | yact/cbacks/callbacks.cpp:106-133 | removing clears exactly one live notification of the stack and keeps the others in order |
| StackPool.StepPlaces | yact/cbacks/callbacks.cpp:63-133 | every step moves at most one stack, to the place it should go |
| StackOwners.TerminateOtherIff | yact/cbacks/callbacks.cpp:63-79 | terminating another thread leaves every stack in one place with one owner if and only if the caller runs on no emulated stack, the victim owns none, and no other thread has lost one before |
| StackOwners.CallerLosesStack | yact/cbacks/callbacks.cpp:63-79 | otherwise the stack the caller runs on is in the pool as well |
| StackOwners.VictimLosesStack | yact/cbacks/callbacks.cpp:63-79 | or a stack the victim ran on, had in hand, had registered or was draining has no owner |
| StackUnit.VisitKills | yact/cbacks/callbacks.cpp:106-119 | ForEach with the clearing callback clears the first matching notification |
| StackUnit.RemoveFromList | yact/cbacks/callbacks.cpp:121-133 | on the nodes of a list, this is the removal of the protocol |
| StackUnit.Emulator.TakeStack | yact/dosbox_emu/dosbox_emu.cpp:254-256 | takes the head of the list or allocates, and keeps every stack in one place |
| StackUnit.Emulator.CbCallAtThreadExit | yact/cbacks/callbacks.cpp:88-104 | adds the notification at the head of the thread's list |
| StackUnit.Emulator.CbRemoveCallAtThreadExit | yact/cbacks/callbacks.cpp:121-133 | the walk clears the first match |
| StackUnit.Emulator.ReuseStack | yact/dosbox_emu/dosbox_emu.cpp:235-239 | the stack goes to the head of the list |
| StackUnit.Emulator.CbNotifyThreadExit | yact/cbacks/callbacks.cpp:63-79 | the loop gives back every live stack of the current thread's list, whatever id is passed |
| RadixTable.SplitInjective | yact/inc/classes.h:90-93 | different indices have different places in the table |
| RadixTable.RadixSet.Set | yact/inc/classes.h:88-119 | filling in missing tables and storing is the update of a map at one index |
| RadixTable.RadixSet.Get | yact/inc/classes.h:121-139 | reads that map; absent tables read as null |
| LinkedLists.LinkedList.AddHead | yact/inc/classes.h:211-227 | relinking puts the element in front, the other nodes kept |
| LinkedLists.LinkedList.AddTail | yact/inc/classes.h:229-246 | relinking puts it at the end |
| LinkedLists.LinkedList.GetHead | yact/inc/classes.h:249-264 | takes the first element off, or reports an empty list |
| LinkedLists.LinkedList.ForEach | yact/inc/classes.h:279-290 | visits the elements in order, lets the callback change each in place, and stops after the first it refuses; the nodes stay |

## Left out

- Timer names, handler pointers and `this_ptr` beyond a function number; the conversions between microseconds and ticks, which use host doubles.
- Callbacks that register or unregister timers during an event: `triggered[]` covers only the timers registered before it.
- The VGA, EMS and A20 parts of memory.cpp and its page handlers.
- Memory.MemoryBlock.Move: promises the copy made, which keeps the block's bytes only if it was contiguous.
- What the host memory behind the emulated memory holds.
- PrefetchUnit.Prefetcher.Fetchw: promises memory only without an overrun, because the hit test wraps at 4 GB.
- PrefetchUnit.Prefetcher.Fetchd: the same as Fetchw.
- `PAGING_ForcePageInit`, page-fault recovery, and guests that edit page tables without a flush.
- The host's own FS base is a constant of the processor model; CR3 is loaded but paging is not applied to far transfers.
- The condition bits of the flags register are taken as filled in the far transfers; lazy flags are a model of their own.
- 286 task switches, which the source ends with `E_Exit`; IRET and interrupts in virtual-8086 mode are modelled, other V86 detail is not.
- TaskReturns.TaskRoundTrip: says nothing about the LDT register, which a switch loads from the segment but does not save, nor about a return after the descriptor table has been moved.
- Flags of MUL, DIV, AAA, AAS, AAM, AAD and the rotates; opcode decoding; the FPU; the dynamic cores.
- Self-modifying code between a prefetch and its use.
- Locks, `malloc` failure and the destructors of the containers; callback thunks.
