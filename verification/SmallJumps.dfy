/** The two small tasks jump to each other and back: the assumptions of the jump's round trip are met by them. */
module SmallJumps {
  import opened Bits
  import opened CpuState
  import opened FarTransfers
  import opened PrivilegeProofs
  import opened GateProofs
  import opened TaskProofs
  import opened TaskReturns
  import opened TaskJumps
  import opened SmallMachine
  import opened SmallTasks
  import opened Words

  /** One of the two tasks runs, its segment being at 1000h or 2000h. */
  predicate RunsEither(x: Cpu) {
    && HasSegments(x) && TaskHeld(x)
    && ((x.task.selector == 24 && x.task.base == 0x1000) || (x.task.selector == 32 && x.task.base == 0x2000))
  }

  function OtherTask(x: Cpu): word { if x.task.selector == 24 then 32 else 24 }

  lemma EntriesOf(x: Cpu)
    requires RunsEither(x)
    ensures EntryAddress(x, 24) == 24 && EntryAddress(x, 32) == 32 && EntryAddress(x, 0x0b) == 8 && EntryAddress(x, 0x13) == 16
    ensures x.task.is386 && InTable(x, 24) && InTable(x, 32) && OwnEntryApart(x) && OtherEntryApart(x, OtherTask(x))
  {
    hide Beyond, Lookup;
    FarBelow(24);
    FarBelow(28);
    FarBelow(32);
    FarBelow(36);
  }

  lemma NotThere(a: int, b: int)
    requires 8 <= b <= 20 && 24 <= a <= 36
    ensures Far(a, b)
  {
  }

  /** A jump leaves the two segment descriptors where they are. */
  lemma JumpKeepsDword(x: Cpu, to: Task, eip: dword, a: int)
    requires RunsEither(x) && to.selector == OtherTask(x) && 8 <= a <= 20
    ensures ReadD(LeaveTask(x, to, ByJmp, eip).mem, a) == ReadD(x.mem, a)
  {
    hide Lookup, ReadD, SaveContext, StoreDescriptor, EntryAddress, Far, Beyond, LeaveTask, Descriptor.SetBusy, TaskCached, HasSegments;
    EntriesOf(x);
    FarBelow(a);
    var prev, d := x.task.selector, x.task.desc.SetBusy(false);
    var x0 := x.(task := x.task.(desc := d));
    SameEntry(x, x0, prev);
    NotThere(EntryAddress(x, prev), a);
    NotThere(EntryAddress(x, prev) + 4, a);
    NotThere(EntryAddress(x, to.selector), a);
    NotThere(EntryAddress(x, to.selector) + 4, a);
    BesideDescriptor(x0, prev, d, a);
    StoreOnly(x0, prev, d);
    BesideContext(StoreDescriptor(x0, prev, d).mem, x, x.task.base, x.flags % 0x1_0000_0000, eip, a);
    LeaveIsSaving(x, to, ByJmp, eip);
    var t := Saving(x, ByJmp, eip);
    SameEntry(x, t, to.selector);
    BesideDescriptor(t, to.selector, to.desc.SetBusy(true), a);
  }

  lemma JumpKeepsSegments(x: Cpu, to: Task, eip: dword)
    requires RunsEither(x) && to.selector == OtherTask(x)
    ensures HasSegments(LeaveTask(x, to, ByJmp, eip))
  {
    hide Lookup, ReadD, LeaveTask, EntryAddress, TaskCached;
    EntriesOf(x);
    JumpKeepsDword(x, to, eip, 8);
    JumpKeepsDword(x, to, eip, 12);
    JumpKeepsDword(x, to, eip, 16);
    JumpKeepsDword(x, to, eip, 20);
    var l := LeaveTask(x, to, ByJmp, eip);
    LeaveOnly(x, to, ByJmp, eip);
    LookupIs(x, l, 0x0b);
    LookupIs(x, l, 0x13);
  }

  /** So a jump to an available task with a plain context completes. */
  lemma JumpEnters(x: Cpu, eip: dword)
    requires RunsEither(x) && x.pmode
    requires var d := Lookup(x, OtherTask(x));
             d.Type() == 9 && d.Present() && PlainContext(LoadContext(x.mem, d.Base())) && LoadContext(x.mem, d.Base()).eflags == 0
    ensures var t, o := Loaded(x, OtherTask(x), ByJmp, eip).0, SwitchTask(x, OtherTask(x), ByJmp, eip);
            && t.pmode && !V86(t) && HasSegments(t) && Enterable(t, LoadContext(x.mem, Lookup(x, OtherTask(x)).Base()))
            && o.Done? && HasSegments(o.s) && o.s.pmode && !V86(o.s) && o.s.cpl == 3
            && forall name :: GetSeg(o.s, name).val == 0x13
  {
    hide Lookup, LoadContext, SetSelector, LeaveTask, Loaded, Bit, PlainContext, EnterTask, EnterCode, SwitchTask, Enterable, TaskCached,
      EntryAddress, InTable, OwnEntryApart, OtherEntryApart, Loadable, Rpl, CodeLoaded,
      Descriptor.Type, Descriptor.Present, Descriptor.Base, Descriptor.Limit, Descriptor.Busy, Descriptor.Is386, Descriptor.SetBusy;
    var sel := OtherTask(x);
    EntriesOf(x);
    AvailableRegister(x, NO_TASK, sel);
    var to := SetSelector(x, NO_TASK, sel).0;
    LoadedPlainly(x, sel, ByJmp, eip);
    var (t, c) := Loaded(x, sel, ByJmp, eip);
    JumpKeepsSegments(x, to, eip);
    LeaveOnly(x, to, ByJmp, eip);
    SegmentsIn(LeaveTask(x, to, ByJmp, eip), t);
    VmIsLoaded();
    NoVirtualBit(c.eflags);
    PlainEnters(t, c);
    EntersIff(t, c, sel);
    SwitchIsEntering(x, sel, ByJmp, eip);
    EntersAs(t, t, c, sel);
    var v := SwitchTask(x, sel, ByJmp, eip).s;
    SegmentsIn(t, v);
    PlainLevel(c);
    forall name
      ensures GetSeg(v, name).val == 0x13
    {
      PlainLoads(v, name);
      PlainSelector(c, name);
    }
  }

  lemma PlainLevel(c: Context)
    requires PlainContext(c)
    ensures Rpl(c.cs) == 3
  {
  }

  lemma PlainSelector(c: Context, name: SegName)
    requires PlainContext(c)
    ensures Selector(c, name) == 0x13
  {
  }

  /** The first task jumps to the second, which jumps back at once. */
  lemma JumpAndBack(s: Cpu, oldEip: dword, use32: bool, offset: dword, eip: dword)
    requires IsRunning(s) && s.task.desc == Lookup(s, 24)
    ensures var o := SwitchTask(s, 32, ByJmp, oldEip);
            && o.Done? && StillParked(o.s, o.s, s)
            && var v := Jmp(o.s, use32, 24, offset, eip);
            && v.Done? && TaskResumed(s, o.s, v.s, oldEip) && Parked(o.s, v.s, ByJmp, eip)
            && forall name :: GetSeg(v.s, name).val == GetSeg(s, name).val
  {
    hide Lookup, LoadContext, ReadW, SetSelector, SwitchTask, Jmp, Loaded, Bit, Enterable, PlainContext, Parked, OwnEntryApart, TaskResumed,
      OtherEntryApart, TaskCached, SwitchApart, Loadable, V86, Runs, Saved, CodeLoaded,
      Descriptor.Type, Descriptor.Present, Descriptor.Base, Descriptor.Busy, Descriptor.Limit, Descriptor.DPL, Descriptor.Is386;
    TripAssumptionsMet(s);
    TaskDescriptors(Lookup(s, 24), Lookup(s, 32));
    EntriesOf(s);
    JumpEnters(s, oldEip);
    JmpSwitchFrees(s, 32, oldEip);
    var u := SwitchTask(s, 32, ByJmp, oldEip).s;
    EntriesOf(u);
    ParkedParts(s, u, oldEip);
    SavedIsPlain(s.mem, s, s.task.base, s.flags % 0x1_0000_0000, oldEip);
    SavedFields(s.mem, s, s.task.base, s.flags % 0x1_0000_0000, oldEip);
    JumpRoundTrip(s, 32, oldEip, u, use32, offset, eip);
    JumpEnters(u, eip);
    JmpIsSwitch(u, use32, 24, offset, eip);
  }

  lemma ParkedParts(s: Cpu, u: Cpu, oldEip: dword)
    requires Parked(s, u, ByJmp, oldEip)
    ensures ContextOf(u, s.task.base) == LeftBehind(s, oldEip)
    ensures var d, e := Lookup(s, s.task.selector), Lookup(u, s.task.selector);
            e.Type() == 9 && e.Base() == d.Base() && (e.Present() <==> d.Present())
  {
    hide Lookup, LoadContext, Saved, SetBit, Descriptor.Type, Descriptor.Present, Descriptor.Base, Descriptor.Limit, Descriptor.DPL;
  }

  lemma TasksJumpAndBack(oldEip: dword, use32: bool, offset: dword, eip: dword)
    ensures var s := Running(TwoTasks());
            var o := SwitchTask(s, 32, ByJmp, oldEip);
            && o.Done? && Jmp(o.s, use32, 24, offset, eip).Done?
            && TaskResumed(s, o.s, Jmp(o.s, use32, 24, offset, eip).s, oldEip)
            && forall name :: GetSeg(Jmp(o.s, use32, 24, offset, eip).s, name).val == GetSeg(s, name).val
  {
    hide IsRunning, TwoTasks, SwitchTask, Jmp, TaskResumed, StillParked, Parked, Lookup;
    RunningIs();
    RunningHeld();
    JumpAndBack(Running(TwoTasks()), oldEip, use32, offset, eip);
  }

  lemma RunningHeld()
    ensures Running(TwoTasks()).task.desc == Lookup(Running(TwoTasks()), 24)
  {
    hide TwoTasks, Lookup, LoadContext, ReadW, HasSegments, PlainContext;
    RunningIs();
  }
}
