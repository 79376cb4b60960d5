/**
 Two tasks on which the task round trip takes place: the running one at level 3, and one it calls
 that returns at once. The assumptions of the round-trip theorem are met by them.
 */
module SmallTasks {
  import opened Bits
  import opened CpuState
  import opened FarTransfers
  import opened PrivilegeProofs
  import opened GateProofs
  import opened TaskProofs
  import opened TaskReturns
  import opened SmallMachine
  import opened Words

  /** The running task's segment is at 1000h. */
  function Running(m: Memory): Cpu {
    Cpu(m, Table(0, 48), Table(0, 0), Table(0, 0), 0, Task(Descriptor(0x1000_0067, 0x8b00), 24, 0x1000, 0x67, true, true),
        true, 3, 0,
        Segment(0x0b, 0), Segment(0x13, 0), Segment(0x13, 0), Segment(0x13, 0), Segment(0x13, 0), Segment(0x13, 0),
        true, true, General(1, 2, 3, 4, 5, 6, 7), 0x5000, 0, 0, 0, 0, 0, false)
  }

  /** The segment of the other task, at 2000h. */
  function Dormant(): Memory { SaveContext(map[], Running(map[]), 0x2000, 0, 0x600) }

  /** The descriptor table at 0: code and data of level 3, the busy and the available task. */
  function WithTable(m0: Memory): Memory {
    var m1 := WriteD(m0, 0 + 12, 0x40_fa00);
    var m2 := WriteD(m1, 0 + 20, 0x40_f200);
    var m3 := WriteD(m2, 0 + 24, 0x1000_0067);
    var m4 := WriteD(m3, 0 + 28, 0x8b00);
    var m5 := WriteD(m4, 0 + 32, 0x2000_0067);
    WriteD(m5, 0 + 36, 0x8900)
  }

  function TwoTasks(): Memory { WithTable(Dormant()) }

  lemma DormantFields()
    ensures Field(Dormant(), 0, 8) == 0 && Field(Dormant(), 0, 16) == 0
  {
    hide SaveContext, ReadD, Running;
    BesideContext(map[], Running(map[]), 0x2000, 0, 0x600, 8);
    BesideContext(map[], Running(map[]), 0x2000, 0, 0x600, 16);
    NothingWritten(8);
    NothingWritten(16);
  }

  lemma TableFields()
    ensures var m := TwoTasks();
            && Field(m, 0, 8) == 0 && Field(m, 0, 12) == 0x40_fa00 && Field(m, 0, 16) == 0 && Field(m, 0, 20) == 0x40_f200
            && Field(m, 0, 24) == 0x1000_0067 && Field(m, 0, 28) == 0x8b00
            && Field(m, 0, 32) == 0x2000_0067 && Field(m, 0, 36) == 0x8900
  {
    hide Field, WriteD, Dormant;
    DormantFields();
    var m0 := Dormant();
    var m1 := WriteD(m0, 0 + 12, 0x40_fa00);
    FieldWritten(m0, 0, 12, 0x40_fa00);
    var m2 := WriteD(m1, 0 + 20, 0x40_f200);
    FieldWritten(m1, 0, 20, 0x40_f200);
    var m3 := WriteD(m2, 0 + 24, 0x1000_0067);
    FieldWritten(m2, 0, 24, 0x1000_0067);
    var m4 := WriteD(m3, 0 + 28, 0x8b00);
    FieldWritten(m3, 0, 28, 0x8b00);
    var m5 := WriteD(m4, 0 + 32, 0x2000_0067);
    FieldWritten(m4, 0, 32, 0x2000_0067);
    FieldWritten(m5, 0, 36, 0x8900);
  }

  lemma FarBelow(a: int)
    requires 0 <= a <= 96
    ensures Beyond(0x1000, a) && Beyond(0x2000, a)
  {
  }

  /** The table is apart from the dormant task's segment. */
  lemma ContextBeyondTable(m0: Memory, m: Memory)
    requires m == WithTable(m0)
    ensures LoadContext(m, 0x2000) == LoadContext(m0, 0x2000)
  {
    hide WriteD, LoadContext, Beyond;
    FarBelow(0 + 12);
    var m1 := WriteD(m0, 0 + 12, 0x40_fa00);
    WriteBeyond(m0, 0x2000, 0 + 12, 0x40_fa00);
    FarBelow(0 + 20);
    var m2 := WriteD(m1, 0 + 20, 0x40_f200);
    WriteBeyond(m1, 0x2000, 0 + 20, 0x40_f200);
    FarBelow(0 + 24);
    var m3 := WriteD(m2, 0 + 24, 0x1000_0067);
    WriteBeyond(m2, 0x2000, 0 + 24, 0x1000_0067);
    FarBelow(0 + 28);
    var m4 := WriteD(m3, 0 + 28, 0x8b00);
    WriteBeyond(m3, 0x2000, 0 + 28, 0x8b00);
    FarBelow(0 + 32);
    var m5 := WriteD(m4, 0 + 32, 0x2000_0067);
    WriteBeyond(m4, 0x2000, 0 + 32, 0x2000_0067);
    FarBelow(0 + 36);
    WriteBeyond(m5, 0x2000, 0 + 36, 0x8900);
  }

  /** Both tasks use the code and the data segment of level 3 only. */
  predicate PlainContext(c: Context) {
    c.cs == 0x0b && c.ss == 0x13 && c.es == 0x13 && c.ds == 0x13 && c.fs == 0x13 && c.gs == 0x13 && c.ldt == 0
  }

  lemma SavedIsPlain(m: Memory, s: Cpu, base: dword, flags: dword, eip: dword)
    requires s.cs.val == 0x0b && ReadW(m, base + 96) == 0 && forall name :: GetSeg(s, name).val == 0x13
    ensures PlainContext(Saved(m, s, base, flags, eip))
  {
    hide ReadW, ReadD;
    assert GetSeg(s, ES).val == GetSeg(s, SS).val == GetSeg(s, DS).val == GetSeg(s, FS).val == GetSeg(s, GS).val == 0x13;
  }

  /** The descriptors of the two segments. */
  predicate HasSegments(x: Cpu) {
    x.gdt == Table(0, 48) && Lookup(x, 0x0b) == Descriptor(0, 0x40_fa00) && Lookup(x, 0x13) == Descriptor(0, 0x40_f200)
  }

  lemma PlainEnters(t: Cpu, c: Context)
    requires t.pmode && !V86(t) && HasSegments(t) && PlainContext(c)
    ensures Enterable(t, c)
  {
    hide LoadDescriptor, Bit, Descriptor.Type, Descriptor.DPL, Descriptor.Present, Descriptor.Base, Descriptor.Big;
    FlatDescriptor(Lookup(t, 0x0b));
    FlatDescriptor(Lookup(t, 0x13));
  }

  lemma PlainLoads(v: Cpu, name: SegName)
    requires HasSegments(v) && v.cpl == 3
    ensures Loadable(v, name, 0x13)
  {
    hide LoadDescriptor, Bit, Descriptor.Type, Descriptor.DPL, Descriptor.Present, Descriptor.Base, Descriptor.Big;
    FlatDescriptor(Lookup(v, 0x13));
  }

  /** The part of the state the example depends on. */
  ghost predicate IsRunning(s: Cpu) {
    && s.gdt == Table(0, 48) && s.pmode && s.cpl == 3 && s.flags == 0 && s.cs.val == 0x0b
    && s.task.selector == 24 && s.task.base == 0x1000 && s.task.is386
    && (forall name :: GetSeg(s, name).val == 0x13)
    && HasSegments(s) && Lookup(s, 24) == Descriptor(0x1000_0067, 0x8b00) && Lookup(s, 32) == Descriptor(0x2000_0067, 0x8900)
    && PlainContext(LoadContext(s.mem, 0x2000)) && LoadContext(s.mem, 0x2000).eflags == 0
    && ReadW(s.mem, 0x1000 + 96) == 0
  }

  lemma RunningIs()
    ensures IsRunning(Running(TwoTasks()))
  {
    hide WithTable, Lookup, LoadContext, PlainContext, ReadW, Field, Saved, SaveContext;
    var s := Running(TwoTasks());
    TableFields();
    EntryAt(s, 0x0b, 8);
    EntryAt(s, 0x13, 16);
    EntryAt(s, 24, 24);
    EntryAt(s, 32, 32);
    ContextBeyondTable(Dormant(), TwoTasks());
    SaveThenLoad(map[], Running(map[]), 0x2000, 0, 0x600);
    EmptyWord(0x2000 + 96);
    SavedIsPlain(map[], Running(map[]), 0x2000, 0, 0x600);
    SavedFields(map[], Running(map[]), 0x2000, 0, 0x600);
    LdtFieldEmpty();
  }

  lemma EmptyWord(a: int)
    ensures ReadW(map[], a) == 0
  {
  }

  /** Nothing is written at the running task's LDT field. */
  lemma LdtFieldEmpty()
    ensures ReadW(TwoTasks(), 0x1000 + 96) == 0
  {
    hide WriteD, ReadD, ReadW, Running, SaveContext;
    var a := 0x1000 + 96;
    var m0 := Dormant();
    BesideContext(map[], Running(map[]), 0x2000, 0, 0x600, a);
    var m1 := WriteD(m0, 0 + 12, 0x40_fa00);
    FarDword(m0, 0 + 12, 0x40_fa00, a);
    var m2 := WriteD(m1, 0 + 20, 0x40_f200);
    FarDword(m1, 0 + 20, 0x40_f200, a);
    var m3 := WriteD(m2, 0 + 24, 0x1000_0067);
    FarDword(m2, 0 + 24, 0x1000_0067, a);
    var m4 := WriteD(m3, 0 + 28, 0x8b00);
    FarDword(m3, 0 + 28, 0x8b00, a);
    var m5 := WriteD(m4, 0 + 32, 0x2000_0067);
    FarDword(m4, 0 + 32, 0x2000_0067, a);
    FarDword(m5, 0 + 36, 0x8900, a);
    NothingWritten(a);
    LowWord(TwoTasks(), a);
  }

  lemma TaskDescriptors(a: Descriptor, b: Descriptor)
    requires a == Descriptor(0x1000_0067, 0x8b00) && b == Descriptor(0x2000_0067, 0x8900)
    ensures a.Type() == 11 && a.Present() && a.Base() == 0x1000
    ensures b.Type() == 9 && b.Present() && b.Base() == 0x2000 && b.Is386() && !b.Busy()
  {
  }

  /** The assumptions of the round trip. */
  lemma TripAssumptionsMet(s: Cpu)
    requires IsRunning(s)
    ensures TaskCached(s) && SwitchApart(s, 32)
    ensures var (to, ok) := SetSelector(s, NO_TASK, 32);
            ok && to.base == 0x2000 && to.is386 && !to.desc.Busy() && to.selector == 32
  {
    hide LoadDescriptor, LoadContext, ReadW, Descriptor.Type, Descriptor.Present, Descriptor.Base, Descriptor.Limit,
      Descriptor.Is386, Descriptor.Busy;
    TaskDescriptors(Lookup(s, 24), Lookup(s, 32));
  }

  /** The call leaves the two segment descriptors where they are. */
  lemma CallKeepsSegments(s: Cpu, oldEip: dword)
    requires IsRunning(s)
    ensures HasSegments(LeaveTask(s, SetSelector(s, NO_TASK, 32).0, ByCall, oldEip))
  {
    hide Lookup, LoadContext, ReadW, ReadD, SetSelector, SaveContext, StoreDescriptor, WriteD, Descriptor.SetBusy, EntryAddress;
    TripAssumptionsMet(s);
    EntryAt(s, 0x0b, 8);
    EntryAt(s, 0x13, 16);
    EntryAt32(s);
    DwordStays(s, oldEip, 8);
    DwordStays(s, oldEip, 12);
    DwordStays(s, oldEip, 16);
    DwordStays(s, oldEip, 20);
    var l := LeaveTask(s, SetSelector(s, NO_TASK, 32).0, ByCall, oldEip);
    LeaveOnly(s, SetSelector(s, NO_TASK, 32).0, ByCall, oldEip);
    LookupIs(s, l, 0x0b);
    LookupIs(s, l, 0x13);
  }

  lemma EntryAt32(s: Cpu)
    requires s.gdt == Table(0, 48)
    ensures EntryAddress(s, 32) == 32
  {
  }

  lemma DwordStays(s: Cpu, oldEip: dword, a: int)
    requires IsRunning(s) && 8 <= a <= 20
    ensures ReadD(LeaveTask(s, SetSelector(s, NO_TASK, 32).0, ByCall, oldEip).mem, a) == ReadD(s.mem, a)
  {
    hide Lookup, LoadContext, ReadW, ReadD, SetSelector, SaveContext, StoreDescriptor, WriteD, Descriptor.SetBusy, EntryAddress, Beyond;
    TripAssumptionsMet(s);
    EntryAt32(s);
    FarBelow(a);
    var to := SetSelector(s, NO_TASK, 32).0;
    var s2 := s.(mem := SaveContext(s.mem, s, s.task.base, s.flags % 0x1_0000_0000, oldEip));
    var s3 := s2.(mem := WriteD(s2.mem, to.base, s.task.selector));
    OldDwordStays(s, s2, s3, to, 32, to.desc.SetBusy(true), oldEip, a);
  }

  lemma NoVirtualBit(f: nat)
    requires f == 0
    ensures !Bit(f, VM_BIT) && !Bit(SetBit(f, NT_BIT, true) % 0x1_0000_0000, VM_BIT)
  {
    hide Bit, SetBit;
    ZeroBit(VM_BIT);
    SetBitBits(f, NT_BIT, true, VM_BIT);
    BitSeventeen(SetBit(f, NT_BIT, true));
    BitSeventeen(SetBit(f, NT_BIT, true) % 0x1_0000_0000);
    SameSeventeen(SetBit(f, NT_BIT, true));
  }

  lemma SameSeventeen(f: nat)
    ensures f % 0x1_0000_0000 / 0x2_0000 % 2 == f / 0x2_0000 % 2
  {
    var q, r := f / 0x1_0000_0000, f % 0x1_0000_0000;
    assert f == 0x2_0000 * (0x8000 * q + r / 0x2_0000) + r % 0x2_0000;
    assert f / 0x2_0000 == 0x8000 * q + r / 0x2_0000;
  }

  lemma SegmentsIn(l: Cpu, t: Cpu)
    requires HasSegments(l) && t.gdt == l.gdt && t.mem == l.mem
    ensures HasSegments(t)
  {
    hide Lookup;
    GdtLookup(l, t, 0x0b);
    GdtLookup(l, t, 0x13);
  }

  /** What the call enters the dormant task with. */
  lemma CallLoads(s: Cpu, oldEip: dword)
    requires IsRunning(s)
    ensures var (t, c) := Loaded(s, 32, ByCall, oldEip);
            t.pmode && !V86(t) && HasSegments(t) && PlainContext(c)
  {
    hide Lookup, LoadContext, ReadW, SetSelector, LeaveTask, LoadRegisters, SetBit, SetFlags, Bit;
    TripAssumptionsMet(s);
    CallKeepsSegments(s, oldEip);
    var to := SetSelector(s, NO_TASK, 32).0;
    LeaveOnly(s, to, ByCall, oldEip);
    var l, loaded := LeaveTask(s, to, ByCall, oldEip), LoadContext(s.mem, to.base);
    var c := loaded.(eflags := SetBit(loaded.eflags, NT_BIT, true) % 0x1_0000_0000);
    RegistersLoaded(l, c, oldEip);
    NoVirtualBit(loaded.eflags);
    VmIsLoaded();
    FlagsRestored(l, c.eflags, 0x6_7fd5, VM_BIT);
    var t := Loaded(s, 32, ByCall, oldEip).0;
    GdtLookup(l, t, 0x0b);
    GdtLookup(l, t, 0x13);
  }

  /** The call completes, in a state from which the return can be made at once. */
  lemma CallCompletes(s: Cpu, oldEip: dword)
    requires IsRunning(s)
    ensures var o := SwitchTask(s, 32, ByCall, oldEip);
            && o.Done? && StillLinked(o.s, o.s, s) && HasSegments(o.s)
            && o.s.task.selector == 32 && o.s.task.base == 0x2000 && LinksBack(s, o.s, oldEip)
  {
    hide Lookup, LoadContext, ReadW, SetSelector, SwitchTask, EnterTask, EnterCode, Loaded, Bit, Enterable, PlainContext, Descriptor.Busy,
      TaskCached, SwitchApart, LeftBehind, CodeLoaded, HasSegments, Loadable;
    TripAssumptionsMet(s);
    CallLoads(s, oldEip);
    SwitchIsEntering(s, 32, ByCall, oldEip);
    var (t, c) := Loaded(s, 32, ByCall, oldEip);
    PlainEnters(t, c);
    EntersIff(t, c, 32);
    var o := SwitchTask(s, 32, ByCall, oldEip);
    CallSwitchLinks(s, 32, oldEip);
    EntersAs(t, t, c, 32);
    SegmentsIn(t, o.s);
  }

  /** And so does the return. */
  lemma ReturnKeepsSegments(u: Cpu, to: Task, eip: dword)
    requires HasSegments(u) && u.task.selector == 32 && u.task.base == 0x2000
    ensures HasSegments(LeaveTask(u, to, ByIret, eip))
  {
    hide Lookup, LeaveTask, EntryAddress, Beyond;
    EntryAt(u, 0x0b, 8);
    EntryAt(u, 0x13, 16);
    FarBelow(8);
    FarBelow(12);
    FarBelow(16);
    FarBelow(20);
    LeftByIret(u, to, 0x0b, eip);
    LeftByIret(u, to, 0x13, eip);
    LeaveOnly(u, to, ByIret, eip);
  }

  /** What the return enters the first task with. */
  lemma ReturnLoads(s: Cpu, u: Cpu, oldEip: dword, eip: dword)
    requires IsRunning(s) && u.pmode && u.gdt == s.gdt && HasSegments(u) && u.task.selector == 32 && u.task.base == 0x2000
    requires Lookup(u, 24) == Lookup(s, 24) && ContextOf(u, 0x1000) == LeftBehind(s, oldEip)
    ensures var (t, c) := Loaded(u, 24, ByIret, eip);
            t.pmode && !V86(t) && HasSegments(t) && PlainContext(c) && c == LeftBehind(s, oldEip)
  {
    hide Lookup, LoadContext, ReadW, SetSelector, LeaveTask, Loaded, Bit, EntryAddress, Saved, Descriptor.Type, Descriptor.Present,
      Descriptor.Base, Descriptor.Limit;
    TaskDescriptors(Lookup(s, 24), Lookup(s, 32));
    InGdt(s, u, 24);
    EntryAt(s, 24, 24);
    TaskRegister(u, NO_TASK, 24, Lookup(s, 24));
    LoadedPlainly(u, 24, ByIret, eip);
    var to := SetSelector(u, NO_TASK, 24).0;
    var (t, c) := Loaded(u, 24, ByIret, eip);
    SavedIsPlain(s.mem, s, s.task.base, s.flags % 0x1_0000_0000, oldEip);
    SavedFields(s.mem, s, s.task.base, s.flags % 0x1_0000_0000, oldEip);
    NoVirtualBit(s.flags);
    VmIsLoaded();
    ReturnKeepsSegments(u, to, eip);
    LeaveOnly(u, to, ByIret, eip);
    SegmentsIn(LeaveTask(u, to, ByIret, eip), t);
  }

  /** The whole trip, the second task returning at once: every register and every segment selector is back. */
  lemma CallTaskAndReturn(s: Cpu, oldEip: dword, use32: bool, eip: dword)
    requires IsRunning(s)
    ensures var o := SwitchTask(s, 32, ByCall, oldEip);
            && o.Done? && Iret(o.s, use32, eip).Done?
            && var v := Iret(o.s, use32, eip).s;
            && TaskResumed(s, o.s, v, oldEip) && v.cpl == s.cpl
            && forall name :: GetSeg(v, name).val == GetSeg(s, name).val
  {
    hide Lookup, LoadContext, ReadW, SetSelector, SwitchTask, EnterTask, EnterCode, Iret, Loaded, Bit, Enterable, PlainContext,
      LeftBehind, TaskCached, SwitchApart, Loadable, V86, CodeLoaded, HasSegments;
    TripAssumptionsMet(s);
    CallCompletes(s, oldEip);
    var u := SwitchTask(s, 32, ByCall, oldEip).s;
    TaskRoundTrip(s, 32, oldEip, u, use32, eip);
    ReturnLoads(s, u, oldEip, eip);
    var (t, c) := Loaded(u, 24, ByIret, eip);
    PlainEnters(t, c);
    IretIsSwitch(u, use32, eip);
    SwitchIsEntering(u, 24, ByIret, eip);
    EntersAs(t, t, c, 24);
    var v := Iret(u, use32, eip).s;
    SegmentsIn(t, v);
    PlainFlags(s);
    forall name
      ensures GetSeg(v, name).val == GetSeg(s, name).val
    {
      PlainLoads(v, name);
    }
  }

  lemma PlainFlags(s: Cpu)
    requires s.flags == 0
    ensures !V86(s)
  {
    hide Bit;
    ZeroBit(VM_BIT);
  }

  lemma TasksMakeTheTrip(oldEip: dword, use32: bool, eip: dword)
    ensures var s := Running(TwoTasks());
            var o := SwitchTask(s, 32, ByCall, oldEip);
            && o.Done? && Iret(o.s, use32, eip).Done?
            && TaskResumed(s, o.s, Iret(o.s, use32, eip).s, oldEip)
            && forall name :: GetSeg(Iret(o.s, use32, eip).s, name).val == GetSeg(s, name).val
  {
    hide IsRunning, Running, TwoTasks, SwitchTask, Iret, TaskResumed;
    RunningIs();
    CallTaskAndReturn(Running(TwoTasks()), oldEip, use32, eip);
  }
}
