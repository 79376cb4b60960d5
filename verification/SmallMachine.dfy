/**
 A machine on which the round trips take place: flat 32-bit segments of levels 0 and 3, a call gate
 with two parameters, an interrupt gate, and a TSS with a stack for level 0. The assumptions of the
 round-trip theorems are met by it.
 */
module SmallMachine {
  import opened Bits
  import opened CpuState
  import opened FarTransfers
  import opened PrivilegeProofs
  import opened GateProofs
  import opened InterruptProofs
  import opened TaskProofs
  import opened Words

  /** The descriptor table at 0, the TSS at 48 and the interrupt table at 64. */
  function Image(): Memory {
    var m1 := WriteD(map[], 0 + 12, 0x40_fa00);       // code, level 3
    var m2 := WriteD(m1, 0 + 20, 0x40_f200);          // data, level 3
    var m3 := WriteD(m2, 0 + 24, 0x20_0000);          // call gate to selector 20h
    var m4 := WriteD(m3, 0 + 28, 0xec02);
    var m5 := WriteD(m4, 0 + 36, 0x40_9a00);          // code, level 0
    var m6 := WriteD(m5, 0 + 44, 0x40_9200);          // data, level 0
    var m7 := WriteD(m6, 0 + 52, 0x3000);             // ESP0 and SS0
    var m8 := WriteD(m7, 0 + 56, 0x28);
    var m9 := WriteD(m8, 0 + 64, 0x20_0000);          // interrupt gate to selector 20h
    WriteD(m9, 0 + 68, 0xee00)
  }

  function Machine(): Cpu {
    Cpu(Image(), Table(0, 48), Table(64, 8), Table(0, 0), 0, Task(NO_DESCRIPTOR, 0, 48, 0x67, true, true),
        true, 3, 0,
        Segment(0x0b, 0), Segment(0x13, 0), Segment(0, 0), Segment(0, 0), Segment(0, 0), Segment(0, 0),
        true, true, General(0, 0, 0, 0, 0, 0, 0), 0x2000, 0, 0, 0, 0, 0, false)
  }

  lemma NothingWritten(a: int)
    ensures ReadD(map[], a) == 0
  {
  }

  lemma ImageFields()
    ensures var m := Image();
            && Field(m, 0, 8) == 0 && Field(m, 0, 12) == 0x40_fa00 && Field(m, 0, 16) == 0 && Field(m, 0, 20) == 0x40_f200
            && Field(m, 0, 24) == 0x20_0000 && Field(m, 0, 28) == 0xec02
            && Field(m, 0, 32) == 0 && Field(m, 0, 36) == 0x40_9a00 && Field(m, 0, 40) == 0 && Field(m, 0, 44) == 0x40_9200
            && Field(m, 0, 52) == 0x3000 && Field(m, 0, 56) == 0x28
            && Field(m, 0, 64) == 0x20_0000 && Field(m, 0, 68) == 0xee00 && Field(m, 0, 88) == 0
  {
    hide Field, WriteD;
    var m1 := WriteD(map[], 0 + 12, 0x40_fa00);
    FieldWritten(map[], 0, 12, 0x40_fa00);
    var m2 := WriteD(m1, 0 + 20, 0x40_f200);
    FieldWritten(m1, 0, 20, 0x40_f200);
    var m3 := WriteD(m2, 0 + 24, 0x20_0000);
    FieldWritten(m2, 0, 24, 0x20_0000);
    var m4 := WriteD(m3, 0 + 28, 0xec02);
    FieldWritten(m3, 0, 28, 0xec02);
    var m5 := WriteD(m4, 0 + 36, 0x40_9a00);
    FieldWritten(m4, 0, 36, 0x40_9a00);
    var m6 := WriteD(m5, 0 + 44, 0x40_9200);
    FieldWritten(m5, 0, 44, 0x40_9200);
    var m7 := WriteD(m6, 0 + 52, 0x3000);
    FieldWritten(m6, 0, 52, 0x3000);
    var m8 := WriteD(m7, 0 + 56, 0x28);
    FieldWritten(m7, 0, 56, 0x28);
    var m9 := WriteD(m8, 0 + 64, 0x20_0000);
    FieldWritten(m8, 0, 64, 0x20_0000);
    FieldWritten(m9, 0, 68, 0xee00);
    UnwrittenFields();
  }

  lemma EmptyField(o: int)
    ensures Field(map[], 0, o) == 0
  {
    NothingWritten(0 + o);
  }

  lemma UnwrittenFields()
    ensures Field(map[], 0, 8) == Field(map[], 0, 16) == Field(map[], 0, 32) == Field(map[], 0, 40) == Field(map[], 0, 88) == 0
  {
    hide Field;
    EmptyField(8);
    EmptyField(16);
    EmptyField(32);
    EmptyField(40);
    EmptyField(88);
  }

  lemma EntryAt(s: Cpu, sel: word, o: nat)
    requires s.gdt == Table(0, 48) && sel / 8 * 8 == o < 48 && sel / 4 % 2 == 0
    ensures Lookup(s, sel) == Descriptor(Field(s.mem, 0, o), Field(s.mem, 0, o + 4))
    ensures EntryAddress(s, sel) == o
  {
    hide ReadD;
  }

  /** The part of the state the examples depend on. */
  ghost predicate IsMachine(s: Cpu) {
    && s.mem == Image() && s.gdt == Table(0, 48) && s.idt == Table(64, 8) && s.task.is386 && s.task.base == 48
    && s.pmode && s.cpl == 3 && s.cs == Segment(0x0b, 0) && s.ss == Segment(0x13, 0) && s.codeBig && s.stackBig
    && s.esp == 0x2000 && s.flags == 0
  }

  lemma MachineIs()
    ensures IsMachine(Machine())
  {
    hide Image;
  }

  lemma Descriptors(s: Cpu)
    requires IsMachine(s)
    ensures Lookup(s, 0x0b) == Descriptor(0, 0x40_fa00) && EntryAddress(s, 0x0b) == 8
    ensures Lookup(s, 0x13) == Descriptor(0, 0x40_f200) && EntryAddress(s, 0x13) == 16
    ensures Lookup(s, 0x1b) == Descriptor(0x20_0000, 0xec02)
    ensures Lookup(s, 0x20) == Descriptor(0, 0x40_9a00) && Lookup(s, 0x28) == Descriptor(0, 0x40_9200)
  {
    hide Field, Image, Lookup, EntryAddress;
    ImageFields();
    EntryAt(s, 0x0b, 8);
    EntryAt(s, 0x13, 16);
    EntryAt(s, 0x1b, 24);
    EntryAt(s, 0x20, 32);
    EntryAt(s, 0x28, 40);
  }

  lemma FieldIs(m: Memory, a: int, o: int)
    requires a == o
    ensures Field(m, 0, o) == ReadD(m, a)
  {
  }

  lemma StackOf(s: Cpu, l: level, base: dword)
    requires s.task.is386 && s.task.base == base
    ensures TaskStack(s, l) == (ReadW(s.mem, base + 8 + l * 8), ReadD(s.mem, base + 4 + l * 8))
  {
    hide ReadD, ReadW;
  }

  lemma Stack0(s: Cpu)
    requires IsMachine(s)
    ensures TaskStack(s, 0) == (0x28, 0x3000)
  {
    hide ReadD, ReadW, Image, Field, TaskStack;
    ImageFields();
    StackOf(s, 0, 48);
    FieldIs(s.mem, 52, 52);
    FieldIs(s.mem, 56, 56);
    LowWord(s.mem, 56);
  }

  lemma GateAt(s: Cpu, num: nat, a: int)
    requires num * 8 < s.idt.limit && a == s.idt.base + num * 8
    ensures IdtGate(s, num) == Descriptor(ReadD(s.mem, a), ReadD(s.mem, a + 4))
  {
    hide ReadD;
  }

  lemma Gate0(s: Cpu)
    requires IsMachine(s)
    ensures IdtGate(s, 0) == Descriptor(0x20_0000, 0xee00)
  {
    hide ReadD, Image, Field, IdtGate;
    ImageFields();
    GateAt(s, 0, 64);
    FieldIs(s.mem, 64, 64);
    FieldIs(s.mem, 68, 68);
  }

  lemma FlatDescriptor(d: Descriptor)
    requires d.lo == 0 && (d.hi == 0x40_fa00 || d.hi == 0x40_f200 || d.hi == 0x40_9a00 || d.hi == 0x40_9200)
    ensures d.Base() == 0 && d.Big() && d.Present() && d.DPL() == (if d.hi == 0x40_fa00 || d.hi == 0x40_f200 then 3 else 0)
    ensures d.Type() == if d.hi == 0x40_fa00 || d.hi == 0x40_9a00 then 0x1a else 0x12
  {
  }

  lemma GateDescriptor(d: Descriptor)
    requires d.lo == 0x20_0000 && (d.hi == 0xec02 || d.hi == 0xee00)
    ensures d.Selector() == 0x20 && d.DPL() == 3
    ensures d.hi == 0xec02 ==> d.Type() == CALL_GATE_386 && d.Params() == 2
    ensures d.hi == 0xee00 ==> d.Type() == 14
  {
  }

  lemma NotVirtual(s: Cpu)
    requires IsMachine(s)
    ensures !V86(s) && RplIsCpl(s)
  {
    hide Bit, Image;
    NoFlags();
  }

  lemma BelowTop(top: int, n: nat, a: int, size: nat)
    requires 0 <= a && a + size <= top - n && top <= 0x1_0000
    ensures Clear(top, n, a, size)
  {
  }

  /** The assumptions of the call-gate theorem. */
  lemma CallAssumptionsMet(s: Cpu)
    requires IsMachine(s)
    ensures CallsInward(s, 0x1b) && FrameApart(s, 0x1b) && Cached(s, s) && GateOf(s, 0x1b).Params() == 2
  {
    hide Lookup, Image, TaskStack, Bit, RplIsCpl, Clear, Depth, EntryAddress, Descriptor.Type, Descriptor.DPL,
      Descriptor.Base, Descriptor.Big, Descriptor.Selector, Descriptor.Params;
    Descriptors(s);
    Stack0(s);
    NotVirtual(s);
    GateDescriptor(Lookup(s, 0x1b));
    FlatDescriptor(Lookup(s, 0x0b));
    FlatDescriptor(Lookup(s, 0x13));
    FlatDescriptor(Lookup(s, 0x20));
    FlatDescriptor(Lookup(s, 0x28));
    BelowTop(0x3000, 24, 0x2000, 8);
    BelowTop(0x3000, 24, 8, 8);
    BelowTop(0x3000, 24, 16, 8);
  }

  /** The assumptions of the interrupt theorem, for a software interrupt through the same levels. */
  lemma InterruptAssumptionsMet(s: Cpu)
    requires IsMachine(s)
    ensures InterruptsInward(s, 0, Kind(true, false, false)) && DescriptorsApart(s, 0)
  {
    hide Lookup, Image, TaskStack, Bit, RplIsCpl, Clear, Depth, EntryAddress, IdtGate, Descriptor.Type, Descriptor.DPL,
      Descriptor.Base, Descriptor.Big, Descriptor.Selector;
    Descriptors(s);
    Stack0(s);
    Gate0(s);
    NotVirtual(s);
    GateDescriptor(IdtGate(s, 0));
    FlatDescriptor(Lookup(s, 0x20));
    FlatDescriptor(Lookup(s, 0x28));
    BelowTop(0x3000, 24, 8, 8);
    BelowTop(0x3000, 24, 16, 8);
  }

  /** The whole trip on this machine, the callee returning at once. */
  lemma CallAndReturn(s: Cpu, oldEip: dword)
    requires IsMachine(s)
    ensures var o := Call(s, true, 0x1b, 0, oldEip);
            o.Done? && Ret(o.s, true, 8).Done? && Resumed(s, Ret(o.s, true, 8).s, 2, oldEip)
  {
    hide IsMachine, FrameApart, CallsInward, Stacked, AgreeAbove, At, Ret, Call, Cached, V86, FrameOf, Resumed, Entered,
      InnerTop, Lookup, Descriptor.Params;
    CallAssumptionsMet(s);
    CallBuildsFrame(s, true, 0x1b, 0, oldEip);
    var c := Call(s, true, 0x1b, 0, oldEip).s;
    StillNotVirtual(s, c);
    CallGateRoundTrip(s, true, 0x1b, 0, oldEip, c);
  }

  /** And the interrupt's, the handler returning at once. */
  lemma InterruptAndReturn(s: Cpu, oldEip: dword, back: dword)
    requires IsMachine(s)
    ensures var o := Interrupt(s, 0, Kind(true, false, false), oldEip);
            && o.Done? && Iret(o.s, true, back).Done?
            && InterruptedResumed(s, Iret(o.s, true, back).s, oldEip, IretMask(o.s))
  {
    hide IsMachine, InterruptsInward, DescriptorsApart, Stacked, AgreeAbove, Interrupt, Iret, V86, ReturnFrame, HandlerTop,
      HandlerEntered, Lookup, IretMask, InterruptedResumed, ClearInterruptFlags, Bit, Address;
    var kind := Kind(true, false, false);
    InterruptAssumptionsMet(s);
    CachedMachine(s);
    InterruptBuildsFrame(s, 0, kind, oldEip);
    var c := Interrupt(s, 0, kind, oldEip).s;
    HandlerStarts(s, 0, c);
    PlainFrame(s, oldEip, kind);
    InterruptRoundTrip(s, 0, kind, oldEip, c, back);
  }

  lemma CachedMachine(s: Cpu)
    requires IsMachine(s)
    ensures Cached(s, s) && s.pmode && s.flags < 0x1_0000_0000
  {
    hide FrameApart, CallsInward, Image;
    CallAssumptionsMet(s);
  }

  lemma PlainFrame(s: Cpu, oldEip: dword, kind: Kind)
    requires !kind.hasError
    ensures ReturnFrame(s, oldEip) + ErrorCode(s, kind) == ReturnFrame(s, oldEip) && |ReturnFrame(s, oldEip)| == 5
  {
  }

  lemma HandlerStarts(s: Cpu, num: nat, c: Cpu)
    requires s.pmode && c == HandlerEntered(s, num).(mem := c.mem, esp := c.esp)
    ensures c.pmode && !V86(c) && !Bit(c.flags, NT_BIT)
  {
    hide Bit, SetBit, Lookup, IdtGate, TaskStack, WithRpl;
    var gate := IdtGate(s, num);
    var f1 := if gate.Type() % 2 == 0 then SetBit(s.flags, IF_BIT, false) else s.flags;
    var f2 := SetBit(SetBit(f1, TF_BIT, false), NT_BIT, false);
    SetBitBits(SetBit(f1, TF_BIT, false), NT_BIT, false, NT_BIT);
    SetBitBits(f2, VM_BIT, false, NT_BIT);
    SetBitBits(f2, VM_BIT, false, VM_BIT);
  }

  /** Both trips take place: this is such a machine. */
  lemma MachineMakesTheTrips(oldEip: dword, back: dword)
    ensures var s := Machine();
            var c, i := Call(s, true, 0x1b, 0, oldEip), Interrupt(s, 0, Kind(true, false, false), oldEip);
            && c.Done? && Ret(c.s, true, 8).Done? && Resumed(s, Ret(c.s, true, 8).s, 2, oldEip)
            && i.Done? && Iret(i.s, true, back).Done?
            && InterruptedResumed(s, Iret(i.s, true, back).s, oldEip, IretMask(i.s))
  {
    hide IsMachine, Machine, Call, Ret, Interrupt, Iret, Resumed, InterruptedResumed, IretMask;
    MachineIs();
    CallAndReturn(Machine(), oldEip);
    InterruptAndReturn(Machine(), oldEip, back);
  }

  /** The machine at level 3 with a return frame that names the segments of level 0. */
  function WithInnerFrame(s: Cpu): Cpu {
    s.(mem := WriteD(WriteD(s.mem, 0 + 84, 0x20), 0 + 96, 0x28), esp := 80)
  }

  lemma InnerFrameFields(m: Memory)
    requires m == WriteD(WriteD(Image(), 0 + 84, 0x20), 0 + 96, 0x28)
    ensures Field(m, 0, 84) == 0x20 && Field(m, 0, 88) == 0 && Field(m, 0, 96) == 0x28
    ensures Field(m, 0, 32) == 0 && Field(m, 0, 36) == 0x40_9a00 && Field(m, 0, 40) == 0 && Field(m, 0, 44) == 0x40_9200
  {
    hide Field, WriteD, Image;
    ImageFields();
    FieldWritten(Image(), 0, 84, 0x20);
    FieldWritten(WriteD(Image(), 0 + 84, 0x20), 0, 96, 0x28);
  }

  lemma FramePeeks(t: Cpu)
    requires t.stackBig && t.ss.phys == 0 && t.esp == 80
    ensures IretSelector(t, true) == Low16(Field(t.mem, 0, 84))
    ensures IretStackSelector(t, true) == Low16(Field(t.mem, 0, 96))
    ensures Field(t.mem, 0, 88) == 0 ==> !IretsToV86(t, true)
  {
    hide ReadD, Bit;
    NoFlags();
  }

  /** An IRET at level 3 that ends at level 0. */
  lemma IretToLevelZero(s: Cpu, oldEip: dword)
    requires IsMachine(s)
    ensures var t := WithInnerFrame(s); t.cpl == 3 && Iret(t, true, oldEip).Done? && Iret(t, true, oldEip).s.cpl == 0
  {
    hide Image, Field, Iret, Bit, V86, WriteD;
    var t := WithInnerFrame(s);
    InnerFrameFields(t.mem);
    StaysPlain(s, t);
    IretWithFrame(t, oldEip);
  }

  lemma IretWithFrame(t: Cpu, oldEip: dword)
    requires t.pmode && !V86(t) && !Bit(t.flags, NT_BIT) && t.cpl == 3 && t.gdt == Table(0, 48)
    requires t.stackBig && t.ss.phys == 0 && t.esp == 80
    requires Field(t.mem, 0, 84) == 0x20 && Field(t.mem, 0, 88) == 0 && Field(t.mem, 0, 96) == 0x28
    requires Field(t.mem, 0, 32) == 0 && Field(t.mem, 0, 36) == 0x40_9a00
    requires Field(t.mem, 0, 40) == 0 && Field(t.mem, 0, 44) == 0x40_9200
    ensures Iret(t, true, oldEip).Done? && Iret(t, true, oldEip).s.cpl == 0
  {
    hide Field, Iret, Lookup, Bit, V86, IretSelector, IretStackSelector, IretsToV86, EntryAddress, Descriptor.Type, Descriptor.DPL,
      Descriptor.Base, Descriptor.Big;
    FramePeeks(t);
    EntryAt(t, 0x20, 32);
    EntryAt(t, 0x28, 40);
    FlatDescriptor(Lookup(t, 0x20));
    FlatDescriptor(Lookup(t, 0x28));
    IretRaisesPrivilegeIff(t, true, oldEip);
    IretLowersCplIff(t, true, oldEip);
  }

  lemma StaysPlain(s: Cpu, t: Cpu)
    requires IsMachine(s) && t.flags == s.flags
    ensures !V86(t) && !Bit(t.flags, NT_BIT)
  {
    hide Bit, Image;
    ZeroBit(VM_BIT);
    ZeroBit(NT_BIT);
  }

  lemma StillNotVirtual(s: Cpu, c: Cpu)
    requires IsMachine(s) && c == Entered(s, 0x1b, true).(mem := c.mem, esp := c.esp)
    ensures c.pmode && !V86(c)
  {
    hide Lookup, Image, TaskStack, Bit;
    NotVirtual(s);
  }
}
