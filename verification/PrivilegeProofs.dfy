/**
 Outside real and virtual-8086 mode the low two bits of CS are the current privilege level: five of
 the six transfers keep this from any state, and a return at the same level does unless the pop of
 the selector wraps around a 16-bit stack that the look at it did not wrap around.
 */
module PrivilegeProofs {
  import opened Bits
  import opened CpuState
  import opened FarTransfers
  import opened Words

  ghost predicate RplIsCpl(s: Cpu) {
    s.pmode && !V86(s) ==> Rpl(s.cs.val) == s.cpl
  }

  ghost predicate KeepsRpl(o: Outcome) {
    (o.Done? || o.Raise?) ==> RplIsCpl(o.s)
  }

  // ----- the virtual-8086 bit

  lemma {:induction false} SelectBit(f: nat, w: nat, m: nat, k: nat)
    ensures Bit(Select(f, w, m), k) == if Bit(m, k) then Bit(w, k) else Bit(f, k)
    decreases k
  {
    if k > 0 {
      SelectBit(f / 2, w / 2, m / 2, k - 1);
    }
  }

  lemma SetBitBits(f: nat, k: nat, b: bool, j: nat)
    ensures Bit(SetBit(f, k, b), j) == if j == k then b else Bit(f, j)
  {
    SelectBit(f, if b then Pow2(k) else 0, Pow2(k), j);
    PowerBit(k, j);
    ZeroBit(j);
  }

  lemma MaskBits()
    ensures !Bit(FMASK_ALL, VM_BIT) && !Bit(FMASK_ALL % 0x1_0000, VM_BIT) && !Bit(FMASK_NORMAL + FLAG_NT, VM_BIT)
    ensures Bit(FMASK_ALL + FLAG_VM, VM_BIT) && !Bit(0x20_0000, VM_BIT)
  {
    hide Bit;
    BitSeventeen(FMASK_ALL);
    BitSeventeen(FMASK_ALL % 0x1_0000);
    BitSeventeen(FMASK_NORMAL + FLAG_NT);
    BitSeventeen(FMASK_ALL + FLAG_VM);
    BitSeventeen(0x20_0000);
  }

  lemma BitFromTop(x: nat, k: nat)
    ensures Bit(x, k + 4) == Bit(x / 16, k)
  {
    assert Bit(x, k + 4) == Bit(x / 2, k + 3) == Bit(x / 2 / 2, k + 2) == Bit(x / 2 / 2 / 2, k + 1) == Bit(x / 2 / 2 / 2 / 2, k);
  }

  lemma BitSeventeen(x: nat)
    ensures Bit(x, VM_BIT) <==> x / 0x2_0000 % 2 == 1
  {
    hide Bit;
    BitFromTop(x, 13);
    BitFromTop(x / 16, 9);
    BitFromTop(x / 16 / 16, 5);
    BitFromTop(x / 16 / 16 / 16, 1);
    var y := x / 16 / 16 / 16 / 16;
    assert Bit(y, 1) == (y / 2 % 2 == 1) by {
      SecondBit(y);
    }
  }

  lemma SecondBit(y: nat)
    ensures Bit(y, 1) == (y / 2 % 2 == 1)
  {
  }

  lemma SetFlagsVm(s: Cpu, w: nat, mask: nat)
    ensures V86(SetFlags(s, w, mask)) == if Bit(mask, VM_BIT) then Bit(w, VM_BIT) else V86(s)
  {
    hide Bit, Select, SetBit;
    MaskBits();
    SelectBit(mask, 0x20_0000, 0x20_0000, VM_BIT);
    var m := if s.idToggle then Select(mask, 0x20_0000, 0x20_0000) else mask;
    SelectBit(s.flags, w, m, VM_BIT);
    SetBitBits(Select(s.flags, w, m), 1, true, VM_BIT);
  }

  /** CPU_SetFlags takes the bits under its mask from the new word. */
  lemma FlagsRestored(t: Cpu, w: nat, mask: nat, k: nat)
    requires k != 1 && Bit(mask, k)
    ensures Bit(SetFlags(t, w, mask).flags, k) == Bit(w, k)
  {
    hide Bit, Select, SetBit;
    var m := if t.idToggle then Select(mask, 0x20_0000, 0x20_0000) else mask;
    SelectBit(mask, 0x20_0000, 0x20_0000, k);
    IdBitSelects(mask, k);
    SelectBit(t.flags, w, m, k);
    SetBitBits(Select(t.flags, w, m), 1, true, k);
  }

  lemma IdBitSelects(mask: nat, k: nat)
    requires Bit(mask, k)
    ensures Bit(Select(mask, 0x20_0000, 0x20_0000), k)
  {
    SelectBit(mask, 0x20_0000, 0x20_0000, k);
  }

  // ----- what only moves data

  /** The parts of the state the property is about are the same. */
  ghost predicate Same(s: Cpu, t: Cpu) {
    t.pmode == s.pmode && t.flags == s.flags && t.cpl == s.cpl && t.cs == s.cs && t.codeBig == s.codeBig
  }

  lemma PushesKeep(s: Cpu, use32: bool, v: dword, w: dword)
    ensures Same(s, Push(s, use32, v)) && Same(s, Push(Push(s, use32, v), use32, w))
    ensures Same(s, PushFrame(s, use32, v)) && Same(s, PushV86Segments(s))
  {
    hide WriteD, WriteW, Moved, StackAddress;
  }

  lemma Push16Keeps(s: Cpu, v: word)
    ensures Same(s, Push16(s, v))
  {
    hide WriteW, Moved, StackAddress;
  }

  lemma RplOfWithRpl(sel: word, cpl: level)
    ensures Rpl(WithRpl(sel, cpl)) == cpl
  {
  }

  lemma SetSegKeeps(s: Cpu, name: SegName, v: word)
    ensures SetSegGeneral(s, name, v).Done? ==> Same(s, SetSegGeneral(s, name, v).s)
    ensures !SetSegGeneral(s, name, v).Raise?
  {
    hide SetReal, SetStack, SetData, Bit;
    SetRealKeeps(s, name, v);
    SetDataKeeps(s, name, v);
    SetStackKeeps(s, v);
  }

  lemma SetRealKeeps(s: Cpu, name: SegName, v: word)
    ensures Same(s, SetReal(s, name, v))
  {
    match name
    case ES | SS | DS | FS | GS =>
  }

  lemma PutKeeps(s: Cpu, name: SegName, v: Segment)
    ensures Same(s, PutSeg(s, name, v)) && Same(s, FixFs(PutSeg(s, name, v)))
  {
    match name
    case ES | SS | DS | FS | GS =>
  }

  lemma SetDataKeeps(s: Cpu, name: SegName, v: word)
    ensures Same(s, SetData(s, name, v))
  {
    hide Lookup, InTable, WithRpl, Rpl, PutSeg, FixFs, Descriptor.Type, Descriptor.DPL, Descriptor.Present, Descriptor.Base;
    PutKeeps(s, name, Segment(v, 0));
    PutKeeps(s, name, Segment(v, Lookup(s, v).Base()));
  }

  lemma SetStackKeeps(s: Cpu, v: word)
    ensures SetStack(s, v).Done? ==> Same(s, SetStack(s, v).s)
    ensures !SetStack(s, v).Raise?
  {
    hide Lookup, InTable, WithRpl, Rpl, Descriptor.Type, Descriptor.DPL, Descriptor.Present, Descriptor.Base;
  }

  lemma CheckKeeps(o: Outcome, name: SegName)
    ensures CheckSegment(o, name).Done? ==> o.Done? && Same(o.s, CheckSegment(o, name).s)
    ensures CheckSegment(o, name).Raise? ==> o.Raise?
  {
    hide SetSegGeneral, Lookup, InTable;
    if o.Done? {
      SetSegKeeps(o.s, name, 0);
    }
  }

  lemma ChecksKeep(s: Cpu)
    ensures CheckSegments(s).Done? ==> Same(s, CheckSegments(s).s)
    ensures !CheckSegments(s).Raise?
  {
    hide CheckSegment;
    CheckKeeps(Done(s), ES);
    CheckKeeps(CheckSegment(Done(s), ES), DS);
    CheckKeeps(CheckSegment(CheckSegment(Done(s), ES), DS), FS);
    CheckKeeps(CheckSegment(CheckSegment(CheckSegment(Done(s), ES), DS), FS), GS);
  }

  lemma AndSetKeeps(o: Outcome, name: SegName, v: word)
    ensures AndSet(o, name, v).Done? ==> o.Done? && Same(o.s, AndSet(o, name, v).s)
    ensures AndSet(o, name, v).Raise? ==> o.Raise?
  {
    hide SetSegGeneral;
    if o.Done? {
      SetSegKeeps(o.s, name, v);
    }
  }

  // ----- the transfers

  lemma EnterTaskKeeps(o: Outcome, c: Context, sel: word)
    ensures EnterTask(o, c, sel).Done? ==> o.Done? && Same(o.s, EnterTask(o, c, sel).s)
    ensures EnterTask(o, c, sel).Raise? ==> o.Raise?
  {
    hide AndSet, SetSelector;
    var o1 := AndSet(o, ES, c.es);
    var o2 := AndSet(o1, SS, c.ss);
    var o3 := AndSet(o2, DS, c.ds);
    var o4 := AndSet(o3, FS, c.fs);
    AndSetKeeps(o, ES, c.es);
    AndSetKeeps(o1, SS, c.ss);
    AndSetKeeps(o2, DS, c.ds);
    AndSetKeeps(o3, FS, c.fs);
    AndSetKeeps(o4, GS, c.gs);
  }

  lemma EnterCodeSetsRpl(s: Cpu, cs: word, ldt: word)
    ensures EnterCode(s, cs, ldt).Done? ==> RplIsCpl(EnterCode(s, cs, ldt).s)
    ensures !EnterCode(s, cs, ldt).Raise?
  {
    hide Lookup, InTable, Bit;
  }

  /** A task switch makes the level the new CS's, whatever it was before. */
  lemma SwitchTaskSetsRpl(s: Cpu, sel: word, how: SwitchType, oldEip: dword)
    ensures SwitchTask(s, sel, how, oldEip).Done? ==> RplIsCpl(SwitchTask(s, sel, how, oldEip).s)
    ensures !SwitchTask(s, sel, how, oldEip).Raise?
  {
    hide EnterTask, EnterCode, LeaveTask, LoadRegisters, SetSelector, LoadContext, SetBit, RplIsCpl;
    var (to, ok) := SetSelector(s, NO_TASK, sel);
    if SwitchTask(s, sel, how, oldEip).Exit? {
      return;
    }
    var loaded := LoadContext(s.mem, to.base);
    var c0 := if how.ByCall? then loaded.(eflags := SetBit(loaded.eflags, NT_BIT, true) % 0x1_0000_0000) else loaded;
    var left := LeaveTask(s, to, how, oldEip);
    var same := sel == left.task.selector;
    var c := Selectors(left, c0, same);
    var o := EnterCode(LoadRegisters(left, c, same, oldEip), c.cs, c.ldt);
    EnterCodeSetsRpl(LoadRegisters(left, c, same, oldEip), c.cs, c.ldt);
    EnterTaskKeeps(o, c, sel);
    SameKeepsRpl(o, EnterTask(o, c, sel));
  }

  lemma SameKeepsRpl(o: Outcome, r: Outcome)
    requires o.Done? && RplIsCpl(o.s) && r.Done? ==> Same(o.s, r.s)
    ensures o.Done? && RplIsCpl(o.s) && r.Done? ==> RplIsCpl(r.s)
  {
    hide Bit;
  }

  lemma HandlerSetsRpl(s: Cpu, gate: Descriptor, code: Descriptor, kind: Kind, oldEip: dword)
    ensures RplIsCpl(EnterHandler(s, gate, code, kind, oldEip))
  {
    hide InterruptFrame, WithRpl, Rpl, ClearInterruptFlags, Bit;
    RplOfWithRpl(gate.Selector(), InterruptFrame(s, gate, kind, oldEip).cpl);
  }

  lemma GateInterruptSetsRpl(s: Cpu, gate: Descriptor, kind: Kind, oldEip: dword)
    ensures var o := GateInterrupt(s, gate, kind, oldEip); (o.Done? ==> RplIsCpl(o.s)) && !o.Raise?
  {
    hide EnterHandler, InnerStack, Lookup, RplIsCpl, Bit;
    var code := Lookup(s, gate.Selector());
    var o := InnerStack(s, gate, code.DPL());
    InnerStackParts(s, gate, code.DPL());
    if o.Done? {
      HandlerSetsRpl(o.s, gate, code, kind, oldEip);
    }
    HandlerSetsRpl(s, gate, code, kind, oldEip);
  }

  lemma InnerStackParts(s: Cpu, gate: Descriptor, dpl: level)
    ensures !InnerStack(s, gate, dpl).Raise?
  {
    hide Lookup, TaskStack, PushV86Segments, Push, SwitchStack;
  }

  lemma InterruptKeepsRpl(s: Cpu, num: nat, kind: Kind, oldEip: dword)
    requires RplIsCpl(s)
    ensures KeepsRpl(Interrupt(s, num, kind, oldEip))
  {
    hide GateInterrupt, TaskInterrupt, RealInterrupt, IdtGate, Bit;
    RealStaysReal(s, num, oldEip);
    GateInterruptSetsRpl(s, IdtGate(s, num), kind, oldEip);
    TaskInterruptSetsRpl(s, IdtGate(s, num), kind, oldEip);
  }

  lemma RealStaysReal(s: Cpu, num: nat, oldEip: dword)
    ensures RealInterrupt(s, num, oldEip).pmode == s.pmode
  {
    hide Push16, PushFrame, SetBit, ReadW;
    Push16Keeps(s, s.flags % 0x1_0000);
    PushesKeep(Push16(s, s.flags % 0x1_0000), false, oldEip, 0);
  }

  lemma TaskInterruptSetsRpl(s: Cpu, gate: Descriptor, kind: Kind, oldEip: dword)
    ensures var o := TaskInterrupt(s, gate, kind, oldEip); (o.Done? ==> RplIsCpl(o.s)) && !o.Raise?
  {
    hide SwitchTask, Push, Bit;
    var o := SwitchTask(s, gate.Selector(), ByCall, oldEip);
    SwitchTaskSetsRpl(s, gate.Selector(), ByCall, oldEip);
    if o.Done? {
      PushesKeep(o.s, o.s.task.is386, o.s.error % 0x1_0000_0000, 0);
    }
  }

  lemma IretKeepsRpl(s: Cpu, use32: bool, oldEip: dword)
    requires RplIsCpl(s)
    ensures KeepsRpl(Iret(s, use32, oldEip))
  {
    hide RealIret, V86Iret, IretToV86, IretSameLevel, IretOuterLevel, SwitchTask, Bit, Top, Peek, Lookup, Moved;
    RealIretStays(s, use32);
    SwitchTaskSetsRpl(s, ReadW(s.mem, s.task.base), ByIret, oldEip);
    if s.pmode && !V86(s) {
      var e1 := Moved(s, s.esp, Width(use32));
      var e2 := Moved(s, e1, Width(use32));
      var e3 := Moved(s, e2, Width(use32));
      var eip, cs, flags := Top(s, use32), Low16(Peek(s, use32, e1)), Peek(s, use32, e2);
      var f := if use32 then flags else flags + s.flags / 0x1_0000 * 0x1_0000;
      IretToV86Leaves(s.(esp := e3), eip, cs, flags);
      IretSameSets(s, Lookup(s, cs), cs, eip, f, e3);
      IretOuterSets(s, use32, Lookup(s, cs), cs, eip, f, e3);
    }
  }

  lemma RealIretStays(s: Cpu, use32: bool)
    ensures RealIret(s, use32).pmode == s.pmode
    ensures V86Iret(s, use32).pmode == s.pmode && V86(V86Iret(s, use32)) == V86(s)
  {
    hide Top, Moved, Select, SetBit, Bit;
    MaskBits();
    var s1 := Popped(s, use32);
    var s2 := Popped(s1, use32);
    SetFlagsVm(LoadCode(Popped(s2, use32), RealSegment(Low16(Top(s1, use32))), false, Top(s, use32)),
               Top(s2, use32), FMASK_NORMAL + FLAG_NT);
  }

  lemma IretToV86Leaves(s: Cpu, eip: dword, cs: word, flags: dword)
    ensures var o := IretToV86(s, eip, cs, flags); (o.Done? && Bit(flags, VM_BIT) ==> V86(o.s)) && !o.Raise?
  {
    hide Top, V86Segments, Bit, Moved, SetFlags;
    var s0 := s.(eip := eip % 0x1_0000);
    var s1, s2 := Popped(s0, true), Popped(Popped(s0, true), true);
    var s3, s4 := Popped(s2, true), Popped(Popped(s2, true), true);
    var s5 := Popped(s4, true);
    var t := EnterV86(Popped(s5, true), flags);
    MaskBits();
    SetFlagsVm(Popped(s5, true), flags, FMASK_ALL + FLAG_VM);
    V86SegmentsKeep(Done(t), Low16(Top(s1, true)), Low16(Top(s2, true)), Low16(Top(s3, true)), Low16(Top(s4, true)),
                    Low16(Top(s5, true)));
  }

  lemma V86SegmentsKeep(o: Outcome, ss: word, es: word, ds: word, fs: word, gs: word)
    ensures var r := V86Segments(o, ss, es, ds, fs, gs); (r.Done? ==> o.Done? && Same(o.s, r.s)) && (r.Raise? ==> o.Raise?)
  {
    hide AndSet;
    var o1 := AndSet(o, SS, ss);
    var o2 := AndSet(o1, ES, es);
    var o3 := AndSet(o2, DS, ds);
    var o4 := AndSet(o3, FS, fs);
    AndSetKeeps(o, SS, ss);
    AndSetKeeps(o1, ES, es);
    AndSetKeeps(o2, DS, ds);
    AndSetKeeps(o3, FS, fs);
    AndSetKeeps(o4, GS, gs);
  }

  lemma IretSameSets(s: Cpu, d: Descriptor, cs: word, eip: dword, flags: nat, esp: dword)
    ensures Rpl(cs) == s.cpl ==> RplIsCpl(IretSameLevel(s, d, cs, eip, flags, esp))
  {
    hide Select, SetBit, Bit, IretMask;
  }

  lemma IretOuterSets(s: Cpu, use32: bool, d: Descriptor, cs: word, eip: dword, flags: nat, at: dword)
    ensures var o := IretOuterLevel(s, use32, d, cs, eip, flags, at); (o.Done? ==> RplIsCpl(o.s)) && !o.Raise?
  {
    hide Peek, Lookup, SetFlags, Bit, CheckSegments, IretMask;
    var esp, sel := Peek(s, use32, at), Low16(Peek(s, use32, Moved(s, at, Width(use32))));
    var n := Lookup(s, sel);
    var t := SetFlags(LoadCode(s, Segment(cs, d.Base()), d.Big(), eip), flags, IretMask(s));
    FlagsOnly(LoadCode(s, Segment(cs, d.Base()), d.Big(), eip), flags, IretMask(s));
    ChecksKeep(SwitchLevel(t, sel, n, esp, Rpl(cs)));
  }

  lemma FlagsOnly(s: Cpu, w: nat, mask: nat)
    ensures SetFlags(s, w, mask) == s.(flags := SetFlags(s, w, mask).flags)
  {
  }

  lemma JmpKeepsRpl(s: Cpu, use32: bool, sel: word, offset: dword, oldEip: dword)
    requires RplIsCpl(s)
    ensures KeepsRpl(Jmp(s, use32, sel, offset, oldEip))
  {
    hide SwitchTask, Lookup, Bit, WithRpl, Rpl;
    SwitchTaskSetsRpl(s, sel, ByJmp, oldEip);
    RplOfWithRpl(sel, s.cpl);
  }

  lemma {:induction false} CopyKeeps(s: Cpu, from: int, k: nat, use32: bool)
    ensures Same(s, CopyParams(s, from, k, use32))
    decreases k
  {
    hide Push, ParamAt;
    if k > 0 {
      PushesKeep(s, use32, ParamAt(s, from, k - 1, use32), 0);
      CopyKeeps(Push(s, use32, ParamAt(s, from, k - 1, use32)), from, k - 1, use32);
    }
  }

  lemma GateInnerSets(s: Cpu, gate: Descriptor, code: Descriptor, use32: bool, oldEip: dword)
    ensures var o := GateInner(s, gate, code, use32, oldEip); (o.Done? ==> RplIsCpl(o.s)) && !o.Raise?
  {
    hide TaskStack, Lookup, Push, CopyParams, Bit, SwitchStack, WithRpl, Rpl, StackAddress;
    RplOfWithRpl(gate.Selector(), code.DPL());
    var (sel, esp) := TaskStack(s, code.DPL());
    var d := Lookup(s, sel);
    var wide := gate.Type() == CALL_GATE_386;
    var t := EnterGateCode(SwitchLevel(s, sel, d, esp, code.DPL()), gate, code, use32);
    PushesKeep(t, wide, s.ss.val, s.esp);
    CopyKeeps(Push(Push(t, wide, s.ss.val), wide, s.esp), StackAddress(s, s.esp), gate.Params(), wide);
    PushesKeep(CopyParams(Push(Push(t, wide, s.ss.val), wide, s.esp), StackAddress(s, s.esp), gate.Params(), wide),
               wide, s.cs.val, oldEip);
  }

  lemma CallKeepsRpl(s: Cpu, use32: bool, sel: word, offset: dword, oldEip: dword)
    requires RplIsCpl(s)
    ensures KeepsRpl(Call(s, use32, sel, offset, oldEip))
  {
    hide SwitchTask, Lookup, Bit, PushFrame, GateInner, WithRpl, Rpl;
    SwitchTaskSetsRpl(s, sel, ByCall, oldEip);
    PushesKeep(s, use32, oldEip, 0);
    var gate := Lookup(s, sel);
    RplOfWithRpl(sel, s.cpl);
    RplOfWithRpl(gate.Selector(), s.cpl);
    PushesKeep(s, gate.Type() == CALL_GATE_386, oldEip, 0);
    GateInnerSets(s, gate, Lookup(s, gate.Selector()), use32, oldEip);
  }

  // ----- RET

  /** The selector's place lies past the end of a 16-bit stack, so the pop finds it at the bottom. */
  predicate WrapsBeforeSelector(s: Cpu, use32: bool) {
    !s.stackBig && s.esp % 0x1_0000 + Width(use32) >= 0x1_0000
  }

  lemma LowPart(high: int, low: nat)
    requires low < 0x1_0000
    ensures (high * 0x1_0000 + low) % 0x1_0000 == low
  {
  }

  lemma NextInSmallStack(s: Cpu, e: dword, n: nat)
    requires !s.stackBig && e % 0x1_0000 + n < 0x1_0000
    ensures StackAddress(s, Moved(s, e, n)) == StackAddress(s, e) + n
  {
    LowPart(e / 0x1_0000, e % 0x1_0000 + n);
  }

  lemma NextInBigStack(s: Cpu, e: dword, n: nat)
    requires s.stackBig
    ensures Address(StackAddress(s, Moved(s, e, n))) == Address(StackAddress(s, e) + n)
  {
    hide Address;
    assert StackAddress(s, e) == s.ss.phys + e;
    assert StackAddress(s, Moved(s, e, n)) == s.ss.phys + Address(e + n) by {
      AddressIs(e + n);
    }
    AddressSum(e + n, s.ss.phys);
  }

  lemma AddressIs(x: int)
    ensures Address(x) == x % 0x1_0000_0000 == x % 0x1_0000_0000 % 0x1_0000_0000
  {
  }

  lemma NextInStack(s: Cpu, e: dword, n: nat)
    requires s.stackBig || e % 0x1_0000 + n < 0x1_0000
    ensures Address(StackAddress(s, Moved(s, e, n))) == Address(StackAddress(s, e) + n)
  {
    hide Address, StackAddress, Moved;
    if s.stackBig {
      NextInBigStack(s, e, n);
    } else {
      NextInSmallStack(s, e, n);
    }
  }

  /** Without the wrap, the selector looked at is the selector popped. */
  lemma PeekedIsPopped(s: Cpu, use32: bool)
    requires !WrapsBeforeSelector(s, use32)
    ensures PeekedSelector(s, use32) == Low16(Top(Popped(s, use32), use32))
  {
    hide ReadD, ReadW, Moved, Address;
    NextInStack(s, s.esp, Width(use32));
    SameAddressD(s.mem, StackAddress(s, s.esp) + Width(use32), StackAddress(s, Moved(s, s.esp, Width(use32))));
  }

  lemma SameAddressD(m: Memory, a: int, b: int)
    requires Address(a) == Address(b)
    ensures ReadD(m, a) == ReadD(m, b) && ReadW(m, a) == ReadW(m, b)
  {
    AddressStep(a, b, 1);
    AddressStep(a, b, 2);
    AddressStep(a, b, 3);
  }

  lemma AddressStep(a: int, b: int, k: int)
    requires Address(a) == Address(b)
    ensures Address(a + k) == Address(b + k)
  {
  }

  lemma RetKeepsRpl(s: Cpu, use32: bool, bytes: nat)
    requires RplIsCpl(s) && !WrapsBeforeSelector(s, use32)
    ensures KeepsRpl(Ret(s, use32, bytes))
  {
    hide RealRet, RetOuterLevel, Lookup, Bit, PeekedSelector, Top, Moved;
    PeekedIsPopped(s, use32);
    RealRetStays(s, use32, bytes);
    var sel := PeekedSelector(s, use32);
    RetOuterSets(s, use32, bytes, Rpl(sel), Lookup(s, sel));
  }

  lemma RealRetStays(s: Cpu, use32: bool, bytes: nat)
    ensures var t := RealRet(s, use32, bytes); t.pmode == s.pmode && t.flags == s.flags
  {
    hide Top, Moved;
  }

  lemma RetOuterSets(s: Cpu, use32: bool, bytes: nat, rpl: level, d: Descriptor)
    ensures var o := RetOuterLevel(s, use32, bytes, rpl, d); (o.Done? ==> RplIsCpl(o.s)) && !o.Raise?
  {
    hide Top, Lookup, CheckSegments, Moved, WithRpl, Rpl, Bit;
    var s1 := Popped(s, use32);
    var s2 := Advance(Popped(s1, use32), bytes);
    var s3 := Popped(s2, use32);
    var s4 := Popped(s3, use32);
    var cs, esp, ss := Low16(Top(s1, use32)), Top(s2, use32), Low16(Top(s3, use32));
    var n := Lookup(s4, ss);
    var t := LoadCode(s4, Segment(WithRpl(cs, rpl), d.Base()), d.Big(), Top(s, use32));
    RplOfWithRpl(cs, rpl);
    ChecksKeep(SwitchLevel(t, ss, n, (esp + bytes) % 0x1_0000_0000, rpl));
  }

  // ----- returns and privilege

  lemma RetOuterLevelIs(s: Cpu, use32: bool, bytes: nat, rpl: level, d: Descriptor)
    ensures var o := RetOuterLevel(s, use32, bytes, rpl, d); (o.Done? ==> o.s.cpl == rpl) && !o.Raise?
  {
    hide Top, Lookup, CheckSegments, Moved, WithRpl, Rpl, Bit;
    var s1 := Popped(s, use32);
    var s2 := Advance(Popped(s1, use32), bytes);
    var s3 := Popped(s2, use32);
    var s4 := Popped(s3, use32);
    var cs, esp, ss := Low16(Top(s1, use32)), Top(s2, use32), Low16(Top(s3, use32));
    var t := LoadCode(s4, Segment(WithRpl(cs, rpl), d.Base()), d.Big(), Top(s, use32));
    ChecksKeep(SwitchLevel(t, ss, Lookup(s4, ss), (esp + bytes) % 0x1_0000_0000, rpl));
  }

  /** No far return, completed or refused with an exception, makes the level more privileged. */
  lemma RetNeverLowersCpl(s: Cpu, use32: bool, bytes: nat)
    ensures var o := Ret(s, use32, bytes); o.Done? || o.Raise? ==> o.s.cpl >= s.cpl
  {
    hide RetOuterLevel, Lookup, Bit, PeekedSelector, Top, Moved;
    var sel := PeekedSelector(s, use32);
    RetOuterLevelIs(s, use32, bytes, Rpl(sel), Lookup(s, sel));
  }

  /** The code selector an IRET pops. */
  function IretSelector(s: Cpu, use32: bool): word {
    Low16(Peek(s, use32, Moved(s, s.esp, Width(use32))))
  }

  /** The flags it pops ask for virtual-8086 mode. */
  predicate IretsToV86(s: Cpu, use32: bool) {
    use32 && Bit(Peek(s, use32, Moved(s, Moved(s, s.esp, Width(use32)), Width(use32))), VM_BIT)
  }

  lemma IretOuterLevelIs(s: Cpu, use32: bool, d: Descriptor, cs: word, eip: dword, flags: nat, at: dword)
    ensures var o := IretOuterLevel(s, use32, d, cs, eip, flags, at); o.Done? ==> o.s.cpl == Rpl(cs)
  {
    hide Peek, Lookup, SetFlags, Bit, CheckSegments, IretMask;
    var esp, sel := Peek(s, use32, at), Low16(Peek(s, use32, Moved(s, at, Width(use32))));
    var t := SetFlags(LoadCode(s, Segment(cs, d.Base()), d.Big(), eip), flags, IretMask(s));
    ChecksKeep(SwitchLevel(t, sel, Lookup(s, sel), esp, Rpl(cs)));
  }

  lemma IretSameLevelIs(s: Cpu, d: Descriptor, cs: word, eip: dword, flags: nat, esp: dword)
    ensures IretSameLevel(s, d, cs, eip, flags, esp).cpl == s.cpl
  {
    hide Select, SetBit, Bit, IretMask;
  }

  lemma V86LevelIs(s: Cpu, eip: dword, cs: word, flags: dword)
    ensures var o := IretToV86(s, eip, cs, flags); o.Done? ==> o.s.cpl == 3
  {
    hide Top, V86Segments, Bit, Moved, SetFlags;
    var s0 := s.(eip := eip % 0x1_0000);
    var s1, s2 := Popped(s0, true), Popped(Popped(s0, true), true);
    var s3, s4 := Popped(s2, true), Popped(Popped(s2, true), true);
    var s5 := Popped(s4, true);
    V86SegmentsKeep(Done(EnterV86(Popped(s5, true), flags)), Low16(Top(s1, true)), Low16(Top(s2, true)), Low16(Top(s3, true)),
                    Low16(Top(s4, true)), Low16(Top(s5, true)));
  }

  /**
   The IRET does not compare the popped level with the current one: a completed return within
   protected mode makes the level more privileged if and only if the popped selector asks for it.
   */
  lemma IretLowersCplIff(s: Cpu, use32: bool, oldEip: dword)
    requires s.pmode && !V86(s) && !Bit(s.flags, NT_BIT) && Iret(s, use32, oldEip).Done?
    ensures var v := Iret(s, use32, oldEip).s;
            && v.cpl == (if IretsToV86(s, use32) then 3 else Rpl(IretSelector(s, use32)))
            && (v.cpl < s.cpl <==> !IretsToV86(s, use32) && Rpl(IretSelector(s, use32)) < s.cpl)
  {
    hide IretToV86, IretSameLevel, IretOuterLevel, Bit, Top, Peek, Lookup, Moved;
    var e1 := Moved(s, s.esp, Width(use32));
    var e2 := Moved(s, e1, Width(use32));
    var e3 := Moved(s, e2, Width(use32));
    var eip, cs, flags := Top(s, use32), Low16(Peek(s, use32, e1)), Peek(s, use32, e2);
    var f := if use32 then flags else flags + s.flags / 0x1_0000 * 0x1_0000;
    V86LevelIs(s.(esp := e3), eip, cs, flags);
    IretSameLevelIs(s, Lookup(s, cs), cs, eip, f, e3);
    IretOuterLevelIs(s, use32, Lookup(s, cs), cs, eip, f, e3);
  }

  // ----- the return that wraps

  /** One code descriptor of level 3 and one selector of level 3, just past the end of the stack. */
  function WrapMemory(phys: dword, peeked: int): Memory {
    map[Address(phys + 0x800d) := 0x9a, Address(peeked) := 0x0b]
  }

  function WrapState(phys: dword, esp: dword, use32: bool): Cpu {
    Cpu(WrapMemory(phys, phys + esp % 0x1_0000 + Width(use32)),
        Table(Address(phys + 0x8000), 16), Table(0, 0), Table(0, 0), 0, NO_TASK,
        true, 3, 0,
        Segment(3, 0), Segment(0, phys), Segment(0, 0), Segment(0, 0), Segment(0, 0), Segment(0, 0),
        false, false, General(0, 0, 0, 0, 0, 0, 0), esp, 0, 0, 0, 0, 0, false)
  }

  lemma Apart(phys: dword, x: int, y: int)
    requires 0 < y - x < 0x1_0000_0000
    ensures Address(phys + x) != Address(phys + y)
  {
  }

  lemma WrapByte(phys: dword, o: nat, x: int)
    requires o < 4 && 0 <= x < 0x1_0010
    ensures ReadB(WrapMemory(phys, phys + 0x1_0000 + o), phys + x)
            == if x == 0x1_0000 + o then 0x0b else if x == 0x800d then 0x9a else 0
  {
    hide Address;
    if x < 0x1_0000 + o {
      Apart(phys, x, 0x1_0000 + o);
    } else if x > 0x1_0000 + o {
      Apart(phys, 0x1_0000 + o, x);
    }
    if x < 0x800d {
      Apart(phys, x, 0x800d);
    } else if x > 0x800d {
      Apart(phys, 0x800d, x);
    }
  }

  lemma WrapDWord(phys: dword, o: nat, x: int)
    requires o < 4 && 0 <= x < 0x1_0008
    ensures var m := WrapMemory(phys, phys + 0x1_0000 + o);
            && ReadW(m, phys + x) == ReadB(m, phys + x) + 0x100 * ReadB(m, phys + (x + 1))
            && ReadD(m, phys + x) == ReadW(m, phys + x) + 0x1_0000 * ReadW(m, phys + (x + 2))
            && ReadW(m, phys + (x + 2)) == ReadB(m, phys + (x + 2)) + 0x100 * ReadB(m, phys + (x + 3))
  {
    hide ReadB;
  }

  lemma WrapReads(phys: dword, o: nat)
    requires o < 4
    ensures var m := WrapMemory(phys, phys + 0x1_0000 + o);
            && ReadW(m, phys + o) == 0 && Low16(ReadD(m, phys + o)) == 0
            && ReadW(m, phys + (0x1_0000 + o)) == 0x0b && Low16(ReadD(m, phys + (0x1_0000 + o))) == 0x0b
            && ReadD(m, phys + 0x800c) == 0x9a00
  {
    hide ReadB, ReadW, ReadD, WrapMemory;
    WrapDWord(phys, o, o);
    WrapByte(phys, o, o);
    WrapByte(phys, o, o + 1);
    WrapByte(phys, o, o + 2);
    WrapByte(phys, o, o + 3);
    WrapDWord(phys, o, 0x1_0000 + o);
    WrapByte(phys, o, 0x1_0000 + o);
    WrapByte(phys, o, 0x1_0000 + o + 1);
    WrapByte(phys, o, 0x1_0000 + o + 2);
    WrapByte(phys, o, 0x1_0000 + o + 3);
    WrapDWord(phys, o, 0x800c);
    WrapByte(phys, o, 0x800c);
    WrapByte(phys, o, 0x800c + 1);
    WrapByte(phys, o, 0x800c + 2);
    WrapByte(phys, o, 0x800c + 3);
  }

  /** On every 16-bit stack at such a position there are contents on which the return breaks the rule. */
  lemma WrapBreaks(phys: dword, esp: dword, use32: bool)
    requires esp % 0x1_0000 + Width(use32) >= 0x1_0000
    ensures var s := WrapState(phys, esp, use32);
            && s.ss.phys == phys && s.esp == esp && !s.stackBig && RplIsCpl(s)
            && Ret(s, use32, 0).Done? && !RplIsCpl(Ret(s, use32, 0).s)
  {
    var s := WrapState(phys, esp, use32);
    WrapSteps(s, phys, use32, esp % 0x1_0000 + Width(use32) - 0x1_0000);
  }

  lemma WrapSteps(s: Cpu, phys: dword, use32: bool, o: nat)
    requires o < 4 && s == WrapState(phys, s.esp, use32)
    requires s.esp % 0x1_0000 + Width(use32) == 0x1_0000 + o
    ensures RplIsCpl(s) && Ret(s, use32, 0).Done? && !RplIsCpl(Ret(s, use32, 0).s)
  {
    hide WrapMemory, Bit, Address, Moved, PeekedSelector, Top, Lookup, Descriptor.Type, Descriptor.Present;
    WrapSelectors(s, phys, use32, o);
    NoFlags();
    WrapDescriptor(s, phys, o);
    CodeOfLevelThree(Lookup(s, 0x0b));
  }

  lemma CodeOfLevelThree(d: Descriptor)
    requires d.hi == 0x9a00
    ensures IsCode(d.Type()) && d.Present()
  {
  }

  /** What is looked at and what is popped. */
  lemma WrapSelectors(s: Cpu, phys: dword, use32: bool, o: nat)
    requires o < 4 && s.mem == WrapMemory(phys, phys + 0x1_0000 + o) && s.ss.phys == phys && !s.stackBig
    requires s.esp % 0x1_0000 + Width(use32) == 0x1_0000 + o
    ensures PeekedSelector(s, use32) == 0x0b && Low16(Top(Popped(s, use32), use32)) == 0
  {
    hide ReadW, ReadD, WrapMemory, Address, Moved;
    WrapReads(phys, o);
    PoppedAtBottom(s, use32, o);
    assert StackAddress(s, s.esp) + Width(use32) == phys + (0x1_0000 + o);
  }

  lemma NoFlags()
    ensures !Bit(0, VM_BIT)
  {
    ZeroBit(VM_BIT);
  }

  lemma PoppedAtBottom(s: Cpu, use32: bool, o: nat)
    requires !s.stackBig && s.esp % 0x1_0000 + Width(use32) == 0x1_0000 + o && o < 4
    ensures StackAddress(s, Moved(s, s.esp, Width(use32))) == s.ss.phys + o
  {
    LowPart(s.esp / 0x1_0000 + 1, o);
    LowPart(s.esp / 0x1_0000, o);
  }

  lemma WrapDescriptor(s: Cpu, phys: dword, o: nat)
    requires o < 4 && s.gdt == Table(Address(phys + 0x8000), 16) && s.mem == WrapMemory(phys, phys + 0x1_0000 + o)
    ensures InTable(s, 0x0b) && Lookup(s, 0x0b).hi == 0x9a00
  {
    hide ReadW, ReadD, WrapMemory, Address;
    WrapReads(phys, o);
    AddressSum(phys + 0x8000, 12);
    SameAddressD(s.mem, Address(phys + 0x8000) + 12, phys + 0x800c);
  }

  lemma AddressSum(a: int, k: int)
    ensures Address(Address(a) + k) == Address(a + k)
  {
  }

  /**
   A return at a given stack position keeps CS.RPL equal to CPL, whatever memory holds, if and only
   if the stack is 32-bit or the selector's place lies within the 64 KB of the stack segment.
   */
  lemma RetKeepsRplIff(phys: dword, esp: dword, big: bool, use32: bool)
    ensures (forall s: Cpu, bytes: nat | s.ss.phys == phys && s.esp == esp && s.stackBig == big && RplIsCpl(s)
              :: KeepsRpl(Ret(s, use32, bytes)))
            <==> big || esp % 0x1_0000 + Width(use32) < 0x1_0000
  {
    hide Ret, RplIsCpl;
    if big || esp % 0x1_0000 + Width(use32) < 0x1_0000 {
      forall s: Cpu, bytes: nat | s.ss.phys == phys && s.esp == esp && s.stackBig == big && RplIsCpl(s)
        ensures KeepsRpl(Ret(s, use32, bytes))
      {
        RetKeepsRpl(s, use32, bytes);
      }
    } else {
      WrapBreaks(phys, esp, use32);
      assert !KeepsRpl(Ret(WrapState(phys, esp, use32), use32, 0));
    }
  }

  // ----- runs

  datatype Transfer =
    | Jump(use32: bool, sel: word, offset: dword, oldEip: dword)
    | CallFar(use32: bool, sel: word, offset: dword, oldEip: dword)
    | Return(use32: bool, bytes: nat)
    | InterruptReturn(use32: bool, oldEip: dword)
    | Interrupts(num: nat, kind: Kind, oldEip: dword)
    | Switch(sel: word, how: SwitchType, oldEip: dword)

  function Perform(s: Cpu, t: Transfer): Outcome {
    match t
    case Jump(use32, sel, offset, oldEip) => Jmp(s, use32, sel, offset, oldEip)
    case CallFar(use32, sel, offset, oldEip) => Call(s, use32, sel, offset, oldEip)
    case Return(use32, bytes) => Ret(s, use32, bytes)
    case InterruptReturn(use32, oldEip) => Iret(s, use32, oldEip)
    case Interrupts(num, kind, oldEip) => Interrupt(s, num, kind, oldEip)
    case Switch(sel, how, oldEip) => SwitchTask(s, sel, how, oldEip)
  }

  /** A raised exception is delivered before the next transfer; E_Exit ends the run. */
  function Next(o: Outcome, t: Transfer): Outcome {
    match o
    case Done(s) => Perform(s, t)
    case Raise(which, code, s) => Exception(s, which, code)
    case Exit => Exit
  }

  function Run(s: Cpu, ts: seq<Transfer>): Outcome {
    if ts == [] then Done(s) else Next(Run(s, ts[..|ts| - 1]), ts[|ts| - 1])
  }

  /** No return of the run starts where its selector is past the end of a 16-bit stack. */
  ghost predicate NoReturnWraps(s: Cpu, ts: seq<Transfer>) {
    forall i :: 0 <= i < |ts| && ts[i].Return? && Run(s, ts[..i]).Done?
                ==> !WrapsBeforeSelector(Run(s, ts[..i]).s, ts[i].use32)
  }

  lemma NextKeepsRpl(o: Outcome, t: Transfer)
    requires KeepsRpl(o) && (o.Done? && t.Return? ==> !WrapsBeforeSelector(o.s, t.use32))
    ensures KeepsRpl(Next(o, t))
  {
    hide Jmp, Call, Ret, Iret, Interrupt, SwitchTask, Bit, WrapsBeforeSelector;
    match o
    case Exit =>
    case Raise(which, code, s) =>
      InterruptKeepsRpl(s.(error := code), which, Kind(false, which >= 8, false), s.eip);
    case Done(s) =>
      match t
      case Jump(use32, sel, offset, oldEip) => JmpKeepsRpl(s, use32, sel, offset, oldEip);
      case CallFar(use32, sel, offset, oldEip) => CallKeepsRpl(s, use32, sel, offset, oldEip);
      case Return(use32, bytes) => RetKeepsRpl(s, use32, bytes);
      case InterruptReturn(use32, oldEip) => IretKeepsRpl(s, use32, oldEip);
      case Interrupts(num, kind, oldEip) => InterruptKeepsRpl(s, num, kind, oldEip);
      case Switch(sel, how, oldEip) => SwitchTaskSetsRpl(s, sel, how, oldEip);
  }

  /** CS.RPL is CPL in every state that any sequence of the six transfers reaches. */
  lemma {:induction false} EveryRunKeepsRpl(s: Cpu, ts: seq<Transfer>)
    requires RplIsCpl(s) && NoReturnWraps(s, ts)
    ensures KeepsRpl(Run(s, ts))
    decreases |ts|
  {
    hide Next, RplIsCpl, WrapsBeforeSelector;
    if ts != [] {
      var before := ts[..|ts| - 1];
      forall i | 0 <= i < |before|
        ensures before[..i] == ts[..i]
      {
      }
      EveryRunKeepsRpl(s, before);
      NextKeepsRpl(Run(s, before), ts[|ts| - 1]);
    }
  }
}
