/** An interrupt to an inner level and the IRET from it: the frame, and what the return restores. */
module InterruptProofs {
  import opened Bits
  import opened CpuState
  import opened FarTransfers
  import opened PrivilegeProofs
  import opened GateProofs
  import opened Words

  function HandlerCode(s: Cpu, num: nat): Descriptor { Lookup(s, IdtGate(s, num).Selector()) }

  function HandlerStack(s: Cpu, num: nat): (word, dword) { TaskStack(s, HandlerCode(s, num).DPL()) }

  function HandlerTop(s: Cpu, num: nat): int {
    Lookup(s, HandlerStack(s, num).0).Base() + HandlerStack(s, num).1
  }

  /** A 386 interrupt or trap gate to an inner level, with 32-bit stacks on both sides. */
  ghost predicate InterruptsInward(s: Cpu, num: nat, kind: Kind) {
    var gate, code, d := IdtGate(s, num), HandlerCode(s, num), Lookup(s, HandlerStack(s, num).0);
    && s.pmode && !V86(s) && RplIsCpl(s) && s.stackBig && num * 8 < s.idt.limit
    && (gate.Type() == 14 || gate.Type() == 15) && (kind.software ==> s.cpl <= gate.DPL())
    && IsNonConforming(code.Type()) && code.DPL() < s.cpl
    && IsWritableData(d.Type()) && d.Big()
  }

  /** The five double words IRET takes off again. */
  function ReturnFrame(s: Cpu, oldEip: dword): seq<dword> {
    [s.ss.val, s.esp, s.flags % 0x1_0000_0000, s.cs.val, oldEip]
  }

  function ErrorCode(s: Cpu, kind: Kind): seq<dword> {
    if kind.hasError then [s.error % 0x1_0000_0000] else []
  }

  lemma FivePushes(s: Cpu, t: Cpu, top: int, oldEip: dword)
    requires t.stackBig && t.ss.phys + t.esp == top && t.mem == s.mem && t.flags == s.flags
    ensures var u := Push32(Push32(t, s.ss.val), s.esp);
            var v := Push32(Push32(Push32(u, s.flags % 0x1_0000_0000), s.cs.val), oldEip);
            Building(s.mem, v, top, ReturnFrame(s, oldEip)) && v == t.(mem := v.mem, esp := v.esp)
  {
    hide Building, Push32;
    StartsEmpty(s, t, top);
    var f := s.flags % 0x1_0000_0000;
    var t1 := Push32(t, s.ss.val);
    var t2 := Push32(t1, s.esp);
    var t3 := Push32(t2, f);
    var t4 := Push32(t3, s.cs.val);
    PushBuilds(s.mem, t, top, [], s.ss.val);
    PushBuilds(s.mem, t1, top, [] + [s.ss.val], s.esp);
    PushBuilds(s.mem, t2, top, [] + [s.ss.val] + [s.esp], f);
    PushBuilds(s.mem, t3, top, [] + [s.ss.val] + [s.esp] + [f], s.cs.val);
    PushBuilds(s.mem, t4, top, [] + [s.ss.val] + [s.esp] + [f] + [s.cs.val], oldEip);
    assert [] + [s.ss.val] + [s.esp] + [f] + [s.cs.val] + [oldEip] == ReturnFrame(s, oldEip);
  }

  lemma WideGate(d: Descriptor)
    requires d.Type() == 14 || d.Type() == 15
    ensures d.Is386()
  {
  }

  /** The handler's stack before anything is pushed on it. */
  function OnInnerStack(s: Cpu, num: nat): Cpu {
    SwitchLevel(s, HandlerStack(s, num).0, Lookup(s, HandlerStack(s, num).0), HandlerStack(s, num).1,
                HandlerCode(s, num).DPL())
  }

  /** The state the handler starts in, apart from memory and the stack pointer. */
  function HandlerEntered(s: Cpu, num: nat): Cpu {
    var gate, code, t := IdtGate(s, num), HandlerCode(s, num), OnInnerStack(s, num);
    t.(cs := Segment(WithRpl(gate.Selector(), t.cpl), code.Base()), codeBig := code.Big(), eip := gate.Offset(),
       flags := ClearInterruptFlags(t.flags, gate))
  }

  lemma TakesGate(s: Cpu, num: nat, kind: Kind, oldEip: dword)
    requires InterruptsInward(s, num, kind)
    ensures Interrupt(s, num, kind, oldEip) == GateInterrupt(s, IdtGate(s, num), kind, oldEip)
  {
    hide GateInterrupt, IdtGate, Bit, RplIsCpl, TaskStack, Lookup, Descriptor.Type, Descriptor.DPL;
  }

  lemma GateSwitches(s: Cpu, num: nat, kind: Kind, oldEip: dword)
    requires InterruptsInward(s, num, kind)
    ensures var t, gate := OnInnerStack(s, num), IdtGate(s, num);
            GateInterrupt(s, gate, kind, oldEip)
            == Done(EnterHandler(Push32(Push32(t, s.ss.val), s.esp), gate, HandlerCode(s, num), kind, oldEip))
  {
    hide IdtGate, Bit, RplIsCpl, TaskStack, Lookup, Push32, EnterHandler, Descriptor.Is386, SwitchStack;
    WideGate(IdtGate(s, num));
  }

  lemma EntersWith(t: Cpu, u: Cpu, w: Cpu, gate: Descriptor, code: Descriptor, kind: Kind, oldEip: dword)
    requires InterruptFrame(u, gate, kind, oldEip) == w && w == t.(mem := w.mem, esp := w.esp)
    ensures EnterHandler(u, gate, code, kind, oldEip)
            == t.(mem := w.mem, esp := w.esp, cs := Segment(WithRpl(gate.Selector(), t.cpl), code.Base()),
                  codeBig := code.Big(), eip := gate.Offset(), flags := ClearInterruptFlags(t.flags, gate))
  {
    hide InterruptFrame, ClearInterruptFlags, WithRpl;
  }

  lemma AllPushes(s: Cpu, t: Cpu, top: int, kind: Kind, oldEip: dword, gate: Descriptor)
    requires gate.Is386() && t.stackBig && t.ss.phys + t.esp == top && t.mem == s.mem
    requires t.cs == s.cs && t.flags == s.flags && t.error == s.error
    ensures var w := InterruptFrame(Push32(Push32(t, s.ss.val), s.esp), gate, kind, oldEip);
            Building(s.mem, w, top, ReturnFrame(s, oldEip) + ErrorCode(s, kind)) && w == t.(mem := w.mem, esp := w.esp)
  {
    hide Push32, Building, Descriptor.Is386, ReturnFrame;
    FivePushes(s, t, top, oldEip);
    var u := Push32(Push32(t, s.ss.val), s.esp);
    PushKeepsRest(t, s.ss.val);
    PushKeepsRest(Push32(t, s.ss.val), s.esp);
    PushKeepsRest(u, s.flags % 0x1_0000_0000);
    PushKeepsRest(Push32(u, s.flags % 0x1_0000_0000), s.cs.val);
    var v := Push32(Push32(Push32(u, s.flags % 0x1_0000_0000), s.cs.val), oldEip);
    if kind.hasError {
      ReturnFrameLength(s, oldEip);
      PushBuilds(s.mem, v, top, ReturnFrame(s, oldEip), s.error % 0x1_0000_0000);
    } else {
      assert ReturnFrame(s, oldEip) + [] == ReturnFrame(s, oldEip);
    }
  }

  lemma ReturnFrameLength(s: Cpu, oldEip: dword)
    ensures |ReturnFrame(s, oldEip)| == 5
  {
  }

  lemma PushKeepsRest(s: Cpu, v: dword)
    ensures Push32(s, v) == s.(mem := Push32(s, v).mem, esp := Push32(s, v).esp)
  {
    hide WriteD, Moved;
  }

  /** The inner stack from the top down: SS, ESP, flags, CS, the return address, and any error code. */
  lemma InterruptBuildsFrame(s: Cpu, num: nat, kind: Kind, oldEip: dword)
    requires InterruptsInward(s, num, kind)
    ensures var o := Interrupt(s, num, kind, oldEip);
            var f := ReturnFrame(s, oldEip) + ErrorCode(s, kind);
            && o.Done? && o.s == HandlerEntered(s, num).(mem := o.s.mem, esp := o.s.esp)
            && At(o.s, HandlerTop(s, num), 4 * |f|) && Stacked(o.s.mem, HandlerTop(s, num), f)
            && AgreeAbove(s.mem, o.s.mem, HandlerTop(s, num), 4 * |f|)
  {
    hide Lookup, TaskStack, Push32, Building, Bit, RplIsCpl, IdtGate, ClearInterruptFlags, Descriptor.Is386, Interrupt,
      GateInterrupt, EnterHandler, InterruptFrame, Stacked, AgreeAbove, ReturnFrame, ErrorCode, WithRpl;
    var gate, code, top := IdtGate(s, num), HandlerCode(s, num), HandlerTop(s, num);
    var t := OnInnerStack(s, num);
    WideGate(gate);
    TakesGate(s, num, kind, oldEip);
    GateSwitches(s, num, kind, oldEip);
    AllPushes(s, t, top, kind, oldEip, gate);
    var u := Push32(Push32(t, s.ss.val), s.esp);
    var w := InterruptFrame(u, gate, kind, oldEip);
    Unfold(s.mem, w, top, ReturnFrame(s, oldEip) + ErrorCode(s, kind));
    EntersWith(t, u, w, gate, code, kind, oldEip);
  }

  // ----- IRET

  /** The interrupted program resumed; the flags IRET may write at the handler's level are its own again. */
  ghost predicate InterruptedResumed(s: Cpu, u: Cpu, oldEip: dword, mask: nat) {
    && u.cs == s.cs && u.codeBig == s.codeBig && u.eip == oldEip && u.cpl == s.cpl
    && u.ss == s.ss && u.stackBig && u.esp == s.esp
    && forall k: nat :: k != 1 && Bit(mask, k) ==> Bit(u.flags, k) == Bit(s.flags, k)
  }

  /** The handler is about to execute IRET: any error code is popped, the frame and its own level are intact. */
  ghost predicate AtIret(s: Cpu, t: Cpu, top: int, oldEip: dword) {
    && t.pmode && !V86(t) && !Bit(t.flags, NT_BIT) && t.cpl < s.cpl
    && At(t, top, 20) && Stacked(t.mem, top, ReturnFrame(s, oldEip)) && Cached(s, t)
  }

  lemma PeeksAt(t: Cpu, e: dword, top: int, j: int, vs: seq<dword>)
    requires t.stackBig && Address(t.ss.phys + e) == Address(SlotAddress(top, j)) && 0 <= j < |vs| && Stacked(t.mem, top, vs)
    ensures Peek(t, true, e) == vs[j]
  {
    hide ReadD;
    SameAddressD(t.mem, StackAddress(t, e), SlotAddress(top, j));
    assert ReadD(t.mem, SlotAddress(top, j)) == vs[j];
  }

  lemma IretPeeks(t: Cpu, top: int, vs: seq<dword>)
    requires At(t, top, 20) && |vs| == 5 && Stacked(t.mem, top, vs)
    ensures var e1 := Moved(t, t.esp, 4);
            var e2 := Moved(t, e1, 4);
            var e3 := Moved(t, e2, 4);
            && Top(t, true) == vs[4] && Peek(t, true, e1) == vs[3] && Peek(t, true, e2) == vs[2]
            && Peek(t, true, e3) == vs[1] && Peek(t, true, Moved(t, e3, 4)) == vs[0]
  {
    hide Address, Moved, Stacked, Peek, StackAddress;
    var e1 := Moved(t, t.esp, 4);
    var e2 := Moved(t, e1, 4);
    var e3 := Moved(t, e2, 4);
    SameMoved(t);
    Moves(t, top, 20, 4);
    Moves(t.(esp := e1), top, 16, 4);
    Moves(t.(esp := e2), top, 12, 4);
    Moves(t.(esp := e3), top, 8, 4);
    PeeksAt(t, t.esp, top, 4, vs);
    PeeksAt(t, e1, top, 3, vs);
    PeeksAt(t, e2, top, 2, vs);
    PeeksAt(t, e3, top, 1, vs);
    PeeksAt(t, Moved(t, e3, 4), top, 0, vs);
  }

  lemma SameMoved(t: Cpu)
    ensures forall e: dword, x: dword :: Moved(t.(esp := e), x, 4) == Moved(t, x, 4)
  {
  }

  /** The state IRET hands to the segment checks. */
  function IretOutward(s: Cpu, t: Cpu, oldEip: dword): Cpu {
    var d, n := Lookup(t, s.cs.val), Lookup(t, s.ss.val);
    var f := SetFlags(LoadCode(t, Segment(s.cs.val, d.Base()), d.Big(), oldEip), s.flags % 0x1_0000_0000, IretMask(t));
    SwitchLevel(f, s.ss.val, n, s.esp, s.cpl)
  }

  lemma IretGoesOut(s: Cpu, t: Cpu, oldEip: dword, back: dword)
    requires t.pmode && !V86(t) && !Bit(t.flags, NT_BIT) && t.cpl < s.cpl == Rpl(s.cs.val)
    requires IsCode(Lookup(t, s.cs.val).Type()) && IsWritableData(Lookup(t, s.ss.val).Type())
    requires !Bit(s.flags % 0x1_0000_0000, VM_BIT)
    requires var e1 := Moved(t, t.esp, 4);
             var e2 := Moved(t, e1, 4);
             var e3 := Moved(t, e2, 4);
             && Top(t, true) == oldEip && Peek(t, true, e1) == s.cs.val && Peek(t, true, e2) == s.flags % 0x1_0000_0000
             && Peek(t, true, e3) == s.esp && Peek(t, true, Moved(t, e3, 4)) == s.ss.val
    ensures Iret(t, true, back) == CheckSegments(IretOutward(s, t, oldEip))
  {
    hide Moved, Top, Peek, Lookup, Bit, CheckSegments, SetFlags, IretMask, Descriptor.Type, Descriptor.Base, Descriptor.Big;
    LowOfWord(s.cs.val);
    LowOfWord(s.ss.val);
  }

  lemma OutwardRestores(s: Cpu, t: Cpu, oldEip: dword)
    requires Cached(s, t) && s.stackBig && t.pmode && !V86(t) && s.flags < 0x1_0000_0000
    ensures var o := CheckSegments(IretOutward(s, t, oldEip));
            o.Done? && InterruptedResumed(s, o.s, oldEip, IretMask(t))
  {
    hide Lookup, CheckSegments, Bit, SetFlags, IretMask, Descriptor.Type, Descriptor.Base, Descriptor.Big;
    var d := Lookup(t, s.cs.val);
    var before := LoadCode(t, Segment(s.cs.val, d.Base()), d.Big(), oldEip);
    FlagsOnly(before, s.flags, IretMask(t));
    MaskHasNoVm(t);
    SetFlagsVm(before, s.flags, IretMask(t));
    ChecksOnlyData(IretOutward(s, t, oldEip));
    forall k: nat | k != 1 && Bit(IretMask(t), k)
      ensures Bit(IretOutward(s, t, oldEip).flags, k) == Bit(s.flags, k)
    {
      FlagsRestored(before, s.flags, IretMask(t), k);
    }
  }

  lemma MaskHasNoVm(t: Cpu)
    ensures !Bit(IretMask(t), VM_BIT)
  {
    hide Bit, SetBit;
    MaskBits();
    SetBitBits(FMASK_ALL, IF_BIT, false, VM_BIT);
    SetBitBits(FMASK_NORMAL + FLAG_NT, IF_BIT, false, VM_BIT);
  }

  /** IRET from a handler at an inner level undoes the interrupt. */
  lemma IretResumes(s: Cpu, t: Cpu, top: int, oldEip: dword, back: dword)
    requires AtIret(s, t, top, oldEip) && s.stackBig && !V86(s) && Rpl(s.cs.val) == s.cpl && s.flags < 0x1_0000_0000
    ensures var o := Iret(t, true, back); o.Done? && InterruptedResumed(s, o.s, oldEip, IretMask(t))
  {
    hide Iret, At, Stacked, Top, Peek, Bit, CheckSegments, Moved, Lookup, IretOutward, IretMask, InterruptedResumed;
    IretPeeks(t, top, ReturnFrame(s, oldEip));
    IretGoesOut(s, t, oldEip, back);
    OutwardRestores(s, t, oldEip);
  }

  /** An IRET to an outer level leaves no data segment register with a segment of an inner one. */
  lemma IretOuterRevokes(s: Cpu, use32: bool, d: Descriptor, cs: word, eip: dword, flags: nat, at: dword)
    requires s.pmode && !V86(s) && IretOuterLevel(s, use32, d, cs, eip, flags, at).Done?
    ensures var t := IretOuterLevel(s, use32, d, cs, eip, flags, at).s;
            Usable(t, ES) && Usable(t, DS) && Usable(t, FS) && Usable(t, GS)
  {
    hide Bit, Peek, Moved, Lookup, CheckSegments, Usable, SetFlags, IretMask, Descriptor.Type, Descriptor.Base, Descriptor.Big, Rpl;
    var esp, sel := Peek(s, use32, at), Low16(Peek(s, use32, Moved(s, at, Width(use32))));
    var before := LoadCode(s, Segment(cs, d.Base()), d.Big(), eip);
    var t := SetFlags(before, flags, IretMask(s));
    FlagsOnly(before, flags, IretMask(s));
    MaskHasNoVm(s);
    SetFlagsVm(before, flags, IretMask(s));
    ChecksRevoke(SwitchLevel(t, sel, Lookup(s, sel), esp, Rpl(cs)));
  }

  lemma IretOuterCompletes(s: Cpu, use32: bool, d: Descriptor, cs: word, eip: dword, flags: nat, at: dword)
    requires s.pmode && !V86(s)
    ensures IretOuterLevel(s, use32, d, cs, eip, flags, at).Done?
            <==> IsWritableData(Lookup(s, Low16(Peek(s, use32, Moved(s, at, Width(use32))))).Type())
  {
    hide Bit, Peek, Moved, Lookup, CheckSegments, SetFlags, IretMask, Descriptor.Type, Descriptor.Base, Descriptor.Big, Rpl;
    var esp, sel := Peek(s, use32, at), Low16(Peek(s, use32, Moved(s, at, Width(use32))));
    var before := LoadCode(s, Segment(cs, d.Base()), d.Big(), eip);
    var t := SetFlags(before, flags, IretMask(s));
    FlagsOnly(before, flags, IretMask(s));
    MaskHasNoVm(s);
    SetFlagsVm(before, flags, IretMask(s));
    ChecksOnlyData(SwitchLevel(t, sel, Lookup(s, sel), esp, Rpl(cs)));
  }

  /** The stack selector an IRET to another level pops. */
  function IretStackSelector(s: Cpu, use32: bool): word {
    var e3 := Moved(s, Moved(s, Moved(s, s.esp, Width(use32)), Width(use32)), Width(use32));
    Low16(Peek(s, use32, Moved(s, e3, Width(use32))))
  }

  /** So an IRET ends at a more privileged level exactly for these frames. */
  lemma IretRaisesPrivilegeIff(s: Cpu, use32: bool, oldEip: dword)
    requires s.pmode && !V86(s) && !Bit(s.flags, NT_BIT)
    ensures var o, cs := Iret(s, use32, oldEip), IretSelector(s, use32);
            o.Done? && o.s.cpl < s.cpl
            <==> !IretsToV86(s, use32) && Rpl(cs) < s.cpl
                 && IsCode(Lookup(s, cs).Type()) && IsWritableData(Lookup(s, IretStackSelector(s, use32)).Type())
  {
    hide IretToV86, IretSameLevel, IretOuterLevel, Bit, Top, Peek, Lookup, Moved, Descriptor.Type;
    var e1 := Moved(s, s.esp, Width(use32));
    var e2 := Moved(s, e1, Width(use32));
    var e3 := Moved(s, e2, Width(use32));
    var eip, cs, flags := Top(s, use32), Low16(Peek(s, use32, e1)), Peek(s, use32, e2);
    var f := if use32 then flags else flags + s.flags / 0x1_0000 * 0x1_0000;
    IretOuterCompletes(s, use32, Lookup(s, cs), cs, eip, f, e3);
    if Iret(s, use32, oldEip).Done? {
      IretLowersCplIff(s, use32, oldEip);
    }
  }

  /** The caller's two descriptors lie elsewhere than the frame. */
  ghost predicate DescriptorsApart(s: Cpu, num: nat) {
    Clear(HandlerTop(s, num), 24, EntryAddress(s, s.cs.val), 8) && Clear(HandlerTop(s, num), 24, EntryAddress(s, s.ss.val), 8)
  }

  /** What the handler must have kept when it executes IRET, with the error code taken off. */
  ghost predicate HandlerKept(s: Cpu, c: Cpu, t: Cpu, top: int, oldEip: dword) {
    && t.pmode && !V86(t) && !Bit(t.flags, NT_BIT) && t.cpl == c.cpl && t.stackBig == c.stackBig
    && t.ss == c.ss && Address(t.ss.phys + t.esp) == Address(top - 20)
    && Stacked(t.mem, top, ReturnFrame(s, oldEip))
    && Lookup(t, s.cs.val) == Lookup(c, s.cs.val) && Lookup(t, s.ss.val) == Lookup(c, s.ss.val)
  }

  lemma InterruptRoundTrip(s: Cpu, num: nat, kind: Kind, oldEip: dword, t: Cpu, back: dword)
    requires InterruptsInward(s, num, kind) && DescriptorsApart(s, num) && Cached(s, s) && s.flags < 0x1_0000_0000
    requires Interrupt(s, num, kind, oldEip).Done?
    requires HandlerKept(s, Interrupt(s, num, kind, oldEip).s, t, HandlerTop(s, num), oldEip)
    ensures var o := Iret(t, true, back); o.Done? && InterruptedResumed(s, o.s, oldEip, IretMask(t))
  {
    hide Interrupt, Iret, Lookup, TaskStack, Stacked, Bit, Clear, AgreeAbove, ReturnFrame, EntryAddress, Address,
      IretMask, InterruptedResumed, ClearInterruptFlags, IdtGate;
    InterruptBuildsFrame(s, num, kind, oldEip);
    var c, top := Interrupt(s, num, kind, oldEip).s, HandlerTop(s, num);
    Widen(s.mem, c.mem, top, 4 * |ReturnFrame(s, oldEip) + ErrorCode(s, kind)|);
    FrameLength(s, oldEip, kind);
    EntryUntouched(s, c, top, 24, s.cs.val);
    EntryUntouched(s, c, top, 24, s.ss.val);
    IretResumes(s, t, top, oldEip, back);
  }

  lemma FrameLength(s: Cpu, oldEip: dword, kind: Kind)
    ensures 4 * |ReturnFrame(s, oldEip) + ErrorCode(s, kind)| <= 24
  {
  }

  lemma Widen(m: Memory, m': Memory, top: int, n: nat)
    requires AgreeAbove(m, m', top, n)
    ensures n <= 24 ==> AgreeAbove(m, m', top, 24)
  {
    hide ReadB, Depth;
  }
}
