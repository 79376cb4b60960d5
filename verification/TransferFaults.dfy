/** Which transfers end in an exception and with which code, and how the exception reaches its handler. */
module TransferFaults {
  import opened Bits
  import opened CpuState
  import opened FarTransfers
  import opened PrivilegeProofs
  import opened GateProofs
  import opened StackWords
  import opened StraightTransfers
  import opened InterruptProofs
  import opened InterruptFrames
  import opened IretFrames
  import opened InterruptTrips
  import opened GateFrames
  import opened Words

  predicate CodeThere(s: Cpu, sel: word) { IsCode(Lookup(s, sel).Type()) && Lookup(s, sel).Present() }

  predicate CodeMissing(s: Cpu, sel: word) { IsCode(Lookup(s, sel).Type()) && !Lookup(s, sel).Present() }

  lemma GateCallCompletes(s: Cpu, use32: bool, sel: word, oldEip: dword)
    requires !RealLike(s) && (Lookup(s, sel).Type() == CALL_GATE_386 || Lookup(s, sel).Type() == CALL_GATE_286)
    ensures GateCall(s, Lookup(s, sel), use32, oldEip).Done? <==> GateStays(s, sel) || GateLeadsIn(s, sel)
  {
    hide Lookup, Bit, Push, PushFrame, CopyParams, EnterGateCode, SwitchLevel, TaskStack, StackAddress, Descriptor.Type, Descriptor.DPL,
      Descriptor.Selector, Descriptor.Params;
  }

  /** A far call faults on code that is not present, on a data segment of type 12h and on what no table holds. */
  lemma CallOutcome(s: Cpu, use32: bool, sel: word, offset: dword, oldEip: dword)
    ensures var o, t := Call(s, use32, sel, offset, oldEip), Lookup(s, sel).Type();
            && (o.Raise? <==> !RealLike(s) && (CodeMissing(s, sel) || t == 0x12 || t == 0))
            && (o.Raise? ==> o == Raise(if CodeMissing(s, sel) then NP else GP, sel / 4 * 4, s))
            && (o.Done? <==> RealLike(s) || CodeThere(s, sel) || GateStays(s, sel) || GateLeadsIn(s, sel)
                             || (t == TSS_386_AVAILABLE && SwitchTask(s, sel, ByCall, oldEip).Done?))
  {
    hide SwitchTask, GateInner, Lookup, Bit, PushFrame, EnterGateCode, Descriptor.Type, Descriptor.Present, Descriptor.DPL,
      Descriptor.Selector, InnerSs;
    if !RealLike(s) && (Lookup(s, sel).Type() == CALL_GATE_386 || Lookup(s, sel).Type() == CALL_GATE_286) {
      GateCallCompletes(s, use32, sel, oldEip);
    }
    SwitchTaskSetsRpl(s, sel, ByCall, oldEip);
    GateInnerSets(s, Lookup(s, sel), Lookup(s, Lookup(s, sel).Selector()), use32, oldEip);
  }

  lemma JmpOutcome(s: Cpu, use32: bool, sel: word, offset: dword, oldEip: dword)
    ensures var o := Jmp(s, use32, sel, offset, oldEip);
            && (o.Raise? <==> !RealLike(s) && CodeMissing(s, sel)) && (o.Raise? ==> o == Raise(NP, sel / 4 * 4, s))
            && (o.Done? <==> RealLike(s) || CodeThere(s, sel)
                             || (Lookup(s, sel).Type() == TSS_386_AVAILABLE && SwitchTask(s, sel, ByJmp, oldEip).Done?))
  {
    hide SwitchTask, Lookup, Bit, Descriptor.Type, Descriptor.Present;
    SwitchTaskSetsRpl(s, sel, ByJmp, oldEip);
  }

  /** The stack selector above the return address and the dropped parameters. */
  function RetStackSelector(s: Cpu, use32: bool, bytes: nat): word {
    Low16(Top(Popped(Advance(Popped(Popped(s, use32), use32), bytes), use32), use32))
  }

  lemma RetOuterCompletes(s: Cpu, use32: bool, bytes: nat, rpl: level, d: Descriptor)
    requires !RealLike(s)
    ensures RetOuterLevel(s, use32, bytes, rpl, d).Done? <==> IsWritableData(Lookup(s, RetStackSelector(s, use32, bytes)).Type())
  {
    hide Lookup, Bit, Moved, Top, CheckSegments, Descriptor.Type, Descriptor.Base, Descriptor.Big, WithRpl;
    var s1 := Popped(s, use32);
    var s2 := Advance(Popped(s1, use32), bytes);
    var s3 := Popped(s2, use32);
    var s4 := Popped(s3, use32);
    var cs, esp, ss := Low16(Top(s1, use32)), Top(s2, use32), Low16(Top(s3, use32));
    SameLookup(s, s4, ss);
    var t := LoadCode(s4, Segment(WithRpl(cs, rpl), d.Base()), d.Big(), Top(s, use32));
    ChecksOnlyData(SwitchLevel(t, ss, Lookup(s4, ss), (esp + bytes) % 0x1_0000_0000, rpl));
  }

  /** A far return faults on a selector of an inner level, and on code of its own level that is not present. */
  lemma RetOutcome(s: Cpu, use32: bool, bytes: nat)
    ensures var o, sel := Ret(s, use32, bytes), PeekedSelector(s, use32);
            && (o.Raise? <==> !RealLike(s) && (Rpl(sel) < s.cpl || (Rpl(sel) == s.cpl && CodeMissing(s, sel))))
            && (o.Raise? ==> o == Raise(if Rpl(sel) < s.cpl then GP else NP, sel / 4 * 4, s))
            && (o.Done? <==> RealLike(s) || (Rpl(sel) == s.cpl && CodeThere(s, sel))
                             || (Rpl(sel) > s.cpl && IsCode(Lookup(s, sel).Type())
                                 && IsWritableData(Lookup(s, RetStackSelector(s, use32, bytes)).Type())))
  {
    hide Lookup, Bit, PeekedSelector, RetOuterLevel, RetSameLevel, RealRet, RetStackSelector, Descriptor.Type, Descriptor.Present;
    var sel := PeekedSelector(s, use32);
    RetOuterSets(s, use32, bytes, Rpl(sel), Lookup(s, sel));
    if !RealLike(s) {
      RetOuterCompletes(s, use32, bytes, Rpl(sel), Lookup(s, sel));
    }
  }

  lemma IretToV86Done(s: Cpu, eip: dword, cs: word, flags: dword)
    requires Bit(flags, VM_BIT)
    ensures IretToV86(s, eip, cs, flags).Done?
  {
    hide Top, V86Segments, Bit, Moved, EnterV86, SetFlags;
    var s0 := s.(eip := eip % 0x1_0000);
    var s1, s2 := Popped(s0, true), Popped(Popped(s0, true), true);
    var s3, s4 := Popped(s2, true), Popped(Popped(s2, true), true);
    var s5 := Popped(s4, true);
    EntersVm(Popped(s5, true), flags);
    SegmentsLoaded(EnterV86(Popped(s5, true), flags), Low16(Top(s1, true)), Low16(Top(s2, true)), Low16(Top(s3, true)),
                   Low16(Top(s4, true)), Low16(Top(s5, true)));
  }

  lemma EntersVm(u: Cpu, flags: dword)
    requires Bit(flags, VM_BIT)
    ensures V86(EnterV86(u, flags))
  {
    hide Bit, SetFlags;
    MaskBits();
    SetFlagsVm(u, flags, FMASK_ALL + FLAG_VM);
  }

  /** IRET faults in virtual-8086 mode below I/O level 3 only. */
  lemma IretOutcome(s: Cpu, use32: bool, oldEip: dword)
    ensures var o := Iret(s, use32, oldEip);
            && (o.Raise? <==> s.pmode && V86(s) && Iopl(s.flags) != 3) && (o.Raise? ==> o == Raise(GP, 0, s))
            && (o.Done? <==>
                if !s.pmode then true
                else if V86(s) then Iopl(s.flags) == 3
                else if Bit(s.flags, NT_BIT) then SwitchTask(s, ReadW(s.mem, s.task.base), ByIret, oldEip).Done?
                else if IretsToV86(s, use32) then s.cpl == 0
                else
                  var cs := IretSelector(s, use32);
                  && IsCode(Lookup(s, cs).Type())
                  && (Rpl(cs) == s.cpl || IsWritableData(Lookup(s, IretStackSelector(s, use32)).Type())))
  {
    hide Lookup, Bit, Moved, Top, Peek, IretToV86, IretSameLevel, IretOuterLevel, RealIret, V86Iret, SwitchTask, Iopl, Descriptor.Type;
    var e1 := Moved(s, s.esp, Width(use32));
    var e2 := Moved(s, e1, Width(use32));
    var e3 := Moved(s, e2, Width(use32));
    var eip, cs, flags := Top(s, use32), Low16(Peek(s, use32, e1)), Peek(s, use32, e2);
    var f := if use32 then flags else flags + s.flags / 0x1_0000 * 0x1_0000;
    SwitchTaskSetsRpl(s, ReadW(s.mem, s.task.base), ByIret, oldEip);
    IretToV86Leaves(s.(esp := e3), eip, cs, flags);
    IretOuterSets(s, use32, Lookup(s, cs), cs, eip, f, e3);
    if s.pmode && !V86(s) {
      IretOuterCompletes(s, use32, Lookup(s, cs), cs, eip, f, e3);
      if IretsToV86(s, use32) {
        IretToV86Done(s.(esp := e3), eip, cs, flags);
      }
    }
  }

  /** The interrupt is not let through: I/O privilege, the end of the table, or the gate's own level. */
  predicate NeedsIopl(s: Cpu, kind: Kind) { V86(s) && kind.software && !kind.noIoplCheck && Iopl(s.flags) != 3 }

  predicate GateClosed(s: Cpu, num: nat, kind: Kind) { kind.software && IdtGate(s, num).DPL() < s.cpl }

  /** An interrupt or trap gate leads to code of the same level, or inward to a stack that can be written. */
  predicate GateTaken(s: Cpu, num: nat) {
    var gate, code := IdtGate(s, num), HandlerCode(s, num);
    if GoesIn(s, num) then IsWritableData(Lookup(s, HandlerStack(s, num).0).Type()) && (V86(s) ==> gate.Is386())
    else (IsNonConforming(code.Type()) && code.DPL() == s.cpl) || (IsConforming(code.Type()) && (V86(s) ==> code.DPL() >= s.cpl))
  }

  predicate TaskGateTaken(s: Cpu, num: nat, oldEip: dword) {
    IdtGate(s, num).Type() == TASK_GATE && SwitchTask(s, IdtGate(s, num).Selector(), ByCall, oldEip).Done?
  }

  lemma GateCompletes(s: Cpu, num: nat, kind: Kind, oldEip: dword)
    requires IsIntGate(IdtGate(s, num))
    ensures GateInterrupt(s, IdtGate(s, num), kind, oldEip).Done? <==> GateTaken(s, num)
  {
    hide Lookup, IdtGate, Bit, EnterHandler, PushV86Segments, SwitchLevel, TaskStack, Push, Descriptor.Type, Descriptor.DPL,
      Descriptor.Is386;
  }

  lemma InterruptOutcome(s: Cpu, num: nat, kind: Kind, oldEip: dword)
    ensures var o := Interrupt(s, num, kind, oldEip);
            && (o.Raise? <==> s.pmode && (NeedsIopl(s, kind) || 8 * num >= s.idt.limit || GateClosed(s, num, kind)))
            && (o.Raise? ==> o == Raise(GP, if NeedsIopl(s, kind) || 8 * num >= s.idt.limit then 0 else 8 * num + 2, s))
            && (o.Done? <==> !s.pmode || (!o.Raise? && ((IsIntGate(IdtGate(s, num)) && GateTaken(s, num))
                                                         || TaskGateTaken(s, num, oldEip))))
  {
    hide IdtGate, Bit, GateInterrupt, TaskInterrupt, RealInterrupt, Iopl, GateTaken, SwitchTask, OneMore, Descriptor.Type, Descriptor.DPL,
      Descriptor.Selector;
    var gate := IdtGate(s, num);
    GateInterruptSetsRpl(s, gate, kind, oldEip);
    TaskInterruptSetsRpl(s, gate, kind, oldEip);
    TaskInterruptPushes(s, gate, kind, oldEip);
    if IsIntGate(gate) {
      GateCompletes(s, num, kind, oldEip);
    }
  }

  // ----- exceptions

  /**
   An exception that is taken through a gate: its code is on top of the handler's stack when its number
   says that it has one, and above are the interrupted program's position and its own address.
   */
  lemma ExceptionFrame(s: Cpu, which: nat, code: nat)
    requires s.pmode && IsIntGate(IdtGate(s, which)) && Exception(s, which, code).Done?
    ensures var c, w := Exception(s, which, code).s, IdtGate(s, which).Is386();
            Frame(c, w, (if which >= 8 then [Kept(w, code % 0x1_0000_0000)] else []) + PositionWords(s, which, w, s.eip))
  {
    hide Interrupt, IdtGate, PositionWords, HandlerWords, OnStack, Frame, Bit, Pushed, Untouched, HandlerBase, GoesIn, Lookup,
      Descriptor.Type, Descriptor.Is386, Descriptor.Base, Descriptor.Big, Descriptor.Selector, Descriptor.Offset, Moved, Kept;
    var t, kind := s.(error := code), Kind(false, which >= 8, false);
    SameGates(s, code, which);
    HandlerEntry(t, which, kind, s.eip);
    HandlerWordsAre(t, which, kind, s.eip);
    OneOnStack(IdtGate(t, which).Is386(), code % 0x1_0000_0000);
    NoneOnStack(IdtGate(t, which).Is386());
  }

  lemma OneOnStack(use32: bool, x: dword)
    ensures OnStack(use32, [x]) == [Kept(use32, x)]
  {
    assert [x][1..] == [];
  }

  lemma SameGates(s: Cpu, code: nat, num: nat)
    ensures var t := s.(error := code);
            IdtGate(t, num) == IdtGate(s, num) && forall w, e :: PositionWords(t, num, w, e) == PositionWords(s, num, w, e)
  {
    hide LoadDescriptor, Bit, Kept, Descriptor.Type, Descriptor.DPL, Descriptor.Selector;
  }

  /** One word on top of a state's stack, and nothing else. */
  ghost predicate OneMore(t: Cpu, u: Cpu, use32: bool, v: dword) {
    && u == t.(mem := u.mem, esp := Moved(t, t.esp, -Width(use32)))
    && PeekAt(u, use32, 0) == Kept(use32, v) && Untouched(u.mem, t, use32, 1)
  }

  lemma PushIsOneMore(t: Cpu, use32: bool, v: dword)
    ensures OneMore(t, Push(t, use32, v), use32, v)
  {
    hide Push, Moved, PeekAt, Kept, ReadB, InWords, StackAddress;
    PushIs(t, use32, v);
    PushedWord(t, use32, v);
    forall b: int | !InWords(t, use32, 1, b)
      ensures ReadB(Push(t, use32, v).mem, b) == ReadB(t.mem, b)
    {
      InWordsBelow(t, Push(t, use32, v), use32, 0, b);
      PushKeepsByte(t, use32, v, b);
    }
  }

  /** Through a task gate the code is pushed on the new task's stack, at the width of that task. */
  lemma TaskInterruptPushes(s: Cpu, gate: Descriptor, kind: Kind, oldEip: dword)
    ensures var o, t := TaskInterrupt(s, gate, kind, oldEip), SwitchTask(s, gate.Selector(), ByCall, oldEip);
            if t.Done? && kind.hasError then o.Done? && OneMore(t.s, o.s, t.s.task.is386, t.s.error % 0x1_0000_0000) else o == t
  {
    hide SwitchTask, Push, OneMore, Descriptor.Selector;
    var t := SwitchTask(s, gate.Selector(), ByCall, oldEip);
    if t.Done? {
      PushIsOneMore(t.s, t.s.task.is386, t.s.error % 0x1_0000_0000);
    }
  }
}
