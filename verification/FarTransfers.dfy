/** The far transfers as functions of the processor state, branch for branch. */
module FarTransfers {
  import opened Bits
  import opened CpuState
  import opened Words

  datatype SwitchType = ByJmp | ByCall | ByIret

  // ----- task switch

  function SaveContext(m: Memory, s: Cpu, base: dword, flags: dword, eip: dword): Memory {
    var m1 := WriteD(WriteD(m, base + 36, flags), base + 32, eip);
    var m2 := WriteD(WriteD(WriteD(WriteD(m1, base + 40, s.gpr.eax), base + 44, s.gpr.ecx), base + 48, s.gpr.edx),
                     base + 52, s.gpr.ebx);
    var m3 := WriteD(WriteD(WriteD(WriteD(m2, base + 56, s.esp), base + 60, s.gpr.ebp), base + 64, s.gpr.esi),
                     base + 68, s.gpr.edi);
    var m4 := WriteD(WriteD(WriteD(m3, base + 72, s.es.val), base + 76, s.cs.val), base + 80, s.ss.val);
    WriteD(WriteD(WriteD(m4, base + 84, s.ds.val), base + 88, s.fs.val), base + 92, s.gs.val)
  }

  /** What a 386 task state segment holds for the registers. */
  datatype Context = Context(
    eip: dword, eflags: dword, gpr: General, esp: dword, cr3: dword,
    es: word, cs: word, ss: word, ds: word, fs: word, gs: word, ldt: word)

  function LoadContext(m: Memory, base: dword): Context {
    Context(
      ReadD(m, base + 32), ReadD(m, base + 36),
      General(ReadD(m, base + 40), ReadD(m, base + 44), ReadD(m, base + 48), ReadD(m, base + 52),
              ReadD(m, base + 60), ReadD(m, base + 64), ReadD(m, base + 68)),
      ReadD(m, base + 56), ReadD(m, base + 28),
      ReadW(m, base + 72), ReadW(m, base + 76), ReadW(m, base + 80), ReadW(m, base + 84), ReadW(m, base + 88),
      ReadW(m, base + 92), ReadW(m, base + 96))
  }

  /** The saved, linked and marked state, before the new context is loaded. */
  function LeaveTask(s: Cpu, to: Task, how: SwitchType, oldEip: dword): Cpu {
    var s1 := if how.ByCall? then s
              else StoreDescriptor(s.(task := s.task.(desc := s.task.desc.SetBusy(false))),
                                   s.task.selector, s.task.desc.SetBusy(false));
    var flags := if how.ByIret? then SetBit(s.flags, NT_BIT, false) else s.flags;
    var s2 := s1.(mem := SaveContext(s1.mem, s, s.task.base, flags % 0x1_0000_0000, oldEip));
    var s3 := if how.ByCall? then s2.(mem := WriteD(s2.mem, to.base, s.task.selector)) else s2;
    if how.ByIret? then s3 else StoreDescriptor(s3, to.selector, to.desc.SetBusy(true))
  }

  /** Loads the code segment of a task's context. */
  function EnterCode(s: Cpu, cs: word, ldt: word): Outcome {
    if V86(s) then Done(s.(cs := RealSegment(cs), codeBig := false, cpl := 3))
    else
      var s1 := if ldt != 0 then LoadLdt(s, ldt) else s;
      var s2 := s1.(cpl := Rpl(cs));
      var d := Lookup(s2, cs);
      if !InTable(s2, cs) || !d.Present() then Exit
      else if IsNonConforming(d.Type()) && s2.cpl != d.DPL() then Exit
      else if IsConforming(d.Type()) && s2.cpl < d.DPL() then Exit
      else if !IsCode(d.Type()) then Exit
      else Done(s2.(cs := Segment(cs, d.Base()), codeBig := d.Big()))
  }

  /** The context's selectors, or the current ones when a task switches to itself. */
  function Selectors(s: Cpu, c: Context, same: bool): Context {
    if same then c.(cs := s.cs.val, ss := s.ss.val, ds := s.ds.val, es := s.es.val, fs := s.fs.val, gs := s.gs.val)
    else c
  }

  function LoadRegisters(s: Cpu, c: Context, same: bool, oldEip: dword): Cpu {
    if same then s.(eip := oldEip)
    else
      SetFlags(s.(cr3 := c.cr3, eip := c.eip), c.eflags, 0x6_7fd5).(gpr := c.gpr, esp := c.esp)
  }

  /** Loads the data segments in the source's order and the TSS register last. */
  function EnterTask(o: Outcome, c: Context, sel: word): Outcome {
    var r := AndSet(AndSet(AndSet(AndSet(AndSet(o, ES, c.es), SS, c.ss), DS, c.ds), FS, c.fs), GS, c.gs);
    if r.Done? then Done(r.s.(task := SetSelector(r.s, r.s.task, sel).0)) else r
  }

  /** CPU_SwitchTask */
  function SwitchTask(s: Cpu, sel: word, how: SwitchType, oldEip: dword): Outcome {
    var (to, ok) := SetSelector(s, NO_TASK, sel);
    if !ok || to.desc.Busy() != how.ByIret? || !to.is386 || !s.task.is386 then Exit
    else
      var loaded := LoadContext(s.mem, to.base);
      var c0 := if how.ByCall? then loaded.(eflags := SetBit(loaded.eflags, NT_BIT, true) % 0x1_0000_0000) else loaded;
      var left := LeaveTask(s, to, how, oldEip);
      var same := sel == left.task.selector;
      var c := Selectors(left, c0, same);
      EnterTask(EnterCode(LoadRegisters(left, c, same, oldEip), c.cs, c.ldt), c, sel)
  }

  // ----- interrupts

  /** Bits of the interrupt type. */
  datatype Kind = Kind(software: bool, hasError: bool, noIoplCheck: bool)

  function PushFrame(s: Cpu, use32: bool, eip: dword): Cpu {
    Push(Push(s, use32, s.cs.val), use32, eip)
  }

  function InterruptFrame(s: Cpu, gate: Descriptor, kind: Kind, oldEip: dword): Cpu {
    var s1 := PushFrame(Push(s, gate.Is386(), s.flags % 0x1_0000_0000), gate.Is386(), oldEip);
    if kind.hasError then Push(s1, gate.Is386(), s.error % 0x1_0000_0000) else s1
  }

  function ClearInterruptFlags(f: nat, gate: Descriptor): nat {
    var f1 := if gate.Type() % 2 == 0 then SetBit(f, IF_BIT, false) else f;
    SetBit(SetBit(SetBit(f1, TF_BIT, false), NT_BIT, false), VM_BIT, false)
  }

  function EnterHandler(s: Cpu, gate: Descriptor, code: Descriptor, kind: Kind, oldEip: dword): Cpu {
    var t := InterruptFrame(s, gate, kind, oldEip);
    LoadCode(t, Segment(WithRpl(gate.Selector(), t.cpl), code.Base()), code.Big(), gate.Offset())
      .(flags := ClearInterruptFlags(t.flags, gate))
  }

  function PushSegment(s: Cpu, name: SegName): Cpu {
    PutSeg(Push32(s, GetSeg(s, name).val), name, RealSegment(0))
  }

  function PushV86Segments(s: Cpu): Cpu {
    PushSegment(PushSegment(PushSegment(PushSegment(s, GS), FS), DS), ES)
  }

  /** The inner level's stack with the interrupted one's position on it. */
  function InnerStack(s: Cpu, gate: Descriptor, dpl: level): Outcome {
    var (sel, esp) := TaskStack(s, dpl);
    var d := Lookup(s, sel);
    if !IsWritableData(d.Type()) || (!gate.Is386() && V86(s)) then Exit
    else
      var t := SwitchLevel(s, sel, d, esp, dpl);
      var u := if gate.Is386() && V86(s) then PushV86Segments(t) else t;
      Done(Push(Push(u, gate.Is386(), s.ss.val), gate.Is386(), s.esp))
  }

  function IdtGate(s: Cpu, num: nat): Descriptor {
    if num * 8 < s.idt.limit then LoadDescriptor(s.mem, s.idt.base + num * 8) else NO_DESCRIPTOR
  }

  function RealInterrupt(s: Cpu, num: nat, oldEip: dword): Cpu {
    var t := PushFrame(Push16(s, s.flags % 0x1_0000), false, oldEip);
    var u := t.(flags := SetBit(SetBit(t.flags, IF_BIT, false), TF_BIT, false));
    LoadCode(u, RealSegment(ReadW(u.mem, u.idt.base + num * 4 + 2)), false, ReadW(u.mem, u.idt.base + num * 4))
  }

  function GateInterrupt(s: Cpu, gate: Descriptor, kind: Kind, oldEip: dword): Outcome {
    var code := Lookup(s, gate.Selector());
    if IsNonConforming(code.Type()) && code.DPL() < s.cpl then
      var o := InnerStack(s, gate, code.DPL());
      if o.Done? then Done(EnterHandler(o.s, gate, code, kind, oldEip)) else o
    else if IsNonConforming(code.Type()) && code.DPL() != s.cpl then Exit
    else if !IsCode(code.Type()) || (V86(s) && code.DPL() < s.cpl) then Exit
    else Done(EnterHandler(s, gate, code, kind, oldEip))
  }

  function TaskInterrupt(s: Cpu, gate: Descriptor, kind: Kind, oldEip: dword): Outcome {
    var o := SwitchTask(s, gate.Selector(), ByCall, oldEip);
    if o.Done? && kind.hasError then Done(Push(o.s, o.s.task.is386, o.s.error % 0x1_0000_0000)) else o
  }

  /** CPU_Interrupt; a gate beyond the table is reported with code 0, whatever its number. */
  function Interrupt(s: Cpu, num: nat, kind: Kind, oldEip: dword): Outcome {
    if !s.pmode then Done(RealInterrupt(s, num, oldEip))
    else if V86(s) && kind.software && !kind.noIoplCheck && Iopl(s.flags) != 3 then Raise(GP, 0, s)
    else if num * 8 >= s.idt.limit then Raise(GP, 0, s)
    else
      var gate := IdtGate(s, num);
      if kind.software && gate.DPL() < s.cpl then Raise(GP, num * 8 + 2, s)
      else if gate.Type() == 6 || gate.Type() == 7 || gate.Type() == 14 || gate.Type() == 15 then
        GateInterrupt(s, gate, kind, oldEip)
      else if gate.Type() == TASK_GATE then TaskInterrupt(s, gate, kind, oldEip)
      else Exit
  }

  /** CPU_Exception, which ends every branch that raises one. */
  function Exception(s: Cpu, which: nat, code: nat): Outcome {
    Interrupt(s.(error := code), which, Kind(false, which >= 8, false), s.eip)
  }

  // ----- IRET

  function RealIret(s: Cpu, use32: bool): Cpu {
    var s1 := Popped(s, use32);
    var s2 := Popped(s1, use32);
    SetFlags(LoadCode(Popped(s2, use32), RealSegment(Low16(Top(s1, use32))), false, Top(s, use32)),
             Top(s2, use32), if use32 then FMASK_ALL else FMASK_ALL % 0x1_0000)
  }

  function V86Iret(s: Cpu, use32: bool): Cpu {
    var s1 := Popped(s, use32);
    var s2 := Popped(s1, use32);
    SetFlags(LoadCode(Popped(s2, use32), RealSegment(Low16(Top(s1, use32))), false, Top(s, use32)),
             Top(s2, use32), FMASK_NORMAL + FLAG_NT)
  }

  function V86Segments(o: Outcome, ss: word, es: word, ds: word, fs: word, gs: word): Outcome {
    AndSet(AndSet(AndSet(AndSet(AndSet(o, SS, ss), ES, es), DS, ds), FS, fs), GS, gs)
  }

  function EnterV86(s: Cpu, flags: dword): Cpu { SetFlags(s, flags, FMASK_ALL + FLAG_VM).(cpl := 3) }

  function FinishV86(o: Outcome, esp: dword, cs: word): Outcome {
    if o.Done? then Done(o.s.(esp := esp, codeBig := false, cs := RealSegment(cs))) else o
  }

  /** The return to virtual-8086 mode from level 0; s is past the three words of the frame. */
  function IretToV86(s: Cpu, eip: dword, cs: word, flags: dword): Outcome {
    var s0 := s.(eip := eip % 0x1_0000);
    var s1, s2 := Popped(s0, true), Popped(Popped(s0, true), true);
    var s3, s4 := Popped(s2, true), Popped(Popped(s2, true), true);
    var s5 := Popped(s4, true);
    var o := V86Segments(Done(EnterV86(Popped(s5, true), flags)), Low16(Top(s1, true)), Low16(Top(s2, true)),
                         Low16(Top(s3, true)), Low16(Top(s4, true)), Low16(Top(s5, true)));
    FinishV86(o, Top(s0, true), cs)
  }

  /** The flags an IRET may change at the current level. */
  function IretMask(s: Cpu): nat {
    var m := if s.cpl != 0 then FMASK_NORMAL + FLAG_NT else FMASK_ALL;
    if Iopl(s.flags) < s.cpl then SetBit(m, IF_BIT, false) else m
  }

  function IretSameLevel(s: Cpu, d: Descriptor, cs: word, eip: dword, flags: nat, esp: dword): Cpu {
    SetFlags(LoadCode(s.(esp := esp), Segment(cs, d.Base()), d.Big(), eip), flags, IretMask(s))
  }

  function IretOuterLevel(s: Cpu, use32: bool, d: Descriptor, cs: word, eip: dword, flags: nat, at: dword): Outcome {
    var esp, sel := Peek(s, use32, at), Low16(Peek(s, use32, Moved(s, at, Width(use32))));
    var n := Lookup(s, sel);
    if !IsWritableData(n.Type()) then Exit
    else
      var t := SetFlags(LoadCode(s, Segment(cs, d.Base()), d.Big(), eip), flags, IretMask(s));
      CheckSegments(SwitchLevel(t, sel, n, esp, Rpl(cs)))
  }

  /** CPU_IRET */
  function Iret(s: Cpu, use32: bool, oldEip: dword): Outcome {
    if !s.pmode then Done(RealIret(s, use32))
    else if V86(s) then
      if Iopl(s.flags) != 3 then Raise(GP, 0, s) else Done(V86Iret(s, use32))
    else if Bit(s.flags, NT_BIT) then SwitchTask(s, ReadW(s.mem, s.task.base), ByIret, oldEip)
    else
      var e1 := Moved(s, s.esp, Width(use32));
      var e2 := Moved(s, e1, Width(use32));
      var e3 := Moved(s, e2, Width(use32));
      var eip, cs, flags := Top(s, use32), Low16(Peek(s, use32, e1)), Peek(s, use32, e2);
      if use32 && Bit(flags, VM_BIT) then
        if s.cpl == 0 then IretToV86(s.(esp := e3), eip, cs, flags) else Exit
      else
        var d := Lookup(s, cs);
        var f := if use32 then flags else flags + s.flags / 0x1_0000 * 0x1_0000;
        if !IsCode(d.Type()) then Exit
        else if Rpl(cs) == s.cpl then Done(IretSameLevel(s, d, cs, eip, f, e3))
        else IretOuterLevel(s, use32, d, cs, eip, f, e3)
  }

  // ----- JMP

  function Narrow(use32: bool, offset: dword): dword { if use32 then offset else Low16(offset) }

  /** CPU_JMP */
  function Jmp(s: Cpu, use32: bool, sel: word, offset: dword, oldEip: dword): Outcome {
    if !s.pmode || V86(s) then
      Done(LoadCode(s, RealSegment(sel), false, Narrow(use32, offset)))
    else
      var d := Lookup(s, sel);
      if IsCode(d.Type()) then
        if !d.Present() then Raise(NP, WithRpl(sel, 0), s)
        else Done(LoadCode(s, Segment(WithRpl(sel, s.cpl), d.Base()), d.Big(), offset))
      else if d.Type() == TSS_386_AVAILABLE then SwitchTask(s, sel, ByJmp, oldEip)
      else Exit
  }

  // ----- CALL

  /** Copies k parameters, the highest first, while the pushes below them go on. */
  function CopyParams(s: Cpu, from: int, k: nat, use32: bool): Cpu
    decreases k
  {
    if k == 0 then s
    else CopyParams(Push(s, use32, ParamAt(s, from, k - 1, use32)), from, k - 1, use32)
  }

  function ParamAt(s: Cpu, from: int, i: nat, use32: bool): dword {
    if use32 then ReadD(s.mem, from + i * 4) else ReadW(s.mem, from + i * 2)
  }

  function EnterGateCode(s: Cpu, gate: Descriptor, code: Descriptor, use32: bool): Cpu {
    LoadCode(s, Segment(WithRpl(gate.Selector(), s.cpl), code.Base()), code.Big(), Narrow(use32, gate.Offset()))
  }

  /** The call to an inner level: new stack, old stack pointer, parameters, return address. */
  function GateInner(s: Cpu, gate: Descriptor, code: Descriptor, use32: bool, oldEip: dword): Outcome {
    var (sel, esp) := TaskStack(s, code.DPL());
    var d := Lookup(s, sel);
    if !IsWritableData(d.Type()) then Exit
    else
      var wide := gate.Type() == CALL_GATE_386;
      var t := EnterGateCode(SwitchLevel(s, sel, d, esp, code.DPL()), gate, code, use32);
      var u := CopyParams(Push(Push(t, wide, s.ss.val), wide, s.esp), StackAddress(s, s.esp), gate.Params(), wide);
      Done(Push(Push(u, wide, s.cs.val), wide, oldEip))
  }

  function GateCall(s: Cpu, gate: Descriptor, use32: bool, oldEip: dword): Outcome {
    var code := Lookup(s, gate.Selector());
    if IsNonConforming(code.Type()) && code.DPL() < s.cpl then GateInner(s, gate, code, use32, oldEip)
    else if !IsCode(code.Type()) || (IsNonConforming(code.Type()) && code.DPL() > s.cpl) then Exit
    else Done(EnterGateCode(PushFrame(s, gate.Type() == CALL_GATE_386, oldEip), gate, code, use32))
  }

  /** CPU_CALL */
  function Call(s: Cpu, use32: bool, sel: word, offset: dword, oldEip: dword): Outcome {
    if !s.pmode || V86(s) then
      Done(LoadCode(PushFrame(s, use32, oldEip), RealSegment(sel), false, Narrow(use32, offset)))
    else
      var d := Lookup(s, sel);
      if IsCode(d.Type()) then
        if !d.Present() then Raise(NP, WithRpl(sel, 0), s)
        else Done(LoadCode(PushFrame(s, use32, oldEip), Segment(WithRpl(sel, s.cpl), d.Base()), d.Big(),
                           Narrow(use32, offset)))
      else if d.Type() == CALL_GATE_386 || d.Type() == CALL_GATE_286 then GateCall(s, d, use32, oldEip)
      else if d.Type() == TSS_386_AVAILABLE then SwitchTask(s, sel, ByCall, oldEip)
      else if d.Type() == 0x12 || d.Type() == 0 then Raise(GP, WithRpl(sel, 0), s)
      else Exit
  }

  // ----- RET

  /** Where CPU_RET looks for the selector before it pops: above the masked stack pointer, not masked again. */
  function PeekedSelector(s: Cpu, use32: bool): word {
    if use32 then Low16(ReadD(s.mem, StackAddress(s, s.esp) + 4)) else ReadW(s.mem, StackAddress(s, s.esp) + 2)
  }

  function Advance(s: Cpu, bytes: nat): Cpu { s.(esp := (s.esp + bytes) % 0x1_0000_0000) }

  function RealRet(s: Cpu, use32: bool, bytes: nat): Cpu {
    var s1 := Popped(s, use32);
    LoadCode(Advance(Popped(s1, use32), bytes), RealSegment(Low16(Top(s1, use32))), false, Top(s, use32))
  }

  /** Drops parameters from the stack, within its width. */
  function DropParams(s: Cpu, bytes: nat): Cpu {
    s.(esp := if s.stackBig then (s.esp + bytes) % 0x1_0000_0000
              else s.esp / 0x1_0000 * 0x1_0000 + (s.esp + bytes) % 0x1_0000)
  }

  function RetSameLevel(s: Cpu, use32: bool, bytes: nat, d: Descriptor): Cpu {
    var s1 := Popped(s, use32);
    DropParams(LoadCode(Popped(s1, use32), Segment(Low16(Top(s1, use32)), d.Base()), d.Big(), Top(s, use32)), bytes)
  }

  function RetOuterLevel(s: Cpu, use32: bool, bytes: nat, rpl: level, d: Descriptor): Outcome {
    var s1 := Popped(s, use32);
    var s2 := Advance(Popped(s1, use32), bytes);
    var s3 := Popped(s2, use32);
    var s4 := Popped(s3, use32);
    var cs, esp, ss := Low16(Top(s1, use32)), Top(s2, use32), Low16(Top(s3, use32));
    var n := Lookup(s4, ss);
    if !IsWritableData(n.Type()) then Exit
    else
      var t := LoadCode(s4, Segment(WithRpl(cs, rpl), d.Base()), d.Big(), Top(s, use32));
      CheckSegments(SwitchLevel(t, ss, n, (esp + bytes) % 0x1_0000_0000, rpl))
  }

  /** CPU_RET */
  function Ret(s: Cpu, use32: bool, bytes: nat): Outcome {
    if !s.pmode || V86(s) then Done(RealRet(s, use32, bytes))
    else
      var sel := PeekedSelector(s, use32);
      var d := Lookup(s, sel);
      if Rpl(sel) < s.cpl then Raise(GP, WithRpl(sel, 0), s)
      else if !IsCode(d.Type()) then Exit
      else if Rpl(sel) == s.cpl then
        if !d.Present() then Raise(NP, WithRpl(sel, 0), s)
        else Done(RetSameLevel(s, use32, bytes, d))
      else RetOuterLevel(s, use32, bytes, Rpl(sel), d)
  }
}
