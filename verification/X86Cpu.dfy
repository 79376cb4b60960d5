/**
 The far transfers as they run, updating the processor's registers and its stack step by step; every
 method is the corresponding function of the state before it.
 */
module X86Cpu {
  import opened Bits
  import opened CpuState
  import Transfers = FarTransfers

  import opened PrivilegeProofs
  import opened Words

  /** How a transfer ended: at the end, in CPU_Exception, or in E_Exit. */
  datatype Signal = Completed | Raised(which: nat, code: nat) | Exited

  function CheckedCode(s: Cpu, cs: word): Outcome {
    var d := Lookup(s, cs);
    if !InTable(s, cs) || !d.Present() then Exit
    else if IsNonConforming(d.Type()) && s.cpl != d.DPL() then Exit
    else if IsConforming(d.Type()) && s.cpl < d.DPL() then Exit
    else if !IsCode(d.Type()) then Exit
    else Done(s.(cs := Segment(cs, d.Base()), codeBig := d.Big()))
  }

  lemma EnterCodeParts(s: Cpu, cs: word, ldt: word)
    ensures Transfers.EnterCode(s, cs, ldt)
            == if V86(s) then Done(s.(cs := RealSegment(cs), codeBig := false, cpl := 3))
               else CheckedCode((if ldt != 0 then LoadLdt(s, ldt) else s).(cpl := Rpl(cs)), cs)
  {
    hide Lookup, InTable, Bit, LoadLdt, Descriptor.Type, Descriptor.Present, Descriptor.DPL, Descriptor.Base, Descriptor.Big;
  }

  class Processor {
    var mem: Memory
    var gdt: Table
    var idt: Table
    var ldt: Table
    var ldtValue: word
    var task: Task
    var pmode: bool
    var cpl: level
    var cr3: dword
    var cs: Segment
    var ss: Segment
    var es: Segment
    var ds: Segment
    var fs: Segment
    var gs: Segment
    var codeBig: bool
    var stackBig: bool
    var gpr: General
    var esp: dword
    var eip: dword
    var flags: nat
    var which: nat
    var error: nat
    const fsBase: dword
    const idToggle: bool

    constructor (fsBase: dword, idToggle: bool)
      ensures RplIsCpl(View())
    {
      mem := map[];
      gdt, idt, ldt, ldtValue := Table(0, 0), Table(0, 0), Table(0, 0), 0;
      task := NO_TASK;
      pmode, cpl, cr3 := false, 0, 0;
      cs, ss, es, ds, fs, gs :=
        Segment(0, 0), Segment(0, 0), Segment(0, 0), Segment(0, 0), Segment(0, 0), Segment(0, 0);
      codeBig, stackBig := false, false;
      gpr := General(0, 0, 0, 0, 0, 0, 0);
      esp, eip, flags, which, error := 0, 0, 2, 0, 0;
      this.fsBase, this.idToggle := fsBase, idToggle;
    }

    function View(): (s: Cpu)
      reads this
    {
      Cpu(mem, gdt, idt, ldt, ldtValue, task, pmode, cpl, cr3, cs, ss, es, ds, fs, gs, codeBig, stackBig,
          gpr, esp, eip, flags, which, error, fsBase, idToggle)
    }

    /** The outcome a signal stands for in the current state. */
    function Result(r: Signal): Outcome
      reads this
    {
      match r
      case Completed => Done(View())
      case Raised(which, code) => Raise(which, code, View())
      case Exited => Exit
    }

    // ----- the stack

    method DoPush(use32: bool, v: dword)
      modifies this`mem, this`esp
      ensures View() == Push(old(View()), use32, v)
    {
      hide WriteD, WriteW, Moved;
      var e := Moved(View(), esp, if use32 then -4 else -2);
      if use32 {
        mem := WriteD(mem, StackAddress(View(), e), v);
      } else {
        mem := WriteW(mem, StackAddress(View(), e), v % 0x1_0000);
      }
      esp := e;
    }

    method DoPop(use32: bool) returns (v: dword)
      modifies this`esp
      ensures v == Top(old(View()), use32) && View() == Popped(old(View()), use32)
    {
      hide ReadD, ReadW;
      v := Peek(View(), use32, esp);
      esp := Moved(View(), esp, Width(use32));
    }

    method DoPushFrame(use32: bool, oldEip: dword)
      modifies this`mem, this`esp
      ensures View() == Transfers.PushFrame(old(View()), use32, oldEip)
    {
      hide Push;
      DoPush(use32, cs.val);
      DoPush(use32, oldEip);
    }

    method DoSetFlags(w: nat, mask: nat)
      modifies this`flags
      ensures View() == SetFlags(old(View()), w, mask)
    {
      hide Select, SetBit;
      var m := mask;
      if idToggle {
        m := Select(mask, 0x20_0000, 0x20_0000);
      }
      flags := SetBit(Select(flags, w, m), 1, true);
    }

    /** SS, the stack width and the stack pointer at a commit point. */
    method DoSwitchStack(sel: word, d: Descriptor, newEsp: dword)
      modifies this`ss, this`stackBig, this`esp
      ensures View() == SwitchStack(old(View()), sel, d, newEsp)
    {
      hide Descriptor.Base, Descriptor.Big;
      ss := Segment(sel, d.Base());
      if d.Big() {
        stackBig := true;
        esp := newEsp;
      } else {
        stackBig := false;
        esp := esp / 0x1_0000 * 0x1_0000 + newEsp % 0x1_0000;
      }
    }

    /** CS, its width and EIP. */
    method DoLoadCode(newCs: Segment, big: bool, newEip: dword)
      modifies this`cs, this`codeBig, this`eip
      ensures View() == LoadCode(old(View()), newCs, big, newEip)
    {
      cs := newCs;
      codeBig := big;
      eip := newEip;
    }

    method DoSwitchLevel(sel: word, d: Descriptor, newEsp: dword, l: level)
      modifies this`ss, this`stackBig, this`esp, this`cpl
      ensures View() == SwitchLevel(old(View()), sel, d, newEsp, l)
    {
      hide SwitchStack;
      DoSwitchStack(sel, d, newEsp);
      cpl := l;
    }

    method DoAdvance(bytes: nat)
      modifies this`esp
      ensures View() == Transfers.Advance(old(View()), bytes)
    {
      esp := (esp + bytes) % 0x1_0000_0000;
    }

    method DoDropParams(bytes: nat)
      modifies this`esp
      ensures View() == Transfers.DropParams(old(View()), bytes)
    {
      if stackBig {
        esp := (esp + bytes) % 0x1_0000_0000;
      } else {
        esp := esp / 0x1_0000 * 0x1_0000 + (esp + bytes) % 0x1_0000;
      }
    }

    // ----- segments

    method PutSegment(name: SegName, v: Segment)
      modifies this`es, this`ss, this`ds, this`fs, this`gs
      ensures View() == PutSeg(old(View()), name, v)
    {
      match name {
        case ES => es := v;
        case SS => ss := v;
        case DS => ds := v;
        case FS => fs := v;
        case GS => gs := v;
      }
    }

    method DoSetReal(name: SegName, v: word)
      modifies this
      ensures View() == SetReal(old(View()), name, v)
    {
      PutSegment(name, RealSegment(v));
      if name.SS? {
        stackBig := false;
      }
      fs := fs.(phys := fsBase);
    }

    method DoPrepare(newWhich: nat, newError: nat)
      modifies this`which, this`error
      ensures View() == Prepared(old(View()), newWhich, newError)
    {
      which, error := newWhich, newError;
    }

    method DoSetStack(v: word) returns (r: Signal)
      modifies this
      ensures Result(r) == SetStack(old(View()), v)
    {
      hide Lookup, InTable, Descriptor.Type, Descriptor.DPL, Descriptor.Present, Descriptor.Base, Descriptor.Big, WithRpl;
      var d := Lookup(View(), v);
      r := Completed;
      if NullSelector(v) || !InTable(View(), v) || Rpl(v) != cpl || d.DPL() != cpl {
        r := Exited;
      } else if !IsWritableData(d.Type()) {
        DoPrepare(GP, WithRpl(v, 0));
      } else if !d.Present() {
        DoPrepare(SSF, WithRpl(v, 0));
      } else {
        ss := Segment(v, d.Base());
        stackBig := d.Big();
        fs := fs.(phys := fsBase);
      }
    }

    method DoSetData(name: SegName, v: word)
      modifies this
      ensures View() == SetData(old(View()), name, v)
    {
      hide Lookup, InTable, Descriptor.Type, Descriptor.DPL, Descriptor.Present, Descriptor.Base, Descriptor.Big, WithRpl;
      if NullSelector(v) {
        PutSegment(name, Segment(v, 0));
        return;
      }
      var d := Lookup(View(), v);
      if !InTable(View(), v) {
        DoPrepare(GP, WithRpl(v, 0));
        return;
      }
      var t := d.Type();
      if 0x10 <= t <= 0x17 || t == 0x1a || t == 0x1b {
        if Rpl(v) > d.DPL() || cpl > d.DPL() {
          DoPrepare(GP, WithRpl(v, 0));
          return;
        }
      } else if t != 0x1e && t != 0x1f {
        DoPrepare(GP, WithRpl(v, 0));
        return;
      }
      if !d.Present() {
        DoPrepare(NP, WithRpl(v, 0));
        return;
      }
      PutSegment(name, Segment(v, d.Base()));
      fs := fs.(phys := fsBase);
    }

    method DoSetSegGeneral(name: SegName, v: word) returns (r: Signal)
      modifies this
      ensures Result(r) == SetSegGeneral(old(View()), name, v)
    {
      hide SetReal, SetStack, SetData, Bit;
      r := Completed;
      if !pmode || V86(View()) {
        DoSetReal(name, v);
      } else if name.SS? {
        r := DoSetStack(v);
      } else {
        DoSetData(name, v);
      }
    }

    method DoCheckSegment(name: SegName) returns (r: Signal)
      modifies this
      ensures Result(r) == CheckSegment(Done(old(View())), name)
    {
      hide Lookup, InTable, SetSegGeneral, Descriptor.Type, Descriptor.DPL;
      var v := GetSeg(View(), name).val;
      var d := Lookup(View(), v);
      r := Completed;
      if !InTable(View(), v) || (0x10 <= d.Type() <= 0x1b && cpl > d.DPL()) {
        r := DoSetSegGeneral(name, 0);
      }
    }

    method DoCheckSegments() returns (r: Signal)
      modifies this
      ensures Result(r) == CheckSegments(old(View()))
    {
      hide CheckSegment, Bit;
      ghost var s := View();
      AfterExit(ES);
      AfterExit(DS);
      AfterExit(FS);
      AfterExit(GS);
      CheckKeeps(Done(s), ES);
      r := DoCheckSegment(ES);
      if r.Exited? { return; }
      CheckKeeps(Done(View()), DS);
      r := DoCheckSegment(DS);
      if r.Exited? { return; }
      CheckKeeps(Done(View()), FS);
      r := DoCheckSegment(FS);
      if r.Exited? { return; }
      CheckKeeps(Done(View()), GS);
      r := DoCheckSegment(GS);
    }

    // ----- the TSS register

    method DoSetTask(sel: word)
      modifies this`task
      ensures View() == old(View()).(task := SetSelector(old(View()), old(task), sel).0)
    {
      hide Lookup, InTable, Descriptor.Type, Descriptor.Present, Descriptor.Base, Descriptor.Limit, Descriptor.Is386;
      var found, d := InTable(View(), sel), Lookup(View(), sel);
      task := task.(valid := false);
      if NullSelector(sel) {
        task := task.(selector := 0, base := 0, limit := 0, is386 := true);
        return;
      }
      if sel / 4 % 2 == 1 || !found {
        return;
      }
      task := task.(desc := d);
      var t := d.Type();
      if (t == 1 || t == 3 || t == 9 || t == 11) && d.Present() {
        task := Task(d, sel, d.Base(), d.Limit(), d.Is386(), true);
      }
    }

    method DoLoadLdt(sel: word)
      modifies this`ldt, this`ldtValue, this`which, this`error
      ensures View() == LoadLdt(old(View()), sel)
    {
      hide Lookup, InTable, Descriptor.Type, Descriptor.Present, Descriptor.Base, Descriptor.Limit;
      var d := Lookup(View(), sel);
      if NullSelector(sel) {
        ldt, ldtValue := Table(0, 0), 0;
      } else if !InTable(View(), sel) || d.Type() != LDT {
        which, error := GP, sel;
      } else if !d.Present() {
        which, error := NP, sel;
      } else {
        ldt, ldtValue := Table(d.Base(), d.Limit()), sel;
      }
    }

    method DoStoreDescriptor(sel: word, d: Descriptor)
      modifies this`mem
      ensures View() == StoreDescriptor(old(View()), sel, d)
    {
      hide WriteD;
      if InTable(View(), sel) {
        mem := WriteD(mem, EntryAddress(View(), sel), d.lo);
        mem := WriteD(mem, EntryAddress(View(), sel) + 4, d.hi);
      }
    }

    // ----- the transfers

    method DoSaveContext(base: dword, saved: dword, oldEip: dword)
      modifies this`mem
      ensures View() == old(View()).(mem := Transfers.SaveContext(old(mem), old(View()), base, saved, oldEip))
    {
      hide WriteD;
      mem := WriteD(mem, base + 36, saved);
      mem := WriteD(mem, base + 32, oldEip);
      mem := WriteD(mem, base + 40, gpr.eax);
      mem := WriteD(mem, base + 44, gpr.ecx);
      mem := WriteD(mem, base + 48, gpr.edx);
      mem := WriteD(mem, base + 52, gpr.ebx);
      mem := WriteD(mem, base + 56, esp);
      mem := WriteD(mem, base + 60, gpr.ebp);
      mem := WriteD(mem, base + 64, gpr.esi);
      mem := WriteD(mem, base + 68, gpr.edi);
      mem := WriteD(mem, base + 72, es.val);
      mem := WriteD(mem, base + 76, cs.val);
      mem := WriteD(mem, base + 80, ss.val);
      mem := WriteD(mem, base + 84, ds.val);
      mem := WriteD(mem, base + 88, fs.val);
      mem := WriteD(mem, base + 92, gs.val);
    }

    method DoLeaveTask(to: Task, how: Transfers.SwitchType, oldEip: dword)
      modifies this`mem, this`task
      ensures View() == Transfers.LeaveTask(old(View()), to, how, oldEip)
    {
      hide StoreDescriptor, WriteD, Transfers.SaveContext, SetBit, Descriptor.SetBusy;
      ghost var s := View();
      if !how.ByCall? {
        task := task.(desc := task.desc.SetBusy(false));
        DoStoreDescriptor(task.selector, task.desc);
      }
      StoresOnly(s, s.task.selector, s.task.desc.SetBusy(false));
      StoresOnly(s.(task := s.task.(desc := s.task.desc.SetBusy(false))), s.task.selector, s.task.desc.SetBusy(false));
      var saved := flags;
      if how.ByIret? {
        saved := SetBit(saved, NT_BIT, false);
      }
      ContextOnly(mem, s, View(), task.base, saved % 0x1_0000_0000, oldEip);
      DoSaveContext(task.base, saved % 0x1_0000_0000, oldEip);
      if how.ByCall? {
        mem := WriteD(mem, to.base, task.selector);
      }
      if !how.ByIret? {
        DoStoreDescriptor(to.selector, to.desc.SetBusy(true));
      }
    }

    /** The checks of the new code selector, at the level it asks for. */
    method DoCheckCode(newCs: word) returns (r: Signal)
      modifies this
      ensures Result(r) == CheckedCode(old(View()), newCs)
    {
      hide Lookup, InTable, Descriptor.Type, Descriptor.Present, Descriptor.DPL, Descriptor.Base, Descriptor.Big;
      var d := Lookup(View(), newCs);
      if !InTable(View(), newCs) || !d.Present() {
        return Exited;
      }
      if IsNonConforming(d.Type()) {
        if cpl != d.DPL() { return Exited; }
      } else if IsConforming(d.Type()) {
        if cpl < d.DPL() { return Exited; }
      } else {
        return Exited;
      }
      cs := Segment(newCs, d.Base());
      codeBig := d.Big();
      return Completed;
    }

    method DoEnterCode(newCs: word, newLdt: word) returns (r: Signal)
      modifies this
      ensures Result(r) == Transfers.EnterCode(old(View()), newCs, newLdt)
    {
      hide CheckedCode, Transfers.EnterCode, LoadLdt, V86, Rpl, RealSegment;
      EnterCodeParts(View(), newCs, newLdt);
      if V86(View()) {
        cs := RealSegment(newCs);
        codeBig := false;
        cpl := 3;
        return Completed;
      }
      if newLdt != 0 {
        DoLoadLdt(newLdt);
      }
      cpl := Rpl(newCs);
      r := DoCheckCode(newCs);
    }

    method DoEnterTask(c: Transfers.Context, sel: word) returns (r: Signal)
      modifies this
      ensures Result(r) == Transfers.EnterTask(Done(old(View())), c, sel)
    {
      hide SetSegGeneral, SetSelector, Bit;
      ghost var s := View();
      SetSegKeeps(View(), ES, c.es);
      r := DoSetSegGeneral(ES, c.es);
      if r.Exited? { return; }
      SetSegKeeps(View(), SS, c.ss);
      r := DoSetSegGeneral(SS, c.ss);
      if r.Exited? { return; }
      SetSegKeeps(View(), DS, c.ds);
      r := DoSetSegGeneral(DS, c.ds);
      if r.Exited? { return; }
      SetSegKeeps(View(), FS, c.fs);
      r := DoSetSegGeneral(FS, c.fs);
      if r.Exited? { return; }
      SetSegKeeps(View(), GS, c.gs);
      r := DoSetSegGeneral(GS, c.gs);
      if r.Exited? { return; }
      DoSetTask(sel);
    }

    method DoLoadGeneral(newGpr: General, newEsp: dword)
      modifies this`gpr, this`esp
      ensures View() == old(View()).(gpr := newGpr, esp := newEsp)
    {
      gpr := newGpr;
      esp := newEsp;
    }

    method DoLoadRegisters(c: Transfers.Context, same: bool, oldEip: dword)
      modifies this
      ensures View() == Transfers.LoadRegisters(old(View()), c, same, oldEip)
    {
      hide SetFlags;
      if same {
        eip := oldEip;
      } else {
        cr3 := c.cr3;
        eip := c.eip;
        DoSetFlags(c.eflags, 0x6_7fd5);
        DoLoadGeneral(c.gpr, c.esp);
      }
    }

    method SwitchTask(sel: word, how: Transfers.SwitchType, oldEip: dword) returns (r: Signal)
      modifies this
      ensures Result(r) == Transfers.SwitchTask(old(View()), sel, how, oldEip)
      ensures r.Completed? ==> RplIsCpl(View())
    {
      hide SetSelector, Transfers.LoadContext, Transfers.LeaveTask, Transfers.EnterCode, Transfers.EnterTask,
        Transfers.LoadRegisters, SetBit, Descriptor.Busy, RplIsCpl;
      SwitchTaskSetsRpl(View(), sel, how, oldEip);
      var (to, ok) := SetSelector(View(), NO_TASK, sel);
      if !ok || to.desc.Busy() != how.ByIret? || !to.is386 || !task.is386 {
        return Exited;
      }
      var c := Transfers.LoadContext(mem, to.base);
      if how.ByCall? {
        c := c.(eflags := SetBit(c.eflags, NT_BIT, true) % 0x1_0000_0000);
      }
      DoLeaveTask(to, how, oldEip);
      var same := sel == task.selector;
      if same {
        c := c.(cs := cs.val, ss := ss.val, ds := ds.val, es := es.val, fs := fs.val, gs := gs.val);
      }
      DoLoadRegisters(c, same, oldEip);
      CodeNeverRaises(View(), c.cs, c.ldt);
      NoTaskAfterExit(c, sel);
      r := DoEnterCode(c.cs, c.ldt);
      if r.Exited? {
        return;
      }
      r := DoEnterTask(c, sel);
    }

    method DoInterruptFrame(gate: Descriptor, kind: Transfers.Kind, oldEip: dword)
      modifies this`mem, this`esp
      ensures View() == Transfers.InterruptFrame(old(View()), gate, kind, oldEip)
    {
      hide Push, Transfers.PushFrame, Descriptor.Is386;
      ghost var s := View();
      PushesKeep(s, gate.Is386(), s.flags % 0x1_0000_0000, 0);
      PushKeepsError(s, gate.Is386(), s.flags % 0x1_0000_0000, oldEip);
      DoPush(gate.Is386(), flags % 0x1_0000_0000);
      DoPushFrame(gate.Is386(), oldEip);
      if kind.hasError {
        DoPush(gate.Is386(), error % 0x1_0000_0000);
      }
    }

    method DoEnterHandler(gate: Descriptor, code: Descriptor, kind: Transfers.Kind, oldEip: dword)
      modifies this
      ensures View() == Transfers.EnterHandler(old(View()), gate, code, kind, oldEip)
    {
      hide Transfers.InterruptFrame, LoadCode, SetBit, WithRpl, Descriptor.Type;
      DoInterruptFrame(gate, kind, oldEip);
      DoLoadCode(Segment(WithRpl(gate.Selector(), cpl), code.Base()), code.Big(), gate.Offset());
      if gate.Type() % 2 == 0 {
        flags := SetBit(flags, IF_BIT, false);
      }
      flags := SetBit(flags, TF_BIT, false);
      flags := SetBit(flags, NT_BIT, false);
      flags := SetBit(flags, VM_BIT, false);
    }

    method DoPushSegment(name: SegName)
      modifies this
      ensures View() == Transfers.PushSegment(old(View()), name)
    {
      hide Push32, PutSeg;
      DoPush(true, GetSeg(View(), name).val);
      PutSegment(name, RealSegment(0));
    }

    method DoPushV86Segments()
      modifies this
      ensures View() == Transfers.PushV86Segments(old(View()))
    {
      hide View, Transfers.PushSegment;
      DoPushSegment(GS);
      DoPushSegment(FS);
      DoPushSegment(DS);
      DoPushSegment(ES);
    }

    method DoInnerStack(gate: Descriptor, dpl: level) returns (r: Signal)
      modifies this
      ensures Result(r) == Transfers.InnerStack(old(View()), gate, dpl)
    {
      hide Lookup, TaskStack, Push, SwitchLevel, Transfers.PushV86Segments, Bit, Descriptor.Is386, Descriptor.Type;
      ghost var s := View();
      var oldSs, oldEsp := ss.val, esp;
      var (sel, newEsp) := TaskStack(View(), dpl);
      var d := Lookup(View(), sel);
      if !IsWritableData(d.Type()) {
        return Exited;
      }
      var wide := gate.Is386();
      var v86 := V86(View());
      if !wide && v86 {
        return Exited;
      }
      DoSwitchLevel(sel, d, newEsp, dpl);
      if wide && v86 {
        DoPushV86Segments();
      }
      DoPush(wide, oldSs);
      DoPush(wide, oldEsp);
      return Completed;
    }

    method RealInterrupt(num: nat, oldEip: dword)
      modifies this
      ensures View() == Transfers.RealInterrupt(old(View()), num, oldEip)
    {
      hide Push16, SetBit, ReadW, Transfers.PushFrame, LoadCode;
      LowTwice(flags);
      DoPush(false, flags % 0x1_0000);
      DoPushFrame(false, oldEip);
      flags := SetBit(flags, IF_BIT, false);
      flags := SetBit(flags, TF_BIT, false);
      DoLoadCode(RealSegment(ReadW(mem, idt.base + num * 4 + 2)), false, ReadW(mem, idt.base + num * 4));
    }

    method GateInterrupt(gate: Descriptor, kind: Transfers.Kind, oldEip: dword) returns (r: Signal)
      modifies this
      ensures Result(r) == Transfers.GateInterrupt(old(View()), gate, kind, oldEip)
    {
      hide Lookup, Transfers.InnerStack, Transfers.EnterHandler, Bit, Descriptor.Type, Descriptor.DPL;
      var code := Lookup(View(), gate.Selector());
      if IsNonConforming(code.Type()) {
        if code.DPL() < cpl {
          InnerStackParts(View(), gate, code.DPL());
          r := DoInnerStack(gate, code.DPL());
          if r.Exited? {
            return;
          }
          DoEnterHandler(gate, code, kind, oldEip);
          return Completed;
        }
        if code.DPL() != cpl {
          return Exited;
        }
      } else if !IsConforming(code.Type()) {
        return Exited;
      }
      if V86(View()) && code.DPL() < cpl {
        return Exited;
      }
      DoEnterHandler(gate, code, kind, oldEip);
      return Completed;
    }

    method TaskInterrupt(gate: Descriptor, kind: Transfers.Kind, oldEip: dword) returns (r: Signal)
      modifies this
      ensures Result(r) == Transfers.TaskInterrupt(old(View()), gate, kind, oldEip)
    {
      hide Transfers.SwitchTask, Push;
      r := SwitchTask(gate.Selector(), Transfers.ByCall, oldEip);
      if r.Completed? && kind.hasError {
        DoPush(task.is386, error % 0x1_0000_0000);
      }
    }

    method Interrupt(num: nat, kind: Transfers.Kind, oldEip: dword) returns (r: Signal)
      modifies this
      ensures Result(r) == Transfers.Interrupt(old(View()), num, kind, oldEip)
      ensures old(RplIsCpl(View())) && !r.Exited? ==> RplIsCpl(View())
    {
      hide Transfers.GateInterrupt, Transfers.TaskInterrupt, Transfers.RealInterrupt, Transfers.IdtGate, Bit, RplIsCpl,
        Descriptor.Type, Descriptor.DPL;
      if RplIsCpl(View()) {
        InterruptKeepsRpl(View(), num, kind, oldEip);
      }
      if !pmode {
        RealInterrupt(num, oldEip);
        return Completed;
      }
      if V86(View()) && kind.software && !kind.noIoplCheck && Iopl(flags) != 3 {
        return Raised(GP, 0);
      }
      if num * 8 >= idt.limit {
        return Raised(GP, 0);
      }
      var gate := Transfers.IdtGate(View(), num);
      if kind.software && gate.DPL() < cpl {
        return Raised(GP, num * 8 + 2);
      }
      var t := gate.Type();
      if t == 6 || t == 7 || t == 14 || t == 15 {
        r := GateInterrupt(gate, kind, oldEip);
      } else if t == TASK_GATE {
        r := TaskInterrupt(gate, kind, oldEip);
      } else {
        r := Exited;
      }
    }

    method RealIret(use32: bool)
      modifies this
      ensures View() == Transfers.RealIret(old(View()), use32)
    {
      hide View, Top, Popped, SetFlags, LoadCode;
      var newEip := DoPop(use32);
      var newCs := DoPop(use32);
      var newFlags := DoPop(use32);
      DoLoadCode(RealSegment(Low16(newCs)), false, newEip);
      DoSetFlags(newFlags, if use32 then FMASK_ALL else FMASK_ALL % 0x1_0000);
    }

    method V86Iret(use32: bool)
      modifies this
      ensures View() == Transfers.V86Iret(old(View()), use32)
    {
      hide View, Top, Popped, SetFlags, LoadCode;
      var newEip := DoPop(use32);
      var newCs := DoPop(use32);
      var newFlags := DoPop(use32);
      DoLoadCode(RealSegment(Low16(newCs)), false, newEip);
      DoSetFlags(newFlags, FMASK_NORMAL + FLAG_NT);
    }

    method DoV86Segments(newSs: word, newEs: word, newDs: word, newFs: word, newGs: word) returns (r: Signal)
      modifies this
      ensures Result(r) == Transfers.V86Segments(Done(old(View())), newSs, newEs, newDs, newFs, newGs)
      ensures !r.Raised?
    {
      hide SetSegGeneral, Bit;
      SetSegKeeps(View(), SS, newSs);
      r := DoSetSegGeneral(SS, newSs);
      if r.Exited? { return; }
      SetSegKeeps(View(), ES, newEs);
      r := DoSetSegGeneral(ES, newEs);
      if r.Exited? { return; }
      SetSegKeeps(View(), DS, newDs);
      r := DoSetSegGeneral(DS, newDs);
      if r.Exited? { return; }
      SetSegKeeps(View(), FS, newFs);
      r := DoSetSegGeneral(FS, newFs);
      if r.Exited? { return; }
      SetSegKeeps(View(), GS, newGs);
      r := DoSetSegGeneral(GS, newGs);
    }

    method IretToV86(newEip: dword, newCs: word, newFlags: dword) returns (r: Signal)
      modifies this
      ensures Result(r) == Transfers.IretToV86(old(View()), newEip, newCs, newFlags)
    {
      hide View, Top, Popped, Transfers.EnterV86, Transfers.V86Segments;
      DoSetEip(newEip % 0x1_0000);
      var newEsp := DoPop(true);
      var newSs := DoPop(true);
      var newEs := DoPop(true);
      var newDs := DoPop(true);
      var newFs := DoPop(true);
      var newGs := DoPop(true);
      DoEnterV86(newFlags);
      r := DoV86Segments(Low16(newSs), Low16(newEs), Low16(newDs), Low16(newFs), Low16(newGs));
      if r.Exited? { return; }
      DoFinishV86(newEsp, newCs);
    }

    method DoSetEip(newEip: dword)
      modifies this`eip
      ensures View() == old(View()).(eip := newEip)
    {
      eip := newEip;
    }

    method DoEnterV86(newFlags: dword)
      modifies this`flags, this`cpl
      ensures View() == Transfers.EnterV86(old(View()), newFlags)
    {
      hide SetFlags;
      DoSetFlags(newFlags, FMASK_ALL + FLAG_VM);
      cpl := 3;
    }

    method DoFinishV86(newEsp: dword, newCs: word)
      modifies this`esp, this`codeBig, this`cs
      ensures Done(View()) == Transfers.FinishV86(Done(old(View())), newEsp, newCs)
    {
      esp := newEsp;
      codeBig := false;
      cs := RealSegment(newCs);
    }

    method IretSameLevel(d: Descriptor, newCs: word, newEip: dword, newFlags: nat, newEsp: dword)
      modifies this
      ensures View() == Transfers.IretSameLevel(old(View()), d, newCs, newEip, newFlags, newEsp)
    {
      hide SetFlags, Transfers.IretMask, LoadCode, Descriptor.Base, Descriptor.Big;
      var mask := Transfers.IretMask(View());
      esp := newEsp;
      DoLoadCode(Segment(newCs, d.Base()), d.Big(), newEip);
      DoSetFlags(newFlags, mask);
    }

    method IretOuterLevel(use32: bool, d: Descriptor, newCs: word, newEip: dword, newFlags: nat, at: dword) returns (r: Signal)
      modifies this
      ensures Result(r) == Transfers.IretOuterLevel(old(View()), use32, d, newCs, newEip, newFlags, at)
    {
      hide View, SetFlags, Transfers.IretMask, Descriptor.Base, Descriptor.Big, Descriptor.Type, Peek, Moved, Lookup,
        CheckSegments, SwitchLevel, LoadCode;
      var newEsp := Peek(View(), use32, at);
      var newSs := Low16(Peek(View(), use32, Moved(View(), at, Width(use32))));
      var n := Lookup(View(), newSs);
      if !IsWritableData(n.Type()) {
        return Exited;
      }
      var mask := Transfers.IretMask(View());
      DoLoadCode(Segment(newCs, d.Base()), d.Big(), newEip);
      DoSetFlags(newFlags, mask);
      DoSwitchLevel(newSs, n, newEsp, Rpl(newCs));
      r := DoCheckSegments();
    }

    method Iret(use32: bool, oldEip: dword) returns (r: Signal)
      modifies this
      ensures Result(r) == Transfers.Iret(old(View()), use32, oldEip)
      ensures old(RplIsCpl(View())) && !r.Exited? ==> RplIsCpl(View())
    {
      hide Transfers.RealIret, Transfers.V86Iret, Transfers.IretToV86, Transfers.IretSameLevel, Transfers.IretOuterLevel,
        Transfers.SwitchTask, Bit, RplIsCpl, Peek, Top, Moved, Lookup, Descriptor.Type, ReadW;
      if RplIsCpl(View()) {
        IretKeepsRpl(View(), use32, oldEip);
      }
      if !pmode {
        RealIret(use32);
        return Completed;
      }
      if V86(View()) {
        if Iopl(flags) != 3 {
          return Raised(GP, 0);
        }
        V86Iret(use32);
        return Completed;
      }
      if Bit(flags, NT_BIT) {
        r := SwitchTask(ReadW(mem, task.base), Transfers.ByIret, oldEip);
        return;
      }
      var newEip := Top(View(), use32);
      var at := Moved(View(), esp, Width(use32));
      var newCs := Low16(Peek(View(), use32, at));
      at := Moved(View(), at, Width(use32));
      var newFlags: nat := Peek(View(), use32, at);
      at := Moved(View(), at, Width(use32));
      if use32 {
        if Bit(newFlags, VM_BIT) {
          if cpl != 0 {
            return Exited;
          }
          esp := at;
          r := IretToV86(newEip, newCs, newFlags);
          return;
        }
      } else {
        newFlags := newFlags + flags / 0x1_0000 * 0x1_0000;
      }
      var d := Lookup(View(), newCs);
      if !IsCode(d.Type()) {
        return Exited;
      }
      if Rpl(newCs) == cpl {
        IretSameLevel(d, newCs, newEip, newFlags, at);
        return Completed;
      }
      r := IretOuterLevel(use32, d, newCs, newEip, newFlags, at);
    }

    method Jmp(use32: bool, sel: word, offset: dword, oldEip: dword) returns (r: Signal)
      modifies this
      ensures Result(r) == Transfers.Jmp(old(View()), use32, sel, offset, oldEip)
      ensures old(RplIsCpl(View())) && !r.Exited? ==> RplIsCpl(View())
    {
      hide Transfers.SwitchTask, Lookup, Bit, RplIsCpl, WithRpl, Descriptor.Type, Descriptor.Present, Descriptor.Base, Descriptor.Big;
      if RplIsCpl(View()) {
        JmpKeepsRpl(View(), use32, sel, offset, oldEip);
      }
      if !pmode || V86(View()) {
        DoLoadCode(RealSegment(sel), false, Transfers.Narrow(use32, offset));
        return Completed;
      }
      var d := Lookup(View(), sel);
      if IsCode(d.Type()) {
        if !d.Present() {
          return Raised(NP, WithRpl(sel, 0));
        }
        DoLoadCode(Segment(WithRpl(sel, cpl), d.Base()), d.Big(), offset);
        return Completed;
      }
      if d.Type() != TSS_386_AVAILABLE {
        return Exited;
      }
      r := SwitchTask(sel, Transfers.ByJmp, oldEip);
    }

    method DoEnterGateCode(gate: Descriptor, code: Descriptor, use32: bool)
      modifies this`cs, this`codeBig, this`eip
      ensures View() == Transfers.EnterGateCode(old(View()), gate, code, use32)
    {
      hide WithRpl;
      DoLoadCode(Segment(WithRpl(gate.Selector(), cpl), code.Base()), code.Big(), gate.Offset());
      if !use32 {
        eip := Low16(eip);
      }
    }

    method DoCopyParams(from: int, k: nat, wide: bool)
      modifies this`mem, this`esp
      ensures View() == Transfers.CopyParams(old(View()), from, k, wide)
    {
      hide Push, Transfers.ParamAt;
      var i: nat := k;
      while i > 0
        invariant i <= k
        invariant Transfers.CopyParams(View(), from, i, wide) == Transfers.CopyParams(old(View()), from, k, wide)
      {
        i := i - 1;
        DoPush(wide, Transfers.ParamAt(View(), from, i, wide));
      }
    }

    method GateInner(gate: Descriptor, code: Descriptor, use32: bool, oldEip: dword) returns (r: Signal)
      modifies this
      ensures Result(r) == Transfers.GateInner(old(View()), gate, code, use32, oldEip)
    {
      hide Lookup, TaskStack, Push, SwitchLevel, Transfers.CopyParams, Transfers.EnterGateCode, StackAddress,
        Descriptor.Type, Descriptor.DPL, Descriptor.Params;
      var (sel, newEsp) := TaskStack(View(), code.DPL());
      var d := Lookup(View(), sel);
      if !IsWritableData(d.Type()) {
        return Exited;
      }
      var oldEsp, oldSs, oldCs, from := esp, ss.val, cs.val, StackAddress(View(), esp);
      var wide := gate.Type() == CALL_GATE_386;
      DoSwitchLevel(sel, d, newEsp, code.DPL());
      DoEnterGateCode(gate, code, use32);
      DoPush(wide, oldSs);
      DoPush(wide, oldEsp);
      DoCopyParams(from, gate.Params(), wide);
      DoPush(wide, oldCs);
      DoPush(wide, oldEip);
      return Completed;
    }

    method Call(use32: bool, sel: word, offset: dword, oldEip: dword) returns (r: Signal)
      modifies this
      ensures Result(r) == Transfers.Call(old(View()), use32, sel, offset, oldEip)
      ensures old(RplIsCpl(View())) && !r.Exited? ==> RplIsCpl(View())
    {
      hide Transfers.SwitchTask, Transfers.GateCall, Transfers.PushFrame, LoadCode, Lookup, Bit, RplIsCpl, WithRpl,
        Descriptor.Type, Descriptor.Present, Descriptor.Base, Descriptor.Big;
      if RplIsCpl(View()) {
        CallKeepsRpl(View(), use32, sel, offset, oldEip);
      }
      if !pmode || V86(View()) {
        DoPushFrame(use32, oldEip);
        DoLoadCode(RealSegment(sel), false, Transfers.Narrow(use32, offset));
        return Completed;
      }
      var d := Lookup(View(), sel);
      var t := d.Type();
      if IsCode(t) {
        if !d.Present() {
          return Raised(NP, WithRpl(sel, 0));
        }
        DoPushFrame(use32, oldEip);
        DoLoadCode(Segment(WithRpl(sel, cpl), d.Base()), d.Big(), Transfers.Narrow(use32, offset));
        return Completed;
      }
      if t == CALL_GATE_386 || t == CALL_GATE_286 {
        r := GateCall(d, use32, oldEip);
      } else if t == TSS_386_AVAILABLE {
        r := SwitchTask(sel, Transfers.ByCall, oldEip);
      } else if t == 0x12 || t == 0 {
        r := Raised(GP, WithRpl(sel, 0));
      } else {
        r := Exited;
      }
    }

    method GateCall(gate: Descriptor, use32: bool, oldEip: dword) returns (r: Signal)
      modifies this
      ensures Result(r) == Transfers.GateCall(old(View()), gate, use32, oldEip)
    {
      hide Transfers.GateInner, Transfers.EnterGateCode, Transfers.PushFrame, Lookup, Descriptor.Type, Descriptor.DPL;
      var code := Lookup(View(), gate.Selector());
      if IsNonConforming(code.Type()) {
        if code.DPL() < cpl {
          r := GateInner(gate, code, use32, oldEip);
          return;
        }
        if code.DPL() > cpl {
          return Exited;
        }
      } else if !IsConforming(code.Type()) {
        return Exited;
      }
      DoPushFrame(gate.Type() == CALL_GATE_386, oldEip);
      DoEnterGateCode(gate, code, use32);
      return Completed;
    }

    method RealRet(use32: bool, bytes: nat)
      modifies this
      ensures View() == Transfers.RealRet(old(View()), use32, bytes)
    {
      hide View, Top, Popped, Transfers.Advance, LoadCode;
      var newIp := DoPop(use32);
      var newCs := DoPop(use32);
      DoAdvance(bytes);
      DoLoadCode(RealSegment(Low16(newCs)), false, newIp);
    }

    method RetSameLevel(use32: bool, bytes: nat, d: Descriptor)
      modifies this
      ensures View() == Transfers.RetSameLevel(old(View()), use32, bytes, d)
    {
      hide View, Top, Popped, Transfers.DropParams, LoadCode;
      var offset := DoPop(use32);
      var selector := DoPop(use32);
      DoLoadCode(Segment(Low16(selector), d.Base()), d.Big(), offset);
      DoDropParams(bytes);
    }

    method RetOuterLevel(use32: bool, bytes: nat, rpl: level, d: Descriptor) returns (r: Signal)
      modifies this
      ensures Result(r) == Transfers.RetOuterLevel(old(View()), use32, bytes, rpl, d)
    {
      hide View, Top, Popped, Lookup, CheckSegments, Descriptor.Type, Descriptor.Base, Descriptor.Big, WithRpl,
        Transfers.Advance, LoadCode, SwitchLevel;
      var offset := DoPop(use32);
      var selector := DoPop(use32);
      DoAdvance(bytes);
      var newEsp := DoPop(use32);
      var newSs := DoPop(use32);
      var n := Lookup(View(), Low16(newSs));
      if !IsWritableData(n.Type()) {
        return Exited;
      }
      DoLoadCode(Segment(WithRpl(Low16(selector), rpl), d.Base()), d.Big(), offset);
      DoSwitchLevel(Low16(newSs), n, (newEsp + bytes) % 0x1_0000_0000, rpl);
      r := DoCheckSegments();
    }

    method Ret(use32: bool, bytes: nat) returns (r: Signal)
      modifies this
      ensures Result(r) == Transfers.Ret(old(View()), use32, bytes)
      ensures old(RplIsCpl(View()) && !WrapsBeforeSelector(View(), use32)) && !r.Exited? ==> RplIsCpl(View())
    {
      hide Transfers.RealRet, Transfers.RetSameLevel, Transfers.RetOuterLevel, Transfers.PeekedSelector, Lookup, Bit, RplIsCpl,
        WithRpl, Descriptor.Type, Descriptor.Present, WrapsBeforeSelector;
      if RplIsCpl(View()) && !WrapsBeforeSelector(View(), use32) {
        RetKeepsRpl(View(), use32, bytes);
      }
      if !pmode || V86(View()) {
        RealRet(use32, bytes);
        return Completed;
      }
      var sel := Transfers.PeekedSelector(View(), use32);
      if Rpl(sel) < cpl {
        return Raised(GP, WithRpl(sel, 0));
      }
      var d := Lookup(View(), sel);
      if !IsCode(d.Type()) {
        return Exited;
      }
      if Rpl(sel) == cpl {
        if !d.Present() {
          return Raised(NP, WithRpl(sel, 0));
        }
        RetSameLevel(use32, bytes, d);
        return Completed;
      }
      r := RetOuterLevel(use32, bytes, Rpl(sel), d);
    }
  }

  lemma AfterExit(name: SegName)
    ensures CheckSegment(Exit, name) == Exit
  {
  }

  lemma NoTaskAfterExit(c: Transfers.Context, sel: word)
    ensures Transfers.EnterTask(Exit, c, sel) == Exit
  {
  }

  lemma LowTwice(x: nat)
    ensures x % 0x1_0000 % 0x1_0000 == x % 0x1_0000
  {
  }

  lemma StoresOnly(s: Cpu, sel: word, d: Descriptor)
    ensures StoreDescriptor(s, sel, d) == s.(mem := StoreDescriptor(s, sel, d).mem)
  {
    hide WriteD;
  }

  /** Saving the context reads registers only. */
  lemma ContextOnly(m: Memory, s: Cpu, t: Cpu, base: dword, saved: dword, eip: dword)
    requires t == s.(mem := t.mem, task := t.task)
    ensures Transfers.SaveContext(m, s, base, saved, eip) == Transfers.SaveContext(m, t, base, saved, eip)
  {
    hide WriteD;
  }

  lemma CodeNeverRaises(s: Cpu, cs: word, ldt: word)
    ensures !Transfers.EnterCode(s, cs, ldt).Raise?
  {
    hide Lookup, InTable, Bit;
  }

  lemma PushKeepsError(s: Cpu, use32: bool, v: dword, eip: dword)
    ensures Transfers.PushFrame(Push(s, use32, v), use32, eip).error == s.error
  {
    hide WriteD, WriteW, Moved;
  }
}
