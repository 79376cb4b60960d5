/** A task switch saves the outgoing task so that switching back to it resumes it. */
module TaskProofs {
  import opened Bits
  import opened CpuState
  import opened FarTransfers
  import opened PrivilegeProofs
  import opened GateProofs
  import opened Words

  // ----- fields of a task state segment

  function Field(m: Memory, base: int, o: int): dword { ReadD(m, base + o) }

  /** Writing one field leaves the others. */
  lemma FieldWritten(m: Memory, base: int, o: int, v: dword)
    ensures var m' := WriteD(m, base + o, v);
            && Field(m', base, o) == v
            && forall p :: 0 <= p <= 100 && 0 <= o <= 100 && (p >= o + 4 || o >= p + 4) ==> Field(m', base, p) == Field(m, base, p)
  {
    hide ReadD, WriteD;
    WrittenD(m, base + o, v);
    forall p | 0 <= p <= 100 && 0 <= o <= 100 && (p >= o + 4 || o >= p + 4)
      ensures Field(WriteD(m, base + o, v), base, p) == Field(m, base, p)
    {
      FarDword(m, base + o, v, base + p);
    }
  }

  lemma WordOfField(m: Memory, base: int, o: int, v: word)
    requires Field(m, base, o) == v
    ensures ReadW(m, base + o) == v
  {
  }

  lemma SavedGeneral(m: Memory, s: Cpu, base: dword, flags: dword, eip: dword)
    ensures var m' := SaveContext(m, s, base, flags, eip);
            && Field(m', base, 32) == eip && Field(m', base, 36) == flags
            && Field(m', base, 40) == s.gpr.eax && Field(m', base, 44) == s.gpr.ecx
            && Field(m', base, 48) == s.gpr.edx && Field(m', base, 52) == s.gpr.ebx
            && Field(m', base, 56) == s.esp && Field(m', base, 60) == s.gpr.ebp
            && Field(m', base, 64) == s.gpr.esi && Field(m', base, 68) == s.gpr.edi
            && Field(m', base, 72) == s.es.val && Field(m', base, 76) == s.cs.val && Field(m', base, 80) == s.ss.val
            && Field(m', base, 84) == s.ds.val && Field(m', base, 88) == s.fs.val && Field(m', base, 92) == s.gs.val
            && Field(m', base, 28) == Field(m, base, 28) && Field(m', base, 96) == Field(m, base, 96)
  {
    hide Field, WriteD;
    var a1 := WriteD(m, base + 36, flags);
    FieldWritten(m, base, 36, flags);
    var a2 := WriteD(a1, base + 32, eip);
    FieldWritten(a1, base, 32, eip);
    var b1 := WriteD(a2, base + 40, s.gpr.eax);
    FieldWritten(a2, base, 40, s.gpr.eax);
    var b2 := WriteD(b1, base + 44, s.gpr.ecx);
    FieldWritten(b1, base, 44, s.gpr.ecx);
    var b3 := WriteD(b2, base + 48, s.gpr.edx);
    FieldWritten(b2, base, 48, s.gpr.edx);
    var b4 := WriteD(b3, base + 52, s.gpr.ebx);
    FieldWritten(b3, base, 52, s.gpr.ebx);
    var c1 := WriteD(b4, base + 56, s.esp);
    FieldWritten(b4, base, 56, s.esp);
    var c2 := WriteD(c1, base + 60, s.gpr.ebp);
    FieldWritten(c1, base, 60, s.gpr.ebp);
    var c3 := WriteD(c2, base + 64, s.gpr.esi);
    FieldWritten(c2, base, 64, s.gpr.esi);
    var c4 := WriteD(c3, base + 68, s.gpr.edi);
    FieldWritten(c3, base, 68, s.gpr.edi);
    var d1 := WriteD(c4, base + 72, s.es.val);
    FieldWritten(c4, base, 72, s.es.val);
    var d2 := WriteD(d1, base + 76, s.cs.val);
    FieldWritten(d1, base, 76, s.cs.val);
    var d3 := WriteD(d2, base + 80, s.ss.val);
    FieldWritten(d2, base, 80, s.ss.val);
    var e1 := WriteD(d3, base + 84, s.ds.val);
    FieldWritten(d3, base, 84, s.ds.val);
    var e2 := WriteD(e1, base + 88, s.fs.val);
    FieldWritten(e1, base, 88, s.fs.val);
    FieldWritten(e2, base, 92, s.gs.val);
  }

  /** The context a task was left in, read back from its segment. */
  function Saved(m: Memory, s: Cpu, base: dword, flags: dword, eip: dword): Context {
    Context(eip, flags, s.gpr, s.esp, ReadD(m, base + 28),
            s.es.val, s.cs.val, s.ss.val, s.ds.val, s.fs.val, s.gs.val, ReadW(m, base + 96))
  }

  /** Loading undoes saving, field by field. */
  lemma SaveThenLoad(m: Memory, s: Cpu, base: dword, flags: dword, eip: dword)
    ensures LoadContext(SaveContext(m, s, base, flags, eip), base) == Saved(m, s, base, flags, eip)
  {
    hide SaveContext, ReadD, ReadW;
    SavedGeneral(m, s, base, flags, eip);
    var m' := SaveContext(m, s, base, flags, eip);
    WordOfField(m', base, 72, s.es.val);
    WordOfField(m', base, 76, s.cs.val);
    WordOfField(m', base, 80, s.ss.val);
    WordOfField(m', base, 84, s.ds.val);
    WordOfField(m', base, 88, s.fs.val);
    WordOfField(m', base, 92, s.gs.val);
    SameWord(m, m', base + 96);
  }

  lemma SameWord(m: Memory, m': Memory, a: int)
    requires ReadD(m', a) == ReadD(m, a)
    ensures ReadW(m', a) == ReadW(m, a)
  {
    hide ReadW;
    LowWord(m, a);
    LowWord(m', a);
  }

  lemma LowWord(m: Memory, a: int)
    ensures ReadW(m, a) == ReadD(m, a) % 0x1_0000
  {
    hide ReadW;
  }

  // ----- what else a switch writes

  /** The 100 bytes from a base are untouched by a double word written at a. */
  predicate Beyond(base: dword, a: int) {
    100 <= (a - base) % 0x1_0000_0000 <= 0x1_0000_0000 - 4
  }

  lemma BeyondField(m: Memory, base: dword, a: int, v: dword, o: int)
    requires Beyond(base, a) && 0 <= o <= 96
    ensures Field(WriteD(m, a, v), base, o) == Field(m, base, o)
  {
    hide WriteD, ReadD;
    var d := (a - base) % 0x1_0000_0000;
    assert (base + o - a) % 0x1_0000_0000 == 0x1_0000_0000 + o - d by {
      assert base + o - a == (0 - (a - base) / 0x1_0000_0000 - 1) * 0x1_0000_0000 + (0x1_0000_0000 + o - d);
    }
    FarDword(m, a, v, base + o);
  }

  lemma SameFieldWord(m: Memory, m': Memory, base: dword, o: int)
    requires Field(m', base, o) == Field(m, base, o)
    ensures ReadW(m', base + o) == ReadW(m, base + o)
  {
    SameWord(m, m', base + o);
  }

  lemma SameContext(m: Memory, m': Memory, base: dword)
    requires forall o :: 0 <= o <= 96 ==> Field(m', base, o) == Field(m, base, o)
    ensures LoadContext(m', base) == LoadContext(m, base)
  {
    hide ReadD, ReadW;
    assert Field(m', base, 28) == Field(m, base, 28) && Field(m', base, 32) == Field(m, base, 32);
    assert Field(m', base, 36) == Field(m, base, 36) && Field(m', base, 40) == Field(m, base, 40);
    assert Field(m', base, 44) == Field(m, base, 44) && Field(m', base, 48) == Field(m, base, 48);
    assert Field(m', base, 52) == Field(m, base, 52) && Field(m', base, 56) == Field(m, base, 56);
    assert Field(m', base, 60) == Field(m, base, 60) && Field(m', base, 64) == Field(m, base, 64);
    assert Field(m', base, 68) == Field(m, base, 68);
    SameFieldWord(m, m', base, 72);
    SameFieldWord(m, m', base, 76);
    SameFieldWord(m, m', base, 80);
    SameFieldWord(m, m', base, 84);
    SameFieldWord(m, m', base, 88);
    SameFieldWord(m, m', base, 92);
    SameFieldWord(m, m', base, 96);
  }

  lemma WriteBeyond(m: Memory, base: dword, a: int, v: dword)
    requires Beyond(base, a)
    ensures LoadContext(WriteD(m, a, v), base) == LoadContext(m, base)
  {
    hide WriteD, Field;
    forall o | 0 <= o <= 96
      ensures Field(WriteD(m, a, v), base, o) == Field(m, base, o)
    {
      BeyondField(m, base, a, v, o);
    }
    SameContext(m, WriteD(m, a, v), base);
  }

  /** The new task's link and descriptor lie outside the old task's segment. */
  predicate LinkApart(s: Cpu, to: Task) {
    && Beyond(s.task.base, to.base)
    && Beyond(s.task.base, EntryAddress(s, to.selector)) && Beyond(s.task.base, EntryAddress(s, to.selector) + 4)
  }

  predicate TasksApart(s: Cpu, sel: word) {
    LinkApart(s, SetSelector(s, NO_TASK, sel).0)
  }

  /** What a task's segment should hold once it is left at an address. */
  function LeftBehind(s: Cpu, oldEip: dword): Context {
    Saved(s.mem, s, s.task.base, s.flags % 0x1_0000_0000, oldEip)
  }

  function ContextOf(s: Cpu, base: dword): Context { LoadContext(s.mem, base) }

  lemma StoreBeyond(s: Cpu, sel: word, d: Descriptor, base: dword)
    requires Beyond(base, EntryAddress(s, sel)) && Beyond(base, EntryAddress(s, sel) + 4)
    ensures LoadContext(StoreDescriptor(s, sel, d).mem, base) == LoadContext(s.mem, base)
  {
    hide LoadContext, WriteD, Beyond;
    WriteBeyond(s.mem, base, EntryAddress(s, sel), d.lo);
    WriteBeyond(WriteD(s.mem, EntryAddress(s, sel), d.lo), base, EntryAddress(s, sel) + 4, d.hi);
  }

  lemma LeavingSaves(s: Cpu, to: Task, oldEip: dword)
    requires LinkApart(s, to)
    ensures ContextOf(LeaveTask(s, to, ByCall, oldEip), s.task.base) == LeftBehind(s, oldEip)
  {
    hide LoadContext, SaveContext, Saved, WriteD, Beyond, StoreDescriptor, EntryAddress;
    var m := SaveContext(s.mem, s, s.task.base, s.flags % 0x1_0000_0000, oldEip);
    SaveThenLoad(s.mem, s, s.task.base, s.flags % 0x1_0000_0000, oldEip);
    WriteBeyond(m, s.task.base, to.base, s.task.selector);
    var s3 := s.(mem := WriteD(m, to.base, s.task.selector));
    SameEntry(s, s3, to.selector);
    StoreBeyond(s3, to.selector, to.desc.SetBusy(true), s.task.base);
  }

  lemma SameEntry(s: Cpu, t: Cpu, sel: word)
    requires s.gdt == t.gdt && s.ldt == t.ldt
    ensures EntryAddress(s, sel) == EntryAddress(t, sel)
  {
  }

  // ----- loading segments touches neither memory nor the general registers

  ghost predicate SameData(s: Cpu, t: Cpu) {
    t.mem == s.mem && t.gpr == s.gpr && t.esp == s.esp && t.eip == s.eip && t.flags == s.flags
  }

  lemma SetRealData(s: Cpu, name: SegName, v: word)
    ensures SameData(s, SetReal(s, name, v))
  {
    match name
    case ES | SS | DS | FS | GS =>
  }

  lemma PutData(s: Cpu, name: SegName, v: Segment)
    ensures SameData(s, PutSeg(s, name, v)) && SameData(s, FixFs(PutSeg(s, name, v)))
  {
  }

  lemma SetDataData(s: Cpu, name: SegName, v: word)
    ensures SameData(s, SetData(s, name, v))
  {
    hide PutSeg, FixFs, Lookup, InTable, WithRpl, Rpl, Descriptor.Type, Descriptor.DPL, Descriptor.Present, Descriptor.Base;
    PutData(s, name, Segment(v, 0));
    PutData(s, name, Segment(v, Lookup(s, v).Base()));
  }

  lemma SetStackData(s: Cpu, v: word)
    ensures SetStack(s, v).Done? ==> SameData(s, SetStack(s, v).s)
  {
    hide Lookup, InTable, WithRpl, Rpl, Descriptor.Type, Descriptor.DPL, Descriptor.Present, Descriptor.Base, Descriptor.Big;
  }

  lemma SetSegData(o: Outcome, name: SegName, v: word)
    ensures AndSet(o, name, v).Done? ==> o.Done? && SameData(o.s, AndSet(o, name, v).s)
  {
    hide SetData, SetReal, SetStack, Bit;
    if o.Done? {
      SetRealData(o.s, name, v);
      SetDataData(o.s, name, v);
      SetStackData(o.s, v);
    }
  }

  lemma EnterTaskData(o: Outcome, c: Context, sel: word)
    ensures EnterTask(o, c, sel).Done? ==> o.Done? && SameData(o.s, EnterTask(o, c, sel).s)
  {
    hide AndSet, SetSelector;
    var o1 := AndSet(o, ES, c.es);
    var o2 := AndSet(o1, SS, c.ss);
    var o3 := AndSet(o2, DS, c.ds);
    var o4 := AndSet(o3, FS, c.fs);
    SetSegData(o, ES, c.es);
    SetSegData(o1, SS, c.ss);
    SetSegData(o2, DS, c.ds);
    SetSegData(o3, FS, c.fs);
    SetSegData(o4, GS, c.gs);
  }

  lemma LdtOnly(t: Cpu, ldt: word)
    ensures var x := LoadLdt(t, ldt); x == t.(ldt := x.ldt, ldtValue := x.ldtValue, which := x.which, error := x.error)
  {
    hide Lookup, InTable, Descriptor.Type, Descriptor.Present, Descriptor.Base, Descriptor.Limit;
  }

  lemma EnterCodeData(s: Cpu, cs: word, ldt: word)
    ensures EnterCode(s, cs, ldt).Done? ==> SameData(s, EnterCode(s, cs, ldt).s) && EnterCode(s, cs, ldt).s.cs.val == cs
  {
    hide Lookup, InTable, Bit, LoadLdt, Rpl, Descriptor.Type, Descriptor.DPL, Descriptor.Present, Descriptor.Base, Descriptor.Big;
    LdtOnly(s, ldt);
  }

  lemma EnterTaskCode(o: Outcome, c: Context, sel: word)
    ensures EnterTask(o, c, sel).Done? ==> o.Done? && Same(o.s, EnterTask(o, c, sel).s)
  {
    EnterTaskKeeps(o, c, sel);
  }

  /** The state right before a switch loads segments. */
  function Loaded(s: Cpu, sel: word, how: SwitchType, oldEip: dword): (Cpu, Context) {
    var to := SetSelector(s, NO_TASK, sel).0;
    var loaded := LoadContext(s.mem, to.base);
    var c0 := if how.ByCall? then loaded.(eflags := SetBit(loaded.eflags, NT_BIT, true) % 0x1_0000_0000) else loaded;
    var left := LeaveTask(s, to, how, oldEip);
    var same := sel == left.task.selector;
    var c := Selectors(left, c0, same);
    (LoadRegisters(left, c, same, oldEip), c)
  }

  lemma SwitchKeepsData(s: Cpu, sel: word, how: SwitchType, oldEip: dword)
    ensures var o := SwitchTask(s, sel, how, oldEip);
            o.Done? ==> SameData(Loaded(s, sel, how, oldEip).0, o.s) && o.s.cs.val == Loaded(s, sel, how, oldEip).1.cs
  {
    hide EnterTask, EnterCode, LeaveTask, LoadRegisters, SetSelector, LoadContext, SetBit, Selectors, Bit;
    var (t, c) := Loaded(s, sel, how, oldEip);
    var o := EnterCode(t, c.cs, c.ldt);
    EnterCodeData(t, c.cs, c.ldt);
    EnterTaskData(o, c, sel);
    EnterTaskCode(o, c, sel);
  }

  lemma RegistersOnly(s: Cpu, c: Context, same: bool, oldEip: dword)
    ensures LoadRegisters(s, c, same, oldEip).mem == s.mem
    ensures !same ==> var t := LoadRegisters(s, c, same, oldEip);
                      t.gpr == c.gpr && t.esp == c.esp && t.eip == c.eip
                      && t.flags == SetFlags(s, c.eflags, 0x6_7fd5).flags
  {
    hide Select, SetBit;
  }

  lemma LeaveKeepsTask(s: Cpu, to: Task, how: SwitchType, oldEip: dword)
    ensures LeaveTask(s, to, how, oldEip).task.selector == s.task.selector
  {
    hide WriteD, SaveContext, SetBit, StoreDescriptor, Descriptor.SetBusy;
    var d := s.task.desc.SetBusy(false);
    var s1 := if how.ByCall? then s else StoreDescriptor(s.(task := s.task.(desc := d)), s.task.selector, d);
    StoreKeepsTask(s.(task := s.task.(desc := d)), s.task.selector, d);
    var flags := if how.ByIret? then SetBit(s.flags, NT_BIT, false) else s.flags;
    var s2 := s1.(mem := SaveContext(s1.mem, s, s.task.base, flags % 0x1_0000_0000, oldEip));
    var s3 := if how.ByCall? then s2.(mem := WriteD(s2.mem, to.base, s.task.selector)) else s2;
    StoreKeepsTask(s3, to.selector, to.desc.SetBusy(true));
  }

  lemma StoreKeepsTask(s: Cpu, sel: word, d: Descriptor)
    ensures StoreDescriptor(s, sel, d).task == s.task
  {
    hide WriteD;
  }

  /** After a switch by CALL the old task's segment holds its registers and the address to resume at. */
  lemma CallSwitchSaves(s: Cpu, sel: word, oldEip: dword)
    requires SwitchTask(s, sel, ByCall, oldEip).Done? && TasksApart(s, sel)
    ensures ContextOf(SwitchTask(s, sel, ByCall, oldEip).s, s.task.base) == LeftBehind(s, oldEip)
  {
    hide SwitchTask, LeaveTask, LoadRegisters, SetSelector, LoadContext, SetBit, Selectors, LeftBehind, LinkApart;
    var to := SetSelector(s, NO_TASK, sel).0;
    SwitchKeepsData(s, sel, ByCall, oldEip);
    LeavingSaves(s, to, oldEip);
    var loaded := LoadContext(s.mem, to.base);
    var c0 := loaded.(eflags := SetBit(loaded.eflags, NT_BIT, true) % 0x1_0000_0000);
    var left := LeaveTask(s, to, ByCall, oldEip);
    var same := sel == left.task.selector;
    RegistersOnly(left, Selectors(left, c0, same), same, oldEip);
  }
}
