/**
 A task that calls another and is returned to by IRET: the link, the nested-task flag and the old
 task's segment that the call leaves, and what the return makes of them.
 */
module TaskReturns {
  import opened Bits
  import opened CpuState
  import opened FarTransfers
  import opened PrivilegeProofs
  import opened GateProofs
  import opened TaskProofs
  import opened Words

  // ----- which selectors a segment register takes

  /** What CPU_SetSegGeneral demands of a selector. */
  predicate Loadable(x: Cpu, name: SegName, v: word) {
    !x.pmode || V86(x)
    || (var d := Lookup(x, v);
        var t := d.Type();
        if name.SS? then
          NotRefused(x, v) && IsWritableData(t) && d.Present()
        else
          NullSelector(v)
          || (InTable(x, v) && d.Present()
              && (t == 0x1e || t == 0x1f
                  || ((0x10 <= t <= 0x17 || t == 0x1a || t == 0x1b) && Rpl(v) <= d.DPL() && x.cpl <= d.DPL()))))
  }

  /** A stack selector for which it does not end the emulator. */
  predicate NotRefused(x: Cpu, v: word) {
    !NullSelector(v) && InTable(x, v) && Rpl(v) == x.cpl && Lookup(x, v).DPL() == x.cpl
  }

  /** All that the demands depend on, and the TSS register. */
  ghost predicate SameTables(x: Cpu, y: Cpu) {
    && y.mem == x.mem && y.gdt == x.gdt && y.ldt == x.ldt && y.task == x.task
    && y.pmode == x.pmode && y.cpl == x.cpl && y.flags == x.flags
  }

  lemma LoadableSame(x: Cpu, y: Cpu, name: SegName, v: word)
    requires y.mem == x.mem && y.gdt == x.gdt && y.ldt == x.ldt && y.pmode == x.pmode && y.cpl == x.cpl && y.flags == x.flags
    ensures Loadable(y, name, v) == Loadable(x, name, v)
  {
    hide LoadDescriptor, Bit, Descriptor.Type, Descriptor.DPL, Descriptor.Present;
  }

  /** One register has the selector, if it takes it, and the others are as before. */
  ghost predicate Takes(x: Cpu, y: Cpu, name: SegName, v: word, taken: bool) {
    && SameTables(x, y) && GetSeg(y, name).val == (if taken then v else GetSeg(x, name).val)
    && forall n :: n != name ==> GetSeg(y, n).val == GetSeg(x, n).val
  }

  lemma RealTakes(x: Cpu, name: SegName, v: word)
    ensures Takes(x, SetReal(x, name, v), name, v, true)
  {
    match name
    case ES | SS | DS | FS | GS =>
  }

  lemma PutTakes(x: Cpu, name: SegName, v: Segment)
    ensures Takes(x, PutSeg(x, name, v), name, v.val, true) && Takes(x, FixFs(PutSeg(x, name, v)), name, v.val, true)
  {
    match name
    case ES | SS | DS | FS | GS =>
  }

  lemma DataTakes(x: Cpu, name: SegName, v: word)
    requires x.pmode && !V86(x) && !name.SS?
    ensures Takes(x, SetData(x, name, v), name, v, Loadable(x, name, v))
  {
    hide PutSeg, FixFs, Lookup, InTable, WithRpl, Rpl, Bit, Descriptor.Type, Descriptor.DPL, Descriptor.Present, Descriptor.Base;
    PutTakes(x, name, Segment(v, 0));
    PutTakes(x, name, Segment(v, Lookup(x, v).Base()));
  }

  lemma StackTakes(x: Cpu, v: word)
    requires x.pmode && !V86(x)
    ensures SetStack(x, v).Done? <==> NotRefused(x, v)
    ensures SetStack(x, v).Done? ==> Takes(x, SetStack(x, v).s, SS, v, Loadable(x, SS, v))
  {
    hide Lookup, InTable, WithRpl, Rpl, Bit, Descriptor.Type, Descriptor.DPL, Descriptor.Present, Descriptor.Base, Descriptor.Big;
  }

  lemma SegmentTakes(x: Cpu, name: SegName, v: word)
    ensures var o := SetSegGeneral(x, name, v);
            && (o.Done? <==> (x.pmode && !V86(x) && name.SS? ==> NotRefused(x, v)))
            && (o.Done? ==> Takes(x, o.s, name, v, Loadable(x, name, v)))
  {
    hide SetReal, SetData, SetStack, Takes, Bit, NotRefused, Lookup, InTable;
    if !x.pmode || V86(x) {
      RealTakes(x, name, v);
    } else if name.SS? {
      StackTakes(x, v);
    } else {
      DataTakes(x, name, v);
    }
  }

  // ----- the segment registers of a context

  function Selector(c: Context, name: SegName): word {
    match name case ES => c.es case SS => c.ss case DS => c.ds case FS => c.fs case GS => c.gs
  }

  ghost predicate AllTaken(x: Cpu, y: Cpu, c: Context) {
    forall name :: GetSeg(y, name).val == if Loadable(x, name, Selector(c, name)) then Selector(c, name) else GetSeg(x, name).val
  }

  /** The five registers are loaded one by one; only the stack selector can be refused. */
  lemma SegmentsTaken(x: Cpu, c: Context)
    ensures var o := AndSet(AndSet(AndSet(AndSet(AndSet(Done(x), ES, c.es), SS, c.ss), DS, c.ds), FS, c.fs), GS, c.gs);
            && (o.Done? <==> (x.pmode && !V86(x) ==> NotRefused(x, c.ss)))
            && (o.Done? ==> SameTables(x, o.s) && AllTaken(x, o.s, c))
  {
    hide SetSegGeneral, Loadable, NotRefused, Bit;
    SegmentTakes(x, ES, c.es);
    var x1 := SetSegGeneral(x, ES, c.es).s;
    SegmentTakes(x1, SS, c.ss);
    RefusedSame(x, x1, c.ss);
    LoadableSame(x, x1, SS, c.ss);
    if SetSegGeneral(x1, SS, c.ss).Done? {
      var x2 := SetSegGeneral(x1, SS, c.ss).s;
      SegmentTakes(x2, DS, c.ds);
      LoadableSame(x, x2, DS, c.ds);
      var x3 := SetSegGeneral(x2, DS, c.ds).s;
      SegmentTakes(x3, FS, c.fs);
      LoadableSame(x, x3, FS, c.fs);
      var x4 := SetSegGeneral(x3, FS, c.fs).s;
      SegmentTakes(x4, GS, c.gs);
      LoadableSame(x, x4, GS, c.gs);
    }
  }

  lemma RefusedSame(x: Cpu, y: Cpu, v: word)
    requires SameTables(x, y)
    ensures NotRefused(y, v) == NotRefused(x, v)
  {
    hide LoadDescriptor;
  }

  lemma TaskSame(x: Cpu, y: Cpu, sel: word)
    requires SameTables(x, y)
    ensures SetSelector(y, y.task, sel) == SetSelector(x, x.task, sel)
  {
    hide LoadDescriptor;
  }

  /** EnterTask as a whole. */
  lemma TaskEntered(x: Cpu, c: Context, sel: word)
    ensures var o := EnterTask(Done(x), c, sel);
            && (o.Done? <==> (x.pmode && !V86(x) ==> NotRefused(x, c.ss)))
            && (o.Done? ==> SameTables(x, o.s.(task := x.task)) && AllTaken(x, o.s, c) && o.s.task == SetSelector(x, x.task, sel).0)
  {
    hide AndSet, Loadable, NotRefused, Bit, SetSelector;
    SegmentsTaken(x, c);
    var o := AndSet(AndSet(AndSet(AndSet(AndSet(Done(x), ES, c.es), SS, c.ss), DS, c.ds), FS, c.fs), GS, c.gs);
    if o.Done? {
      TaskSame(x, o.s, sel);
    }
  }

  // ----- the code segment of a context

  /** The state EnterCode looks the code selector up in. */
  function AtLevel(t: Cpu, cs: word, ldt: word): Cpu {
    (if ldt != 0 then LoadLdt(t, ldt) else t).(cpl := Rpl(cs))
  }

  /** A context a switch can enter: its code selector is accepted and its stack selector not refused. */
  predicate Enterable(t: Cpu, c: Context) {
    V86(t)
    || (var x := AtLevel(t, c.cs, c.ldt);
        var d := Lookup(x, c.cs);
        && InTable(x, c.cs) && d.Present()
        && ((IsNonConforming(d.Type()) && x.cpl == d.DPL()) || (IsConforming(d.Type()) && x.cpl >= d.DPL()))
        && (t.pmode ==> NotRefused(x, c.ss)))
  }

  /** What EnterCode leaves alone. */
  ghost predicate CodeOnly(t: Cpu, y: Cpu) {
    && y.mem == t.mem && y.gdt == t.gdt && y.task == t.task && y.pmode == t.pmode && y.flags == t.flags
    && forall name :: GetSeg(y, name) == GetSeg(t, name)
  }

  /** CS holds what the selector in it names. */
  predicate CodeLoaded(v: Cpu) {
    if V86(v) then v.cs.phys == 16 * v.cs.val && !v.codeBig
    else v.cs.phys == Lookup(v, v.cs.val).Base() && v.codeBig == Lookup(v, v.cs.val).Big()
  }

  lemma CodeStaysLoaded(x: Cpu, v: Cpu)
    requires CodeLoaded(x) && v.mem == x.mem && v.gdt == x.gdt && v.ldt == x.ldt && Same(x, v)
    ensures CodeLoaded(v)
  {
    hide Bit, Descriptor.Base, Descriptor.Big, LoadDescriptor;
  }

  lemma CodeEntered(t: Cpu, cs: word, ldt: word)
    ensures var o := EnterCode(t, cs, ldt);
            o.Done? ==> CodeOnly(t, o.s) && CodeLoaded(o.s) && o.s.cs.val == cs && o.s.cpl == if V86(t) then 3 else Rpl(cs)
  {
    hide LoadDescriptor, Bit, LoadLdt, Rpl, Descriptor.Type, Descriptor.DPL, Descriptor.Present, Descriptor.Base, Descriptor.Big;
    LdtOnly(t, ldt);
  }

  lemma CodeEnteredIff(t: Cpu, cs: word, ldt: word)
    requires !V86(t)
    ensures var o, x := EnterCode(t, cs, ldt), AtLevel(t, cs, ldt);
            var d := Lookup(x, cs);
            && (o.Done? <==> InTable(x, cs) && d.Present()
                             && ((IsNonConforming(d.Type()) && x.cpl == d.DPL()) || (IsConforming(d.Type()) && x.cpl >= d.DPL())))
            && (o.Done? ==> SameTables(x, o.s))
  {
    hide Lookup, InTable, Bit, LoadLdt, Rpl, Descriptor.Type, Descriptor.DPL, Descriptor.Present, Descriptor.Base, Descriptor.Big;
  }

  /** The rest of a switch completes exactly for such contexts. */
  lemma EntersIff(t: Cpu, c: Context, sel: word)
    ensures EnterTask(EnterCode(t, c.cs, c.ldt), c, sel).Done? <==> Enterable(t, c)
  {
    hide EnterTask, EnterCode, NotRefused, AtLevel, Lookup, InTable, Bit, Descriptor.Type, Descriptor.DPL, Descriptor.Present;
    var o := EnterCode(t, c.cs, c.ldt);
    EnterTaskKeeps(o, c, sel);
    CodeEntered(t, c.cs, c.ldt);
    if V86(t) {
      V86Enters(t, c.cs, c.ldt);
    } else {
      CodeEnteredIff(t, c.cs, c.ldt);
      if o.Done? {
        RefusedSame(AtLevel(t, c.cs, c.ldt), o.s, c.ss);
      }
    }
    if o.Done? {
      TaskEntered(o.s, c, sel);
    }
  }

  lemma V86Enters(t: Cpu, cs: word, ldt: word)
    requires V86(t)
    ensures EnterCode(t, cs, ldt).Done?
  {
    hide Bit;
  }

  // ----- switches in parts

  lemma SwitchIsEntering(s: Cpu, sel: word, how: SwitchType, oldEip: dword)
    ensures var (to, ok), (t, c) := SetSelector(s, NO_TASK, sel), Loaded(s, sel, how, oldEip);
            SwitchTask(s, sel, how, oldEip)
            == if !ok || to.desc.Busy() != how.ByIret? || !to.is386 || !s.task.is386 then Exit
               else EnterTask(EnterCode(t, c.cs, c.ldt), c, sel)
  {
    hide EnterTask, EnterCode, LeaveTask, LoadRegisters, SetSelector, LoadContext, SetBit, Selectors, Descriptor.Busy;
  }

  lemma LeaveOnly(s: Cpu, to: Task, how: SwitchType, oldEip: dword)
    ensures var l := LeaveTask(s, to, how, oldEip); l == s.(mem := l.mem, task := l.task)
    ensures how.ByCall? ==> LeaveTask(s, to, how, oldEip).task == s.task
  {
    hide WriteD, SaveContext, SetBit, StoreDescriptor, Descriptor.SetBusy;
    var d := s.task.desc.SetBusy(false);
    var s1 := if how.ByCall? then s else StoreDescriptor(s.(task := s.task.(desc := d)), s.task.selector, d);
    StoreOnly(s.(task := s.task.(desc := d)), s.task.selector, d);
    var flags := if how.ByIret? then SetBit(s.flags, NT_BIT, false) else s.flags;
    var s2 := s1.(mem := SaveContext(s1.mem, s, s.task.base, flags % 0x1_0000_0000, oldEip));
    var s3 := if how.ByCall? then s2.(mem := WriteD(s2.mem, to.base, s.task.selector)) else s2;
    StoreOnly(s3, to.selector, to.desc.SetBusy(true));
  }

  lemma StoreOnly(s: Cpu, sel: word, d: Descriptor)
    ensures StoreDescriptor(s, sel, d) == s.(mem := StoreDescriptor(s, sel, d).mem)
  {
    hide WriteD;
  }

  /** The registers of a context as loaded into a state that is being left. */
  lemma RegistersLoaded(l: Cpu, c: Context, oldEip: dword)
    ensures var t := LoadRegisters(l, c, false, oldEip);
            && t.mem == l.mem && t.gdt == l.gdt && t.ldt == l.ldt && t.task == l.task && t.pmode == l.pmode
            && t.gpr == c.gpr && t.esp == c.esp && t.eip == c.eip
            && t.flags == SetFlags(l, c.eflags, 0x6_7fd5).flags
            && forall name :: GetSeg(t, name) == GetSeg(l, name)
  {
    hide Select, SetBit;
  }

  // ----- the memory of the call

  /** A double word at b is apart from one at a. */
  predicate Far(a: int, b: int) { 4 <= (b - a) % 0x1_0000_0000 <= 0x1_0000_0000 - 4 }

  lemma BeyondIsFar(base: dword, a: int, o: nat)
    requires Beyond(base, a) && o <= 96
    ensures Far(base + o, a)
  {
    var d := (a - base) % 0x1_0000_0000;
    assert (a - (base + o)) % 0x1_0000_0000 == d - o by {
      assert a - (base + o) == (a - base) / 0x1_0000_0000 * 0x1_0000_0000 + (d - o);
    }
  }

  lemma BesideField(m: Memory, base: dword, o: nat, v: dword, a: int)
    requires Beyond(base, a) && o <= 96
    ensures ReadD(WriteD(m, base + o, v), a) == ReadD(m, a)
  {
    hide ReadD, WriteD, Beyond;
    BeyondIsFar(base, a, o);
    FarDword(m, base + o, v, a);
  }

  /** Saving a context touches nothing beyond the segment. */
  lemma BesideContext(m: Memory, s: Cpu, base: dword, flags: dword, eip: dword, a: int)
    requires Beyond(base, a)
    ensures ReadD(SaveContext(m, s, base, flags, eip), a) == ReadD(m, a)
  {
    hide ReadD, WriteD, Beyond;
    var a1 := WriteD(m, base + 36, flags);
    BesideField(m, base, 36, flags, a);
    var a2 := WriteD(a1, base + 32, eip);
    BesideField(a1, base, 32, eip, a);
    var b1 := WriteD(a2, base + 40, s.gpr.eax);
    BesideField(a2, base, 40, s.gpr.eax, a);
    var b2 := WriteD(b1, base + 44, s.gpr.ecx);
    BesideField(b1, base, 44, s.gpr.ecx, a);
    var b3 := WriteD(b2, base + 48, s.gpr.edx);
    BesideField(b2, base, 48, s.gpr.edx, a);
    var b4 := WriteD(b3, base + 52, s.gpr.ebx);
    BesideField(b3, base, 52, s.gpr.ebx, a);
    var c1 := WriteD(b4, base + 56, s.esp);
    BesideField(b4, base, 56, s.esp, a);
    var c2 := WriteD(c1, base + 60, s.gpr.ebp);
    BesideField(c1, base, 60, s.gpr.ebp, a);
    var c3 := WriteD(c2, base + 64, s.gpr.esi);
    BesideField(c2, base, 64, s.gpr.esi, a);
    var c4 := WriteD(c3, base + 68, s.gpr.edi);
    BesideField(c3, base, 68, s.gpr.edi, a);
    var d1 := WriteD(c4, base + 72, s.es.val);
    BesideField(c4, base, 72, s.es.val, a);
    var d2 := WriteD(d1, base + 76, s.cs.val);
    BesideField(d1, base, 76, s.cs.val, a);
    var d3 := WriteD(d2, base + 80, s.ss.val);
    BesideField(d2, base, 80, s.ss.val, a);
    var e1 := WriteD(d3, base + 84, s.ds.val);
    BesideField(d3, base, 84, s.ds.val, a);
    var e2 := WriteD(e1, base + 88, s.fs.val);
    BesideField(e1, base, 88, s.fs.val, a);
    BesideField(e2, base, 92, s.gs.val, a);
  }

  /** A stored descriptor is found again; other double words are untouched. */
  lemma StoredDescriptor(s: Cpu, sel: word, d: Descriptor)
    requires InTable(s, sel)
    ensures Lookup(StoreDescriptor(s, sel, d), sel) == d
  {
    hide ReadD, WriteD;
    var e := EntryAddress(s, sel);
    var m1 := WriteD(s.mem, e, d.lo);
    WrittenD(s.mem, e, d.lo);
    WrittenD(m1, e + 4, d.hi);
    FarDword(m1, e + 4, d.hi, e);
  }

  lemma BesideDescriptor(s: Cpu, sel: word, d: Descriptor, a: int)
    requires Far(EntryAddress(s, sel), a) && Far(EntryAddress(s, sel) + 4, a)
    ensures ReadD(StoreDescriptor(s, sel, d).mem, a) == ReadD(s.mem, a)
  {
    hide ReadD, WriteD, EntryAddress;
    var e := EntryAddress(s, sel);
    FarDword(s.mem, e, d.lo, a);
    FarDword(WriteD(s.mem, e, d.lo), e + 4, d.hi, a);
  }

  /** Entries of different index in one table are apart. */
  lemma EntriesApart(s: Cpu, x: word, y: word)
    requires x / 8 != y / 8 && x / 4 % 2 == y / 4 % 2
    ensures var a, b := EntryAddress(s, x), EntryAddress(s, y);
            Far(a, b) && Far(a + 4, b) && Far(a, b + 4) && Far(a + 4, b + 4)
  {
    var d := EntryAddress(s, y) - EntryAddress(s, x);
    assert d == 8 * (y / 8 - x / 8);
    SmallDistance(d);
    SmallDistance(d - 4);
    SmallDistance(d + 4);
  }

  lemma SmallDistance(d: int)
    requires 4 <= d < 0x1_0004 || -0x1_0004 < d <= -4
    ensures 4 <= d % 0x1_0000_0000 <= 0x1_0000_0000 - 4
  {
  }

  // ----- what the call leaves

  /** TR holds what the descriptor table says about the running, busy 386 task. */
  predicate TaskCached(s: Cpu) {
    var sel := s.task.selector;
    var d := Lookup(s, sel);
    && !NullSelector(sel) && sel / 4 % 2 == 0 && InTable(s, sel)
    && d.Type() == 11 && d.Present() && d.Base() == s.task.base && s.task.is386
  }

  /** The two segments and the two descriptors lie apart in memory. */
  predicate SwitchApart(s: Cpu, sel: word) {
    var to, entry := SetSelector(s, NO_TASK, sel).0, EntryAddress(s, s.task.selector);
    && LinkApart(s, to) && Far(EntryAddress(s, sel), to.base) && Far(EntryAddress(s, sel) + 4, to.base)
    && Beyond(s.task.base, entry) && Beyond(s.task.base, entry + 4)
    && Beyond(to.base, entry) && Beyond(to.base, entry + 4)
  }

  lemma SelectorOk(s: Cpu, t: Task, sel: word)
    requires !NullSelector(sel) && SetSelector(s, t, sel).1
    ensures sel / 4 % 2 == 0 && InTable(s, sel)
    ensures var d := Lookup(s, sel);
            SetSelector(s, t, sel).0 == Task(d, sel, d.Base(), d.Limit(), d.Is386(), true)
            && (d.Type() == 1 || d.Type() == 3 || d.Type() == 9 || d.Type() == 11) && d.Present()
  {
    hide Lookup, Descriptor.Type, Descriptor.Present, Descriptor.Base, Descriptor.Limit;
  }

  lemma BusyTypes(d: Descriptor)
    requires !d.Busy() && d.Is386() && (d.Type() == 1 || d.Type() == 3 || d.Type() == 9 || d.Type() == 11)
    ensures var b := d.SetBusy(true);
            b.Type() == 11 && b.Base() == d.Base() && b.Limit() == d.Limit() && b.Present() == d.Present()
  {
    BusyWord(d.hi);
  }

  lemma BusyWord(hi: dword)
    requires hi / 0x100 % 0x20 == 9
    ensures var b := hi + 0x200;
            && hi / 0x200 % 2 == 0 && b / 0x100 % 0x20 == 11 && b / 0x8000 == hi / 0x8000 && b % 0x100 == hi % 0x100
            && b / 0x1_0000 == hi / 0x1_0000 && b / 0x80_0000 == hi / 0x80_0000 && b / 0x100_0000 == hi / 0x100_0000
  {
    var y, r := hi / 0x2000, hi % 0x100;
    assert hi == 0x2000 * y + 0x900 + r by {
      assert hi / 0x100 == 0x20 * (hi / 0x100 / 0x20) + 9 && hi / 0x100 / 0x20 == y;
    }
    assert hi / 0x200 == 0x10 * y + 4;
    assert (hi + 0x200) / 0x100 == 0x20 * y + 11;
    Coarse(y, 0x900 + r);
    Coarse(y, 0xb00 + r);
  }

  /** The bits from 13 up. */
  lemma Coarse(y: nat, w: nat)
    requires w < 0x2000
    ensures var x := 0x2000 * y + w;
            x / 0x8000 == y / 4 && x / 0x1_0000 == y / 8 && x / 0x80_0000 == y / 0x400 && x / 0x100_0000 == y / 0x800
  {
    var x := 0x2000 * y + w;
    assert x == 0x8000 * (y / 4) + (0x2000 * (y % 4) + w);
    assert x == 0x1_0000 * (y / 8) + (0x2000 * (y % 8) + w);
    assert x == 0x80_0000 * (y / 0x400) + (0x2000 * (y % 0x400) + w);
    assert x == 0x100_0000 * (y / 0x800) + (0x2000 * (y % 0x800) + w);
  }

  /** A call or jump that completes goes to another, available, task. */
  lemma CallGoesElsewhere(s: Cpu, sel: word, how: SwitchType, oldEip: dword)
    requires !how.ByIret? && SwitchTask(s, sel, how, oldEip).Done? && !NullSelector(sel) && TaskCached(s)
    ensures var (to, ok) := SetSelector(s, NO_TASK, sel);
            && ok && to.is386 && s.task.is386 && sel / 8 != s.task.selector / 8 && sel / 4 % 2 == 0 && InTable(s, sel)
            && to.selector == sel && to.desc.SetBusy(true).Type() == 11 && to.desc.SetBusy(true).Present()
            && to.desc.SetBusy(true).Base() == to.base
  {
    hide EnterTask, EnterCode, LeaveTask, LoadRegisters, SetSelector, LoadContext, SetBit, Selectors, Lookup,
      Descriptor.Type, Descriptor.Present, Descriptor.Base, Descriptor.Limit, Descriptor.SetBusy;
    SwitchIsEntering(s, sel, how, oldEip);
    SelectorOk(s, NO_TASK, sel);
    BusyTypes(Lookup(s, sel));
    if sel / 8 == s.task.selector / 8 {
      SameIndex(s, sel, s.task.selector);
    }
  }

  lemma SameIndex(s: Cpu, x: word, y: word)
    requires x / 8 == y / 8 && x / 4 % 2 == y / 4 % 2
    ensures Lookup(s, x) == Lookup(s, y)
  {
    hide LoadDescriptor;
  }

  /** The memory of the state that is left by a call: the link, the new task's descriptor, the old task's descriptor. */
  lemma LeftByCall(s: Cpu, sel: word, oldEip: dword)
    requires var (to, ok) := SetSelector(s, NO_TASK, sel);
             to.selector == sel && InTable(s, sel) && sel / 8 != s.task.selector / 8 && sel / 4 % 2 == 0
    requires TaskCached(s) && SwitchApart(s, sel)
    ensures var to := SetSelector(s, NO_TASK, sel).0;
            var l := LeaveTask(s, to, ByCall, oldEip);
            && ReadW(l.mem, to.base) == s.task.selector && Lookup(l, sel) == to.desc.SetBusy(true)
            && Lookup(l, s.task.selector) == Lookup(s, s.task.selector)
  {
    hide SetSelector, SaveContext, StoreDescriptor, EntryAddress, WriteD, ReadD, ReadW, Far, Beyond, Descriptor.SetBusy,
      Descriptor.Type, Descriptor.Present, Descriptor.Base;
    var to, prev := SetSelector(s, NO_TASK, sel).0, s.task.selector;
    var e, f := EntryAddress(s, sel), EntryAddress(s, prev);
    var s2 := s.(mem := SaveContext(s.mem, s, s.task.base, s.flags % 0x1_0000_0000, oldEip));
    var s3 := s2.(mem := WriteD(s2.mem, to.base, prev));
    var d := to.desc.SetBusy(true);
    SameEntry(s, s3, sel);
    SameEntry(s, s3, prev);
    // the link
    WrittenD(s2.mem, to.base, prev);
    BesideDescriptor(s3, sel, d, to.base);
    LowWord(StoreDescriptor(s3, sel, d).mem, to.base);
    // the new descriptor
    StoredDescriptor(s3, sel, d);
    // the old descriptor
    EntriesApart(s, sel, prev);
    OldDwordStays(s, s2, s3, to, sel, d, oldEip, f);
    OldDwordStays(s, s2, s3, to, sel, d, oldEip, f + 4);
    StoreOnly(s3, sel, d);
    LookupIs(s, StoreDescriptor(s3, sel, d), prev);
  }

  lemma OldDwordStays(s: Cpu, s2: Cpu, s3: Cpu, to: Task, sel: word, d: Descriptor, oldEip: dword, a: int)
    requires s2 == s.(mem := SaveContext(s.mem, s, s.task.base, s.flags % 0x1_0000_0000, oldEip))
    requires s3 == s2.(mem := WriteD(s2.mem, to.base, s.task.selector))
    requires Beyond(s.task.base, a) && Beyond(to.base, a) && Far(EntryAddress(s, sel), a) && Far(EntryAddress(s, sel) + 4, a)
    ensures ReadD(StoreDescriptor(s3, sel, d).mem, a) == ReadD(s.mem, a)
  {
    hide SaveContext, StoreDescriptor, EntryAddress, WriteD, ReadD, Far, Beyond;
    BesideContext(s.mem, s, s.task.base, s.flags % 0x1_0000_0000, oldEip, a);
    BesideField(s2.mem, to.base, 0, s.task.selector, a);
    SameEntry(s, s3, sel);
    BesideDescriptor(s3, sel, d, a);
  }

  /** A descriptor is the same where its two double words are. */
  lemma LookupIs(s: Cpu, t: Cpu, sel: word)
    requires t.gdt == s.gdt && t.ldt == s.ldt
    requires ReadD(t.mem, EntryAddress(s, sel)) == ReadD(s.mem, EntryAddress(s, sel))
    requires ReadD(t.mem, EntryAddress(s, sel) + 4) == ReadD(s.mem, EntryAddress(s, sel) + 4)
    ensures Lookup(t, sel) == Lookup(s, sel)
  {
    hide ReadD;
  }

  /** The lookup of a GDT selector depends on the table and memory only. */
  lemma GdtLookup(s: Cpu, t: Cpu, sel: word)
    requires t.gdt == s.gdt && t.mem == s.mem && sel / 4 % 2 == 0
    ensures Lookup(t, sel) == Lookup(s, sel) && InTable(t, sel) == InTable(s, sel)
  {
    hide LoadDescriptor;
  }

  lemma TaskRegister(t: Cpu, r: Task, sel: word, d: Descriptor)
    requires !NullSelector(sel) && sel / 4 % 2 == 0 && InTable(t, sel) && Lookup(t, sel) == d && d.Type() == 11 && d.Present()
    ensures SetSelector(t, r, sel) == (Task(d, sel, d.Base(), d.Limit(), true, true), true) && d.Is386() && d.Busy()
  {
    hide Lookup, Descriptor.Present, Descriptor.Base, Descriptor.Limit;
  }

  /** What a completed call leaves for the return: the link to the old task, the nested-task flag and the old task's segment. */
  ghost predicate LinksBack(s: Cpu, c: Cpu, oldEip: dword) {
    && ReadW(c.mem, c.task.base) == s.task.selector && Bit(c.flags, NT_BIT)
    && ContextOf(c, s.task.base) == LeftBehind(s, oldEip)
    && c.gdt == s.gdt && Lookup(c, s.task.selector) == Lookup(s, s.task.selector)
  }

  lemma CallSwitchLinks(s: Cpu, sel: word, oldEip: dword)
    requires SwitchTask(s, sel, ByCall, oldEip).Done? && !NullSelector(sel) && TaskCached(s) && SwitchApart(s, sel)
    ensures var c := SwitchTask(s, sel, ByCall, oldEip).s;
            && LinksBack(s, c, oldEip) && TaskCached(c) && c.pmode == s.pmode
            && c.task.selector == sel && c.task.base == SetSelector(s, NO_TASK, sel).0.base
  {
    hide SwitchTask, EnterTask, EnterCode, LeaveTask, LoadRegisters, SetSelector, LoadContext, SetBit, Selectors, Lookup, Bit,
      SwitchApart, LeftBehind, ReadW, InTable, Descriptor.Type, Descriptor.Present, Descriptor.Base, Descriptor.SetBusy;
    CallGoesElsewhere(s, sel, ByCall, oldEip);
    LeftByCall(s, sel, oldEip);
    SwitchIsEntering(s, sel, ByCall, oldEip);
    ApartImplies(s, sel);
    CallSwitchSaves(s, sel, oldEip);
    var to := SetSelector(s, NO_TASK, sel).0;
    LeaveOnly(s, to, ByCall, oldEip);
    var l := LeaveTask(s, to, ByCall, oldEip);
    var (t, k) := Loaded(s, sel, ByCall, oldEip);
    LoadedByCall(s, sel, oldEip);
    CodeEntered(t, k.cs, k.ldt);
    EnterTaskKeeps(EnterCode(t, k.cs, k.ldt), k, sel);
    var x := EnterCode(t, k.cs, k.ldt).s;
    TaskEntered(x, k, sel);
    var c := SwitchTask(s, sel, ByCall, oldEip).s;
    GdtLookup(l, x, sel);
    GdtLookup(l, c, sel);
    GdtLookup(l, c, s.task.selector);
    InGdt(s, x, sel);
    InGdt(s, c, sel);
    TaskRegister(x, x.task, sel, to.desc.SetBusy(true));
  }

  lemma InGdt(s: Cpu, t: Cpu, sel: word)
    requires t.gdt == s.gdt && sel / 4 % 2 == 0
    ensures InTable(t, sel) == InTable(s, sel)
  {
  }

  lemma ApartImplies(s: Cpu, sel: word)
    requires SwitchApart(s, sel)
    ensures TasksApart(s, sel)
  {
    hide SetSelector, EntryAddress, Far, Beyond;
  }

  lemma NestedFlag(l: Cpu, w: nat)
    ensures Bit(SetFlags(l, SetBit(w, NT_BIT, true) % 0x1_0000_0000, 0x6_7fd5).flags, NT_BIT)
  {
    hide Bit, SetBit, SetFlags;
    var f := SetBit(w, NT_BIT, true);
    SetBitBits(w, NT_BIT, true, NT_BIT);
    BitFourteen(f);
    BitFourteen(f % 0x1_0000_0000);
    BitFourteen(0x6_7fd5);
    FlagsRestored(l, f % 0x1_0000_0000, 0x6_7fd5, NT_BIT);
    SameFourteen(f);
  }

  lemma SameFourteen(f: nat)
    ensures f % 0x1_0000_0000 / 0x4000 % 2 == f / 0x4000 % 2
  {
    var q, r := f / 0x1_0000_0000, f % 0x1_0000_0000;
    assert f == 0x4000 * (0x4_0000 * q + r / 0x4000) + r % 0x4000;
    assert f / 0x4000 == 0x4_0000 * q + r / 0x4000;
  }

  lemma BitFourteen(x: nat)
    ensures Bit(x, NT_BIT) <==> x / 0x4000 % 2 == 1
  {
    hide Bit;
    BitFromTop(x, 10);
    BitFromTop(x / 16, 6);
    BitFromTop(x / 16 / 16, 2);
    ThirdBit(x / 16 / 16 / 16);
    DividedTwice(x);
  }

  lemma DividedTwice(x: nat)
    ensures x / 16 / 16 / 16 / 4 == x / 0x4000
  {
    var q, r := x / 0x4000, x % 0x4000;
    assert x / 16 == 0x400 * q + r / 16;
    assert x / 16 / 16 == 0x40 * q + r / 16 / 16;
    assert x / 16 / 16 / 16 == 4 * q + r / 16 / 16 / 16;
  }

  lemma ThirdBit(y: nat)
    ensures Bit(y, 2) == (y / 4 % 2 == 1)
  {
    assert Bit(y, 2) == Bit(y / 2, 1) == Bit(y / 2 / 2, 0);
  }

  /** The state a call enters its new context in. */
  lemma LoadedByCall(s: Cpu, sel: word, oldEip: dword)
    requires sel != s.task.selector
    ensures var (t, c) := Loaded(s, sel, ByCall, oldEip);
            var l := LeaveTask(s, SetSelector(s, NO_TASK, sel).0, ByCall, oldEip);
            t.mem == l.mem && t.gdt == s.gdt && t.pmode == s.pmode && t.task == s.task && Bit(t.flags, NT_BIT)
  {
    hide LeaveTask, LoadRegisters, SetSelector, LoadContext, SetBit, SetFlags, Bit;
    var to := SetSelector(s, NO_TASK, sel).0;
    LeaveOnly(s, to, ByCall, oldEip);
    var loaded, l := LoadContext(s.mem, to.base), LeaveTask(s, to, ByCall, oldEip);
    var c := loaded.(eflags := SetBit(loaded.eflags, NT_BIT, true) % 0x1_0000_0000);
    RegistersLoaded(l, c, oldEip);
    NestedFlag(l, loaded.eflags);
  }

  // ----- the return

  /** A nested task about to execute IRET: link, flag, and the old task's segment and descriptor are as the call left them. */
  ghost predicate StillLinked(c: Cpu, u: Cpu, s: Cpu) {
    && u.pmode && !V86(u) && Bit(u.flags, NT_BIT) && u.task == c.task && u.gdt == c.gdt
    && ReadW(u.mem, u.task.base) == ReadW(c.mem, c.task.base)
    && ContextOf(u, s.task.base) == ContextOf(c, s.task.base)
    && Lookup(u, s.task.selector) == Lookup(c, s.task.selector)
  }

  lemma IretIsSwitch(u: Cpu, use32: bool, eip: dword)
    requires u.pmode && !V86(u) && Bit(u.flags, NT_BIT)
    ensures Iret(u, use32, eip) == SwitchTask(u, ReadW(u.mem, u.task.base), ByIret, eip)
  {
    hide SwitchTask, Bit;
  }

  /** Leaving by IRET touches the nested task's segment and descriptor only. */
  lemma LeftByIret(u: Cpu, to: Task, back: word, eip: dword)
    requires back / 8 != u.task.selector / 8 && back / 4 % 2 == u.task.selector / 4 % 2
    requires Beyond(u.task.base, EntryAddress(u, back)) && Beyond(u.task.base, EntryAddress(u, back) + 4)
    ensures Lookup(LeaveTask(u, to, ByIret, eip), back) == Lookup(u, back)
  {
    hide SaveContext, StoreDescriptor, EntryAddress, WriteD, ReadD, Far, Beyond, SetBit, Descriptor.SetBusy;
    var d, f := u.task.desc.SetBusy(false), EntryAddress(u, back);
    var u1 := u.(task := u.task.(desc := d));
    SameEntry(u, u1, u.task.selector);
    EntriesApart(u, u.task.selector, back);
    BesideDescriptor(u1, u.task.selector, d, f);
    BesideDescriptor(u1, u.task.selector, d, f + 4);
    StoreOnly(u1, u.task.selector, d);
    var m := StoreDescriptor(u1, u.task.selector, d).mem;
    var flags := SetBit(u.flags, NT_BIT, false) % 0x1_0000_0000;
    BesideContext(m, u, u.task.base, flags, eip, f);
    BesideContext(m, u, u.task.base, flags, eip, f + 4);
    LookupIs(u, LeaveTask(u, to, ByIret, eip), back);
  }

  /** A task resumed with everything the switch saved; the flags are those the switch may load. */
  ghost predicate TaskResumed(s: Cpu, u: Cpu, v: Cpu, oldEip: dword) {
    && v.gpr == s.gpr && v.esp == s.esp && v.eip == oldEip && v.cs.val == s.cs.val
    && v.cpl == (if V86(s) then 3 else Rpl(s.cs.val)) && CodeLoaded(v)
    && (forall k: nat :: k != 1 && Bit(0x6_7fd5, k) ==> Bit(v.flags, k) == Bit(s.flags, k))
    && (forall name :: GetSeg(v, name).val
                       == if Loadable(v, name, GetSeg(s, name).val) then GetSeg(s, name).val else GetSeg(u, name).val)
    && v.task.selector == s.task.selector && TaskCached(v)
  }

  /** The state in which a return or a jump enters the new context. */
  lemma LoadedPlainly(u: Cpu, back: word, how: SwitchType, eip: dword)
    requires !how.ByCall? && back != u.task.selector
    ensures var (t, c) := Loaded(u, back, how, eip);
            var to := SetSelector(u, NO_TASK, back).0;
            var l := LeaveTask(u, to, how, eip);
            && c == LoadContext(u.mem, to.base)
            && t.mem == l.mem && t.gdt == u.gdt && t.ldt == u.ldt && t.pmode == u.pmode && t.task == l.task
            && t.gpr == c.gpr && t.esp == c.esp && t.eip == c.eip
            && (forall k: nat :: k != 1 && Bit(0x6_7fd5, k) ==> Bit(t.flags, k) == Bit(c.eflags, k))
            && forall name :: GetSeg(t, name) == GetSeg(u, name)
  {
    hide LeaveTask, LoadRegisters, SetSelector, LoadContext, SetBit, SetFlags, Select, Bit;
    var to := SetSelector(u, NO_TASK, back).0;
    LeaveOnly(u, to, how, eip);
    LeaveKeepsTask(u, to, how, eip);
    var c, l := LoadContext(u.mem, to.base), LeaveTask(u, to, how, eip);
    RegistersLoaded(l, c, eip);
    forall k: nat | k != 1 && Bit(0x6_7fd5, k)
      ensures Bit(SetFlags(l, c.eflags, 0x6_7fd5).flags, k) == Bit(c.eflags, k)
    {
      FlagsRestored(l, c.eflags, 0x6_7fd5, k);
    }
  }

  lemma VmIsLoaded()
    ensures Bit(0x6_7fd5, VM_BIT) && VM_BIT != 1
  {
    hide Bit;
    BitSeventeen(0x6_7fd5);
  }

  lemma AllTakenFrom(x: Cpu, v: Cpu, c: Context)
    requires AllTaken(x, v, c) && SameTables(x, v.(task := x.task))
    ensures forall name :: GetSeg(v, name).val == if Loadable(v, name, Selector(c, name)) then Selector(c, name) else GetSeg(x, name).val
  {
    hide Loadable;
    forall name
      ensures Loadable(v, name, Selector(c, name)) == Loadable(x, name, Selector(c, name))
    {
      LoadableSame(x, v, name, Selector(c, name));
    }
  }

  /** The entering of a loaded context, register by register. */
  lemma EntersAs(u: Cpu, t: Cpu, c: Context, sel: word)
    requires EnterTask(EnterCode(t, c.cs, c.ldt), c, sel).Done? && forall name :: GetSeg(t, name) == GetSeg(u, name)
    ensures var v := EnterTask(EnterCode(t, c.cs, c.ldt), c, sel).s;
            && v.mem == t.mem && v.gdt == t.gdt && v.pmode == t.pmode && v.flags == t.flags
            && v.gpr == t.gpr && v.esp == t.esp && v.eip == t.eip
            && v.cs.val == c.cs && v.cpl == (if V86(t) then 3 else Rpl(c.cs)) && CodeLoaded(v)
            && (forall name :: GetSeg(v, name).val
                               == if Loadable(v, name, Selector(c, name)) then Selector(c, name) else GetSeg(u, name).val)
            && (!NullSelector(sel) && SetSelector(t, NO_TASK, sel).1 ==> v.task == SetSelector(t, NO_TASK, sel).0)
  {
    hide EnterTask, EnterCode, Bit, SetSelector, Loadable, NotRefused, Rpl, CodeLoaded;
    var o := EnterCode(t, c.cs, c.ldt);
    EnterTaskKeeps(o, c, sel);
    EnterTaskData(o, c, sel);
    CodeEntered(t, c.cs, c.ldt);
    EnterCodeData(t, c.cs, c.ldt);
    TaskEntered(o.s, c, sel);
    AllTakenFrom(o.s, EnterTask(o, c, sel).s, c);
    CodeStaysLoaded(o.s, EnterTask(o, c, sel).s);
    if !NullSelector(sel) && SetSelector(t, NO_TASK, sel).1 {
      RegisterSame(t, o.s, o.s.task, sel);
    }
  }

  lemma RegisterSame(t: Cpu, x: Cpu, r: Task, sel: word)
    requires x.mem == t.mem && x.gdt == t.gdt && !NullSelector(sel) && SetSelector(t, NO_TASK, sel).1
    ensures SetSelector(x, r, sel) == SetSelector(t, NO_TASK, sel)
  {
    hide Lookup, InTable, Descriptor.Type, Descriptor.Present, Descriptor.Base, Descriptor.Limit, Descriptor.Is386;
    SelectorOk(t, NO_TASK, sel);
    GdtLookup(t, x, sel);
  }

  lemma SavedSelectors(m: Memory, s: Cpu, base: dword, flags: dword, eip: dword)
    ensures forall name :: Selector(Saved(m, s, base, flags, eip), name) == GetSeg(s, name).val
  {
    hide ReadD, ReadW;
  }

  /** From a state in which the old task can be switched back to. */
  lemma ReturnResumes(s: Cpu, u: Cpu, oldEip: dword, eip: dword)
    requires TaskCached(s) && u.gdt == s.gdt && Lookup(u, s.task.selector) == Lookup(s, s.task.selector)
    requires u.task.is386 && s.task.selector / 8 != u.task.selector / 8 && u.task.selector / 4 % 2 == 0
    requires var f := EntryAddress(s, s.task.selector); Beyond(u.task.base, f) && Beyond(u.task.base, f + 4)
    requires ContextOf(u, s.task.base) == LeftBehind(s, oldEip) && s.flags < 0x1_0000_0000
    ensures var back, o := s.task.selector, SwitchTask(u, s.task.selector, ByIret, eip);
            && (o.Done? <==> Enterable(Loaded(u, back, ByIret, eip).0, LeftBehind(s, oldEip)))
            && (o.Done? ==> TaskResumed(s, u, o.s, oldEip))
  {
    hide SwitchTask, EnterTask, EnterCode, LeaveTask, SetSelector, LoadContext, Lookup, Bit, Loadable, Beyond, Enterable,
      EntryAddress, InTable, Loaded, Saved, Rpl, Descriptor.Type, Descriptor.Present, Descriptor.Base, Descriptor.Limit,
      Descriptor.Busy, Descriptor.Is386;
    var back, c := s.task.selector, LeftBehind(s, oldEip);
    var d := Lookup(s, back);
    InGdt(s, u, back);
    SameGdtEntry(s, u, back);
    TaskRegister(u, NO_TASK, back, d);
    SwitchIsEntering(u, back, ByIret, eip);
    LoadedPlainly(u, back, ByIret, eip);
    var to := SetSelector(u, NO_TASK, back).0;
    var t := Loaded(u, back, ByIret, eip).0;
    EntersIff(t, c, back);
    var o := SwitchTask(u, back, ByIret, eip);
    if o.Done? {
      EntersAs(u, t, c, back);
      SavedSelectors(s.mem, s, s.task.base, s.flags % 0x1_0000_0000, oldEip);
      SavedFields(s.mem, s, s.task.base, s.flags % 0x1_0000_0000, oldEip);
      VmIsLoaded();
      LeftByIret(u, to, back, eip);
      LeaveOnly(u, to, ByIret, eip);
      var l := LeaveTask(u, to, ByIret, eip);
      GdtLookup(l, t, back);
      GdtLookup(l, o.s, back);
      InGdt(s, t, back);
      InGdt(s, o.s, back);
      TaskRegister(t, NO_TASK, back, d);
    }
  }

  lemma SavedFields(m: Memory, s: Cpu, base: dword, flags: dword, eip: dword)
    ensures var c := Saved(m, s, base, flags, eip);
            c.gpr == s.gpr && c.esp == s.esp && c.eip == eip && c.cs == s.cs.val && c.eflags == flags
  {
    hide ReadD, ReadW;
  }

  lemma SameGdtEntry(s: Cpu, t: Cpu, sel: word)
    requires t.gdt == s.gdt && sel / 4 % 2 == 0
    ensures EntryAddress(t, sel) == EntryAddress(s, sel)
  {
  }

  /**
   The round trip: a task calls another; whatever runs then keeps the link, the nested-task flag and
   the old task's segment and descriptor. The IRET completes exactly when the saved code selector is
   accepted and the saved stack selector not refused, and then resumes the task: its registers, its
   address, its level, its flags, every segment selector that can still be loaded, and its TR.
   */
  lemma TaskRoundTrip(s: Cpu, sel: word, oldEip: dword, u: Cpu, use32: bool, eip: dword)
    requires SwitchTask(s, sel, ByCall, oldEip).Done? && !NullSelector(sel) && TaskCached(s) && SwitchApart(s, sel)
    requires StillLinked(SwitchTask(s, sel, ByCall, oldEip).s, u, s) && s.flags < 0x1_0000_0000
    ensures var o := Iret(u, use32, eip);
            && (o.Done? <==> Enterable(Loaded(u, s.task.selector, ByIret, eip).0, LeftBehind(s, oldEip)))
            && (o.Done? ==> TaskResumed(s, u, o.s, oldEip))
  {
    hide SwitchTask, Iret, Lookup, Bit, V86, ContextOf, LeftBehind, SwitchApart, ReadW, Enterable, Loaded, TaskResumed, SetSelector,
      EntryAddress, InTable, Descriptor.Type, Descriptor.Present, Descriptor.Base;
    CallSwitchLinks(s, sel, oldEip);
    CallGoesElsewhere(s, sel, ByCall, oldEip);
    NestedApart(s, sel);
    IretIsSwitch(u, use32, eip);
    ReturnResumes(s, u, oldEip, eip);
  }

  lemma NestedApart(s: Cpu, sel: word)
    requires SwitchApart(s, sel)
    ensures var to, f := SetSelector(s, NO_TASK, sel).0, EntryAddress(s, s.task.selector); Beyond(to.base, f) && Beyond(to.base, f + 4)
  {
    hide SetSelector, EntryAddress, Far, Beyond;
  }
}
