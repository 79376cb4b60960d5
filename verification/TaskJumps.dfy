/**
 Task switches that free the task they leave: the jump, which can be jumped back from, and the return of a
 nested task.
 */
module TaskJumps {
  import opened Bits
  import opened CpuState
  import opened FarTransfers
  import opened PrivilegeProofs
  import opened GateProofs
  import opened TaskProofs
  import opened TaskReturns
  import IretFrames
  import opened Words

  // ----- the descriptor that is freed

  /** TR holds the running task, and its descriptor as the table has it. */
  predicate TaskHeld(s: Cpu) { TaskCached(s) && s.task.desc == Lookup(s, s.task.selector) }

  /** The same task, available instead of busy. */
  predicate IsFreed(d: Descriptor, e: Descriptor) {
    && d.Type() == 11 && e.Type() == 9
    && e.Base() == d.Base() && e.Limit() == d.Limit() && e.DPL() == d.DPL() && e.Present() == d.Present()
  }

  lemma Frees(d: Descriptor)
    requires d.Type() == 11
    ensures IsFreed(d, d.SetBusy(false))
  {
    FreedWord(d.hi);
  }

  lemma FreedWord(hi: dword)
    requires hi / 0x100 % 0x20 == 11
    ensures var b := hi - 0x200;
            && b >= 0 && hi / 0x200 % 2 == 1 && b / 0x100 % 0x20 == 9 && b / 0x2000 == hi / 0x2000 && b / 0x8000 == hi / 0x8000
            && b % 0x100 == hi % 0x100
            && b / 0x1_0000 == hi / 0x1_0000 && b / 0x80_0000 == hi / 0x80_0000 && b / 0x100_0000 == hi / 0x100_0000
  {
    var y, r := hi / 0x2000, hi % 0x100;
    assert hi == 0x2000 * y + 0xb00 + r by {
      assert hi / 0x100 == 0x20 * (hi / 0x100 / 0x20) + 11 && hi / 0x100 / 0x20 == y;
    }
    assert hi / 0x200 == 0x10 * y + 5;
    assert (hi - 0x200) / 0x100 == 0x20 * y + 9;
    Coarse(y, 0x900 + r);
    Coarse(y, 0xb00 + r);
  }

  // ----- leaving

  /** The task's own descriptor lies outside its segment. */
  predicate OwnEntryApart(s: Cpu) {
    var f := EntryAddress(s, s.task.selector);
    Beyond(s.task.base, f) && Beyond(s.task.base, f + 4)
  }

  /** Another task's descriptor does too, and is another one. */
  predicate OtherEntryApart(s: Cpu, sel: word) {
    var e := EntryAddress(s, sel);
    && sel / 8 != s.task.selector / 8 && sel / 4 % 2 == 0 && InTable(s, sel)
    && Beyond(s.task.base, e) && Beyond(s.task.base, e + 4)
  }

  /** The state whose registers are saved: a return clears NT first. */
  function Outgoing(s: Cpu, how: SwitchType): Cpu { if how.ByIret? then s.(flags := SetBit(s.flags, NT_BIT, false)) else s }

  /** Memory after the old task's descriptor is freed and its context saved. */
  function Saving(s: Cpu, how: SwitchType, oldEip: dword): Cpu {
    var d := s.task.desc.SetBusy(false);
    var t := StoreDescriptor(s.(task := s.task.(desc := d)), s.task.selector, d);
    t.(mem := SaveContext(t.mem, s, s.task.base, Outgoing(s, how).flags % 0x1_0000_0000, oldEip))
  }

  lemma LeaveIsSaving(s: Cpu, to: Task, how: SwitchType, oldEip: dword)
    requires !how.ByCall?
    ensures LeaveTask(s, to, how, oldEip)
            == if how.ByIret? then Saving(s, how, oldEip) else StoreDescriptor(Saving(s, how, oldEip), to.selector, to.desc.SetBusy(true))
  {
    hide SaveContext, StoreDescriptor, SetBit, Descriptor.SetBusy;
    StoreOnly(s.(task := s.task.(desc := s.task.desc.SetBusy(false))), s.task.selector, s.task.desc.SetBusy(false));
  }

  lemma SavingFrees(s: Cpu, how: SwitchType, oldEip: dword)
    requires TaskHeld(s) && OwnEntryApart(s)
    ensures var t := Saving(s, how, oldEip);
            && IsFreed(Lookup(s, s.task.selector), Lookup(t, s.task.selector)) && t.gdt == s.gdt && t.ldt == s.ldt
            && ContextOf(t, s.task.base) == LeftBehind(Outgoing(s, how), oldEip)
  {
    hide SaveContext, StoreDescriptor, EntryAddress, LoadContext, ReadD, ReadW, Beyond, SetBit, IsFreed, Descriptor.SetBusy,
      Descriptor.Type, Descriptor.Present, Descriptor.Base;
    var d, prev, f := s.task.desc.SetBusy(false), s.task.selector, EntryAddress(s, s.task.selector);
    Frees(s.task.desc);
    var s0 := s.(task := s.task.(desc := d));
    SameEntry(s, s0, prev);
    StoreOnly(s0, prev, d);
    var s1 := StoreDescriptor(s0, prev, d);
    StoredDescriptor(s0, prev, d);
    StoreBeyond(s0, prev, d, s.task.base);
    var flags := Outgoing(s, how).flags % 0x1_0000_0000;
    BesideContext(s1.mem, s, s.task.base, flags, oldEip, f);
    BesideContext(s1.mem, s, s.task.base, flags, oldEip, f + 4);
    SaveThenLoad(s1.mem, s, s.task.base, flags, oldEip);
    SameRest(s.mem, s1.mem, s.task.base);
    SameEntry(s, s1, prev);
    LookupIs(s1, Saving(s, how, oldEip), prev);
  }

  lemma SameRest(m: Memory, m': Memory, base: dword)
    requires LoadContext(m', base) == LoadContext(m, base)
    ensures ReadD(m', base + 28) == ReadD(m, base + 28) && ReadW(m', base + 96) == ReadW(m, base + 96)
  {
    hide ReadD, ReadW;
  }

  lemma LeavingFrees(s: Cpu, to: Task, how: SwitchType, oldEip: dword)
    requires !how.ByCall? && TaskHeld(s) && OwnEntryApart(s) && (how.ByJmp? ==> OtherEntryApart(s, to.selector))
    ensures var l := LeaveTask(s, to, how, oldEip);
            && IsFreed(Lookup(s, s.task.selector), Lookup(l, s.task.selector)) && l.gdt == s.gdt && l.ldt == s.ldt
            && ContextOf(l, s.task.base) == LeftBehind(Outgoing(s, how), oldEip)
            && (how.ByJmp? ==> Lookup(l, to.selector) == to.desc.SetBusy(true))
  {
    hide Saving, SaveContext, StoreDescriptor, EntryAddress, LoadContext, LeaveTask, ReadD, Far, Beyond, SetBit, IsFreed, Lookup, InTable,
      LeftBehind, Outgoing, Descriptor.SetBusy, Descriptor.Type, Descriptor.Present, Descriptor.Base;
    SavingFrees(s, how, oldEip);
    LeaveIsSaving(s, to, how, oldEip);
    if how.ByJmp? {
      var t, d, prev := Saving(s, how, oldEip), to.desc.SetBusy(true), s.task.selector;
      SameEntry(s, t, to.selector);
      SameEntry(s, t, prev);
      InGdt(s, t, to.selector);
      StoreOnly(t, to.selector, d);
      StoredDescriptor(t, to.selector, d);
      StoreBeyond(t, to.selector, d, s.task.base);
      EntriesApart(s, to.selector, prev);
      BesideDescriptor(t, to.selector, d, EntryAddress(t, prev));
      BesideDescriptor(t, to.selector, d, EntryAddress(t, prev) + 4);
      LookupIs(t, StoreDescriptor(t, to.selector, d), prev);
    }
  }

  // ----- the jump

  /** What a completed jump leaves: the old task available, with its context in its segment. */
  ghost predicate Parked(s: Cpu, c: Cpu, how: SwitchType, oldEip: dword) {
    && IsFreed(Lookup(s, s.task.selector), Lookup(c, s.task.selector))
    && ContextOf(c, s.task.base) == LeftBehind(Outgoing(s, how), oldEip)
  }

  /** The registers are those of a context, and so are the flags a switch may load; a task that was called is nested. */
  ghost predicate Runs(v: Cpu, c: Context, nested: bool) {
    && v.gpr == c.gpr && v.esp == c.esp && v.eip == c.eip && v.cs.val == c.cs && CodeLoaded(v)
    && forall k: nat :: k != 1 && Bit(0x6_7fd5, k) ==> Bit(v.flags, k) == (Bit(c.eflags, k) || (nested && k == NT_BIT))
  }

  /**
   A completed switch by JMP frees the old task and saves it, makes the new one the busy task in TR, and
   loads the registers from the new task's segment.
   */
  lemma JmpSwitchFrees(s: Cpu, sel: word, oldEip: dword)
    requires SwitchTask(s, sel, ByJmp, oldEip).Done? && !NullSelector(sel)
    requires TaskHeld(s) && OwnEntryApart(s) && OtherEntryApart(s, sel)
    ensures var c := SwitchTask(s, sel, ByJmp, oldEip).s;
            && Parked(s, c, ByJmp, oldEip) && TaskHeld(c) && c.task.selector == sel && c.task.base == Lookup(s, sel).Base()
            && Runs(c, ContextOf(s, c.task.base), false) && c.gdt == s.gdt && c.pmode == s.pmode
  {
    hide SwitchTask, EnterTask, EnterCode, LeaveTask, LoadRegisters, SetSelector, LoadContext, SetBit, Selectors, Lookup, Bit,
      LeftBehind, InTable, Loaded, Loadable, Rpl, Beyond, EntryAddress, IsFreed,
      Descriptor.Type, Descriptor.Present, Descriptor.Base, Descriptor.Limit, Descriptor.SetBusy, Descriptor.Busy, Descriptor.Is386;
    CallGoesElsewhere(s, sel, ByJmp, oldEip);
    SelectorOk(s, NO_TASK, sel);
    var to := SetSelector(s, NO_TASK, sel).0;
    LeavingFrees(s, to, ByJmp, oldEip);
    SwitchIsEntering(s, sel, ByJmp, oldEip);
    LoadedPlainly(s, sel, ByJmp, oldEip);
    var l := LeaveTask(s, to, ByJmp, oldEip);
    var (t, k) := Loaded(s, sel, ByJmp, oldEip);
    var c := SwitchTask(s, sel, ByJmp, oldEip).s;
    EntersAs(s, t, k, sel);
    GdtLookup(l, t, sel);
    GdtLookup(l, c, sel);
    GdtLookup(l, c, s.task.selector);
    InGdt(s, t, sel);
    InGdt(s, c, sel);
    TaskRegister(t, NO_TASK, sel, to.desc.SetBusy(true));
  }

  /** A completed switch by CALL runs the new task so too, with the nested-task flag. */
  lemma CallSwitchRuns(s: Cpu, sel: word, oldEip: dword)
    requires SwitchTask(s, sel, ByCall, oldEip).Done? && !NullSelector(sel) && TaskCached(s)
    ensures Runs(SwitchTask(s, sel, ByCall, oldEip).s, ContextOf(s, Lookup(s, sel).Base()), true)
  {
    hide SwitchTask, EnterTask, EnterCode, LeaveTask, LoadRegisters, SetSelector, LoadContext, SetBit, SetFlags, Lookup, Bit, CodeLoaded,
      Loadable, Rpl, Descriptor.Type, Descriptor.Present, Descriptor.Base, Descriptor.Limit, Descriptor.SetBusy, Descriptor.Busy,
      Descriptor.Is386;
    CallGoesElsewhere(s, sel, ByCall, oldEip);
    SelectorOk(s, NO_TASK, sel);
    SwitchIsEntering(s, sel, ByCall, oldEip);
    var to := SetSelector(s, NO_TASK, sel).0;
    LeaveOnly(s, to, ByCall, oldEip);
    var l, k := LeaveTask(s, to, ByCall, oldEip), LoadContext(s.mem, to.base);
    var c := k.(eflags := SetBit(k.eflags, NT_BIT, true) % 0x1_0000_0000);
    RegistersLoaded(l, c, oldEip);
    var t := Loaded(s, sel, ByCall, oldEip).0;
    EntersAs(t, t, c, sel);
    var v := SwitchTask(s, sel, ByCall, oldEip).s;
    forall j: nat | j != 1 && Bit(0x6_7fd5, j)
      ensures Bit(v.flags, j) == (Bit(k.eflags, j) || j == NT_BIT)
    {
      FlagsRestored(l, c.eflags, 0x6_7fd5, j);
      NestedBits(k.eflags, j);
    }
  }

  lemma NestedBits(w: nat, j: nat)
    requires Bit(0x6_7fd5, j)
    ensures Bit(SetBit(w, NT_BIT, true) % 0x1_0000_0000, j) == (Bit(w, j) || j == NT_BIT)
  {
    hide Bit, SetBit, Pow2;
    var f := SetBit(w, NT_BIT, true);
    IretFrames.FlagMaskBits(j);
    SetBitBits(w, NT_BIT, true, j);
    Powers();
    JoinedBits(f % 0x1_0000_0000, f / 0x1_0000_0000, 32, j);
    assert f == f % 0x1_0000_0000 + f / 0x1_0000_0000 * 0x1_0000_0000;
  }

  lemma AvailableRegister(t: Cpu, r: Task, sel: word)
    requires !NullSelector(sel) && sel / 4 % 2 == 0 && InTable(t, sel) && Lookup(t, sel).Type() == 9 && Lookup(t, sel).Present()
    ensures var d := Lookup(t, sel);
            && SetSelector(t, r, sel) == (Task(d, sel, d.Base(), d.Limit(), true, true), true) && d.Is386() && !d.Busy()
            && d.SetBusy(true).Type() == 11 && d.SetBusy(true).Present() && d.SetBusy(true).Base() == d.Base()
  {
    hide Lookup, Descriptor.Present, Descriptor.Base, Descriptor.Limit, Descriptor.SetBusy;
    BusyTypes(Lookup(t, sel));
  }

  /** Before a jump to an available task that holds a context. */
  ghost predicate CanJumpTo(s: Cpu, u: Cpu, oldEip: dword) {
    && u.gdt == s.gdt && TaskHeld(u) && OwnEntryApart(u) && OtherEntryApart(u, s.task.selector)
    && IsFreed(Lookup(s, s.task.selector), Lookup(u, s.task.selector)) && ContextOf(u, s.task.base) == LeftBehind(s, oldEip)
  }

  lemma JumpResumes(s: Cpu, u: Cpu, oldEip: dword, eip: dword)
    requires TaskCached(s) && CanJumpTo(s, u, oldEip) && s.flags < 0x1_0000_0000
    ensures var back, o := s.task.selector, SwitchTask(u, s.task.selector, ByJmp, eip);
            && (o.Done? <==> Enterable(Loaded(u, back, ByJmp, eip).0, LeftBehind(s, oldEip)))
            && (o.Done? ==> TaskResumed(s, u, o.s, oldEip))
  {
    hide SwitchTask, EnterTask, EnterCode, LeaveTask, SetSelector, LoadContext, Lookup, Bit, Loadable, Beyond, Enterable,
      EntryAddress, InTable, Loaded, Saved, Rpl, Descriptor.Type, Descriptor.Present, Descriptor.Base, Descriptor.Limit,
      Descriptor.Busy, Descriptor.Is386, Descriptor.DPL, Descriptor.SetBusy;
    var back, c := s.task.selector, LeftBehind(s, oldEip);
    InGdt(s, u, back);
    AvailableRegister(u, NO_TASK, back);
    SwitchIsEntering(u, back, ByJmp, eip);
    LoadedPlainly(u, back, ByJmp, eip);
    var to := SetSelector(u, NO_TASK, back).0;
    var t := Loaded(u, back, ByJmp, eip).0;
    EntersIff(t, c, back);
    var o := SwitchTask(u, back, ByJmp, eip);
    if o.Done? {
      EntersAs(u, t, c, back);
      SavedSelectors(s.mem, s, s.task.base, s.flags % 0x1_0000_0000, oldEip);
      SavedFields(s.mem, s, s.task.base, s.flags % 0x1_0000_0000, oldEip);
      VmIsLoaded();
      LeavingFrees(u, to, ByJmp, eip);
      LeaveOnly(u, to, ByJmp, eip);
      var l := LeaveTask(u, to, ByJmp, eip);
      GdtLookup(l, t, back);
      GdtLookup(l, o.s, back);
      InGdt(s, t, back);
      InGdt(s, o.s, back);
      TaskRegister(t, NO_TASK, back, to.desc.SetBusy(true));
    }
  }

  lemma JmpIsSwitch(u: Cpu, use32: bool, sel: word, offset: dword, eip: dword)
    requires u.pmode && !V86(u) && Lookup(u, sel).Type() == 9
    ensures Jmp(u, use32, sel, offset, eip) == SwitchTask(u, sel, ByJmp, eip)
  {
    hide SwitchTask, Bit, Lookup, Descriptor.Type;
  }

  /** A task that was jumped to, about to jump back: the other task's descriptor and segment are as the jump left them. */
  ghost predicate StillParked(c: Cpu, u: Cpu, s: Cpu) {
    && u.pmode && !V86(u) && u.task == c.task && u.gdt == c.gdt && TaskHeld(u)
    && OwnEntryApart(u) && OtherEntryApart(u, s.task.selector)
    && ContextOf(u, s.task.base) == ContextOf(c, s.task.base) && Lookup(u, s.task.selector) == Lookup(c, s.task.selector)
  }

  /**
   Two tasks that jump to each other: whatever runs in between, the jump back completes exactly when the
   saved code selector is accepted and the saved stack selector not refused. Then it resumes the first
   task where it left, and parks the second.
   */
  lemma JumpRoundTrip(s: Cpu, sel: word, oldEip: dword, u: Cpu, use32: bool, offset: dword, eip: dword)
    requires SwitchTask(s, sel, ByJmp, oldEip).Done? && !NullSelector(sel) && s.flags < 0x1_0000_0000
    requires TaskHeld(s) && OwnEntryApart(s) && OtherEntryApart(s, sel)
    requires StillParked(SwitchTask(s, sel, ByJmp, oldEip).s, u, s)
    ensures var back, o := s.task.selector, Jmp(u, use32, s.task.selector, offset, eip);
            && (o.Done? <==> Enterable(Loaded(u, back, ByJmp, eip).0, LeftBehind(s, oldEip)))
            && (o.Done? ==> TaskResumed(s, u, o.s, oldEip) && Parked(u, o.s, ByJmp, eip))
  {
    hide SwitchTask, Jmp, Lookup, Bit, V86, ContextOf, LeftBehind, Enterable, Loaded, TaskResumed, EntryAddress, InTable, Beyond, Runs,
      Descriptor.Type, Descriptor.Present, Descriptor.Base, Descriptor.Limit, Descriptor.DPL;
    JmpSwitchFrees(s, sel, oldEip);
    JmpIsSwitch(u, use32, s.task.selector, offset, eip);
    JumpResumes(s, u, oldEip, eip);
    if Jmp(u, use32, s.task.selector, offset, eip).Done? {
      JmpSwitchFrees(u, s.task.selector, eip);
    }
  }

  // ----- the return of a nested task

  /** The return from a nested task frees it, and its saved flags no longer say that it is nested. */
  lemma IretSwitchFrees(u: Cpu, back: word, eip: dword)
    requires SwitchTask(u, back, ByIret, eip).Done? && back != u.task.selector
    requires TaskHeld(u) && OwnEntryApart(u)
    ensures var v := SwitchTask(u, back, ByIret, eip).s;
            Parked(u, v, ByIret, eip) && !Bit(ContextOf(v, u.task.base).eflags, NT_BIT)
  {
    hide SwitchTask, EnterTask, EnterCode, LeaveTask, LoadRegisters, SetSelector, LoadContext, SetBit, Selectors, Lookup, Bit,
      Saved, InTable, Loaded, Loadable, Rpl, Beyond, EntryAddress, IsFreed, NullSelector,
      Descriptor.Type, Descriptor.Present, Descriptor.Base, Descriptor.Limit, Descriptor.SetBusy, Descriptor.Busy, Descriptor.Is386;
    var to := SetSelector(u, NO_TASK, back).0;
    LeavingFrees(u, to, ByIret, eip);
    SwitchIsEntering(u, back, ByIret, eip);
    LoadedPlainly(u, back, ByIret, eip);
    var l := LeaveTask(u, to, ByIret, eip);
    var (t, k) := Loaded(u, back, ByIret, eip);
    EntersAs(u, t, k, back);
    GdtLookup(l, SwitchTask(u, back, ByIret, eip).s, u.task.selector);
    var f := SetBit(u.flags, NT_BIT, false);
    SetBitBits(u.flags, NT_BIT, false, NT_BIT);
    BitFourteen(f);
    BitFourteen(f % 0x1_0000_0000);
    SameFourteen(f);
    SavedFields(u.mem, Outgoing(u, ByIret), u.task.base, f % 0x1_0000_0000, eip);
  }
}
