/**
 The call gate to an inner level and the far return from it are each other's inverse: the frame the
 call builds on the inner stack, the parameters in it, and what the return makes of the frame.
 */
module GateProofs {
  import opened Bits
  import opened CpuState
  import opened FarTransfers
  import opened PrivilegeProofs
  import opened Words

  // ----- memory

  /** How far a byte lies below a stack's top, going round the address space. */
  function Depth(top: int, b: int): dword { (top - 1 - b) % 0x1_0000_0000 }

  lemma Congruent(x: int, y: int)
    requires Address(x) == Address(y)
    ensures (x - y) % 0x1_0000_0000 == 0
  {
  }

  lemma DistinctBytes(a: int, i: int, j: int)
    requires 0 <= i < j < 4
    ensures Address(a + i) != Address(a + j)
  {
  }

  /** A double word written is the double word read. */
  lemma WrittenD(m: Memory, a: int, v: dword)
    ensures ReadD(WriteD(m, a, v), a) == v
  {
    DistinctBytes(a, 0, 1);
    DistinctBytes(a, 0, 2);
    DistinctBytes(a, 0, 3);
    DistinctBytes(a, 1, 2);
    DistinctBytes(a, 1, 3);
    DistinctBytes(a, 2, 3);
  }

  lemma OtherByte(m: Memory, a: int, v: dword, b: int)
    requires (b - a) % 0x1_0000_0000 >= 4
    ensures ReadB(WriteD(m, a, v), b) == ReadB(m, b)
  {
    NotNear(a, b, 0);
    NotNear(a, b, 1);
    NotNear(a, b, 2);
    NotNear(a, b, 3);
  }

  lemma NotNear(a: int, b: int, i: nat)
    requires (b - a) % 0x1_0000_0000 >= 4 && i < 4
    ensures Address(b) != Address(a + i)
  {
    if Address(b) == Address(a + i) {
      Nearby(a, b, i);
    }
  }

  lemma Nearby(a: int, b: int, i: nat)
    requires Address(b) == Address(a + i) && i < 4
    ensures (b - a) % 0x1_0000_0000 == i
  {
    Congruent(b, a + i);
  }

  /** A double word at a distance of at least four bytes, going round the address space, is untouched. */
  lemma FarDword(m: Memory, a: int, v: dword, b: int)
    requires 4 <= (b - a) % 0x1_0000_0000 <= 0x1_0000_0000 - 4
    ensures ReadD(WriteD(m, a, v), b) == ReadD(m, b)
  {
    hide WriteD, ReadB;
    var d := (b - a) % 0x1_0000_0000;
    FarByte(a, b, d, 0);
    FarByte(a, b, d, 1);
    FarByte(a, b, d, 2);
    FarByte(a, b, d, 3);
    OtherByte(m, a, v, b);
    OtherByte(m, a, v, b + 1);
    OtherByte(m, a, v, b + 2);
    OtherByte(m, a, v, b + 3);
  }

  lemma FarByte(a: int, b: int, d: int, i: int)
    requires d == (b - a) % 0x1_0000_0000 && 0 <= i < 4 && 4 <= d <= 0x1_0000_0000 - 4
    ensures (b + i - a) % 0x1_0000_0000 >= 4
  {
    assert (b + i - a) % 0x1_0000_0000 == d + i by {
      assert b + i - a == (b - a) / 0x1_0000_0000 * 0x1_0000_0000 + (d + i);
    }
  }

  /** Outside the n bytes below the top the two memories are the same. */
  ghost predicate AgreeAbove(m: Memory, m': Memory, top: int, n: nat) {
    forall b: int :: Depth(top, b) >= n ==> ReadB(m', b) == ReadB(m, b)
  }

  ghost predicate Clear(top: int, n: nat, a: int, size: nat) {
    forall x :: a <= x < a + size ==> Depth(top, x) >= n
  }

  lemma ClearReads(m: Memory, m': Memory, top: int, n: nat, a: int)
    requires AgreeAbove(m, m', top, n) && Clear(top, n, a, 4)
    ensures ReadD(m', a) == ReadD(m, a)
  {
    hide ReadB, Depth;
    assert Depth(top, a) >= n && Depth(top, a + 1) >= n && Depth(top, a + 2) >= n && Depth(top, a + 3) >= n;
  }

  /** The double words below the top, the topmost first. */
  ghost predicate Stacked(m: Memory, top: int, vs: seq<dword>) {
    forall j: nat :: j < |vs| ==> ReadD(m, SlotAddress(top, j)) == vs[j]
  }

  function SlotAddress(top: int, j: int): int { top - 4 * j - 4 }

  // ----- pushes on a 32-bit stack

  /** The stack pointer n bytes below the top's. */
  ghost predicate At(s: Cpu, top: int, n: int) {
    s.stackBig && Address(s.ss.phys + s.esp) == Address(top - n)
  }

  lemma Moves(s: Cpu, top: int, n: int, k: int)
    requires At(s, top, n)
    ensures Address(StackAddress(s, s.esp)) == Address(top - n)
    ensures Address(s.ss.phys + Moved(s, s.esp, k)) == Address(top - n + k)
    ensures StackAddress(s, Moved(s, s.esp, k)) == s.ss.phys + Moved(s, s.esp, k)
  {
    AddressSum(s.esp + k, s.ss.phys);
    AddressStep(s.ss.phys + s.esp, top - n, k);
  }

  lemma SameWrite(m: Memory, a: int, b: int, v: dword)
    requires Address(a) == Address(b)
    ensures WriteD(m, a, v) == WriteD(m, b, v)
  {
    AddressStep(a, b, 1);
    AddressStep(a, b, 2);
    AddressStep(a, b, 3);
  }

  lemma PushWrites(s: Cpu, top: int, n: nat, v: dword)
    requires At(s, top, n)
    ensures var t := Push32(s, v);
            && At(t, top, n + 4) && t.mem == WriteD(s.mem, top - n - 4, v)
            && t == s.(mem := t.mem, esp := t.esp)
  {
    hide WriteD, Address, Moved, StackAddress;
    Moves(s, top, n, -4);
    SameWrite(s.mem, StackAddress(s, Moved(s, s.esp, -4)), top - n - 4, v);
  }

  lemma SlotKept(m: Memory, top: int, n: nat, v: dword, j: nat)
    requires 4 * j + 4 <= n < 0x1000_0000
    ensures ReadD(WriteD(m, top - n - 4, v), SlotAddress(top, j)) == ReadD(m, SlotAddress(top, j))
  {
    hide WriteD, ReadB;
    var a := SlotAddress(top, j);
    assert a - (top - n - 4) == n - 4 * j;
    OtherByte(m, top - n - 4, v, a);
    OtherByte(m, top - n - 4, v, a + 1);
    OtherByte(m, top - n - 4, v, a + 2);
    OtherByte(m, top - n - 4, v, a + 3);
  }

  lemma AboveKept(m: Memory, top: int, n: nat, v: dword, b: int)
    requires n < 0x1000_0000 && Depth(top, b) >= n + 4
    ensures ReadB(WriteD(m, top - n - 4, v), b) == ReadB(m, b)
  {
    hide WriteD, ReadB;
    var d := Depth(top, b);
    assert (b - (top - n - 4)) % 0x1_0000_0000 == (n + 3 - d) % 0x1_0000_0000 by {
      assert (top - 1 - b - d) % 0x1_0000_0000 == 0;
    }
    OtherByte(m, top - n - 4, v, b);
  }

  /** What building a frame keeps: its slots so far, and everything not below the top. */
  ghost predicate Building(m: Memory, s: Cpu, top: int, vs: seq<dword>) {
    At(s, top, 4 * |vs|) && Stacked(s.mem, top, vs) && AgreeAbove(m, s.mem, top, 4 * |vs|)
  }

  lemma PushBuilds(m: Memory, s: Cpu, top: int, vs: seq<dword>, v: dword)
    requires Building(m, s, top, vs) && |vs| < 0x100_0000
    ensures Building(m, Push32(s, v), top, vs + [v])
    ensures Push32(s, v) == s.(mem := Push32(s, v).mem, esp := Push32(s, v).esp)
  {
    hide Push32, ReadB, ReadD, WriteD, Depth, SlotAddress;
    var n := 4 * |vs|;
    var t := Push32(s, v);
    PushWrites(s, top, n, v);
    WrittenD(s.mem, top - n - 4, v);
    LastSlot(top, |vs|);
    forall j: nat | j < |vs| + 1
      ensures ReadD(t.mem, SlotAddress(top, j)) == (vs + [v])[j]
    {
      if j < |vs| {
        SlotKept(s.mem, top, n, v, j);
      }
    }
    forall b: int | Depth(top, b) >= n + 4
      ensures ReadB(t.mem, b) == ReadB(m, b)
    {
      AboveKept(s.mem, top, n, v, b);
    }
  }

  lemma LastSlot(top: int, j: nat)
    ensures SlotAddress(top, j) == top - 4 * j - 4
  {
  }

  /** The parameters as the copy pushes them, the highest first. */
  function Params(m: Memory, from: int, k: nat): (r: seq<dword>)
    ensures |r| == k
  {
    if k == 0 then [] else [ReadD(m, from + (k - 1) * 4)] + Params(m, from, k - 1)
  }

  lemma {:induction false} ParamsAt(m: Memory, from: int, k: nat, i: nat)
    requires i < k
    ensures Params(m, from, k)[k - 1 - i] == ReadD(m, from + i * 4)
    decreases k
  {
    if i < k - 1 {
      ParamsAt(m, from, k - 1, i);
    }
  }

  lemma {:induction false} CopyBuilds(m: Memory, s: Cpu, top: int, vs: seq<dword>, from: int, k: nat, size: nat)
    requires Building(m, s, top, vs) && |vs| + k < 0x100_0000
    requires 4 * (|vs| + k) <= size && Clear(top, size, from, 4 * k)
    ensures var t := CopyParams(s, from, k, true);
            Building(m, t, top, vs + Params(m, from, k)) && t == s.(mem := t.mem, esp := t.esp)
    decreases k
  {
    hide Building, Push32, Clear, ReadD;
    if k == 0 {
      assert vs + Params(m, from, k) == vs;
    } else {
      var v := ReadD(s.mem, from + (k - 1) * 4);
      ClearPart(m, s, top, vs, from, k, size);
      PushBuilds(m, s, top, vs, v);
      CopyBuilds(m, Push32(s, v), top, vs + [v], from, k - 1, size);
      assert vs + Params(m, from, k) == vs + [v] + Params(m, from, k - 1);
    }
  }

  lemma ClearPart(m: Memory, s: Cpu, top: int, vs: seq<dword>, from: int, k: nat, size: nat)
    requires Building(m, s, top, vs) && 4 * |vs| <= size && k > 0 && Clear(top, size, from, 4 * k)
    ensures ReadD(s.mem, from + (k - 1) * 4) == ReadD(m, from + (k - 1) * 4)
    ensures Clear(top, size, from, 4 * (k - 1))
  {
    hide ReadD, Depth, ReadB;
    var a := from + (k - 1) * 4;
    ClearReads(m, s.mem, top, 4 * |vs|, a);
  }

  // ----- the call

  /** The gate behind a selector, the code segment it leads to and the stack the current TSS keeps for that level. */
  function GateOf(s: Cpu, sel: word): Descriptor { Lookup(s, sel) }

  function CodeOf(s: Cpu, sel: word): Descriptor { Lookup(s, GateOf(s, sel).Selector()) }

  function StackSelector(s: Cpu, sel: word): word { TaskStack(s, CodeOf(s, sel).DPL()).0 }

  function InnerSs(s: Cpu, sel: word): Descriptor { Lookup(s, StackSelector(s, sel)) }

  /** One past the highest byte of the inner stack. */
  function InnerTop(s: Cpu, sel: word): int { InnerSs(s, sel).Base() + TaskStack(s, CodeOf(s, sel).DPL()).1 }

  /** A 386 call gate to an inner level, with 32-bit stacks on both sides. */
  ghost predicate CallsInward(s: Cpu, sel: word) {
    && s.pmode && !V86(s) && RplIsCpl(s) && s.stackBig
    && GateOf(s, sel).Type() == CALL_GATE_386
    && IsNonConforming(CodeOf(s, sel).Type()) && CodeOf(s, sel).DPL() < s.cpl
    && IsWritableData(InnerSs(s, sel).Type()) && InnerSs(s, sel).Big()
  }

  /** The bytes the frame of a call with k parameters takes. */
  function FrameSize(k: nat): nat { 4 * (k + 4) }

  /** The caller's parameters and two descriptors lie elsewhere than the frame. */
  ghost predicate FrameApart(s: Cpu, sel: word) {
    var top, k := InnerTop(s, sel), GateOf(s, sel).Params();
    && Clear(top, FrameSize(k), StackAddress(s, s.esp), 4 * k)
    && Clear(top, FrameSize(k), EntryAddress(s, s.cs.val), 8)
    && Clear(top, FrameSize(k), EntryAddress(s, s.ss.val), 8)
  }

  function FrameOf(s: Cpu, k: nat, oldEip: dword): seq<dword> {
    [s.ss.val, s.esp] + Params(s.mem, StackAddress(s, s.esp), k) + [s.cs.val, oldEip]
  }

  lemma StartsEmpty(s: Cpu, t: Cpu, top: int)
    requires t.stackBig && t.ss.phys + t.esp == top && t.mem == s.mem
    ensures Building(s.mem, t, top, [])
  {
    hide ReadB, ReadD, Depth;
  }

  /** The five kinds of push of a gate call, one after the other. */
  lemma GateFrame(s: Cpu, t: Cpu, top: int, k: nat, oldEip: dword)
    requires t.stackBig && t.ss.phys + t.esp == top && t.mem == s.mem && s.stackBig && k < 32
    requires Clear(top, FrameSize(k), StackAddress(s, s.esp), 4 * k)
    ensures var u := CopyParams(Push32(Push32(t, s.ss.val), s.esp), StackAddress(s, s.esp), k, true);
            var v := Push32(Push32(u, s.cs.val), oldEip);
            Building(s.mem, v, top, FrameOf(s, k, oldEip)) && v == t.(mem := v.mem, esp := v.esp)
  {
    hide Building, Push32, Clear, CopyParams, StackAddress, Params;
    var from := StackAddress(s, s.esp);
    StartsEmpty(s, t, top);
    PushBuilds(s.mem, t, top, [], s.ss.val);
    var t1 := Push32(t, s.ss.val);
    PushBuilds(s.mem, t1, top, [] + [s.ss.val], s.esp);
    var t2 := Push32(t1, s.esp);
    assert [] + [s.ss.val] + [s.esp] == [s.ss.val, s.esp];
    CopyBuilds(s.mem, t2, top, [s.ss.val, s.esp], from, k, FrameSize(k));
    var u := CopyParams(t2, from, k, true);
    var vs := [s.ss.val, s.esp] + Params(s.mem, from, k);
    PushBuilds(s.mem, u, top, vs, s.cs.val);
    PushBuilds(s.mem, Push32(u, s.cs.val), top, vs + [s.cs.val], oldEip);
    assert vs + [s.cs.val] + [oldEip] == FrameOf(s, k, oldEip);
  }

  /** Where a call through the gate ends, apart from memory and the stack pointer. */
  function Entered(s: Cpu, sel: word, use32: bool): Cpu {
    EnterGateCode(SwitchLevel(s, StackSelector(s, sel), InnerSs(s, sel), TaskStack(s, CodeOf(s, sel).DPL()).1,
                              CodeOf(s, sel).DPL()), GateOf(s, sel), CodeOf(s, sel), use32)
  }

  /**
   A call through a 386 gate to an inner level leaves, on that level's stack from the top down: the
   caller's SS and ESP, the parameters in the caller's order, and its CS and return address.
   */
  lemma CallBuildsFrame(s: Cpu, use32: bool, sel: word, offset: dword, oldEip: dword)
    requires CallsInward(s, sel) && FrameApart(s, sel)
    ensures var o := Call(s, use32, sel, offset, oldEip);
            var k := GateOf(s, sel).Params();
            && o.Done? && o.s == Entered(s, sel, use32).(mem := o.s.mem, esp := o.s.esp)
            && At(o.s, InnerTop(s, sel), FrameSize(k))
            && Stacked(o.s.mem, InnerTop(s, sel), FrameOf(s, k, oldEip))
            && AgreeAbove(s.mem, o.s.mem, InnerTop(s, sel), FrameSize(k))
  {
    hide Lookup, TaskStack, Push32, CopyParams, Building, Clear, StackAddress, Params, Bit, RplIsCpl;
    var t := Entered(s, sel, use32);
    var k := GateOf(s, sel).Params();
    GateFrame(s, t, InnerTop(s, sel), k, oldEip);
    Unfold(s.mem, Call(s, use32, sel, offset, oldEip).s, InnerTop(s, sel), FrameOf(s, k, oldEip));
  }

  lemma Unfold(m: Memory, s: Cpu, top: int, vs: seq<dword>)
    requires Building(m, s, top, vs)
    ensures At(s, top, 4 * |vs|) && Stacked(s.mem, top, vs) && AgreeAbove(m, s.mem, top, 4 * |vs|)
  {
  }

  // ----- the return

  lemma PeeksSlot(s: Cpu, top: int, n: int, j: int, vs: seq<dword>)
    requires At(s, top, n) && n == 4 * j + 4 && 0 <= j < |vs| && Stacked(s.mem, top, vs)
    ensures Top(s, true) == vs[j]
  {
    hide ReadD, Address, Moved;
    Moves(s, top, n, 0);
    SameAddressD(s.mem, StackAddress(s, s.esp), SlotAddress(top, j));
    assert ReadD(s.mem, SlotAddress(top, j)) == vs[j];
  }

  lemma PopMoves(s: Cpu, top: int, n: int)
    requires At(s, top, n)
    ensures At(Popped(s, true), top, n - 4)
  {
    hide Address, Moved;
    Moves(s, top, n, 4);
  }

  lemma AdvanceMoves(s: Cpu, top: int, n: int, bytes: nat)
    requires At(s, top, n)
    ensures At(Advance(s, bytes), top, n - bytes)
  {
    AddressSum(s.esp + bytes, s.ss.phys);
    AddressStep(s.ss.phys + s.esp, top - n, bytes);
  }

  lemma SelectorAbove(s: Cpu, top: int, n: int, j: int, vs: seq<dword>)
    requires At(s, top, n) && n == 4 * j + 8 && 0 <= j < |vs| && Stacked(s.mem, top, vs)
    ensures PeekedSelector(s, true) == Low16(vs[j])
  {
    hide ReadD, Address, Moved;
    Moves(s, top, n, 0);
    AddressStep(StackAddress(s, s.esp), top - n, 4);
    SameAddressD(s.mem, StackAddress(s, s.esp) + 4, SlotAddress(top, j));
    assert ReadD(s.mem, SlotAddress(top, j)) == vs[j];
  }

  /** What a data segment register names is in its table, and the current level may use it. */
  predicate Accepted(s: Cpu, name: SegName) {
    var v := GetSeg(s, name).val;
    var d := Lookup(s, v);
    InTable(s, v) && (0x10 <= d.Type() <= 0x1b ==> s.cpl <= d.DPL())
  }

  /** A data segment register is empty, or the current level may use what it names. */
  predicate Usable(s: Cpu, name: SegName) { GetSeg(s, name).val == 0 || Accepted(s, name) }

  lemma CheckIs(s: Cpu, name: SegName)
    requires s.pmode && !V86(s) && !name.SS?
    ensures CheckSegment(Done(s), name) == Done(if Accepted(s, name) then s else PutSeg(s, name, Segment(0, 0)))
  {
    hide Lookup, InTable, Bit, PutSeg, Descriptor.Type, Descriptor.DPL;
  }

  lemma AcceptedSame(s: Cpu, u: Cpu, name: SegName)
    requires u.mem == s.mem && u.gdt == s.gdt && u.ldt == s.ldt && u.cpl == s.cpl && GetSeg(u, name).val == GetSeg(s, name).val
    ensures Accepted(u, name) == Accepted(s, name)
  {
    hide GetSeg, LoadDescriptor, Descriptor.Type, Descriptor.DPL;
  }

  function Checked(s: Cpu, name: SegName): Segment { if Accepted(s, name) then GetSeg(s, name) else Segment(0, 0) }

  lemma CheckedSame(s: Cpu, u: Cpu, name: SegName)
    requires u.mem == s.mem && u.gdt == s.gdt && u.ldt == s.ldt && u.cpl == s.cpl && GetSeg(u, name) == GetSeg(s, name)
    ensures Checked(u, name) == Checked(s, name)
  {
    hide GetSeg, Accepted;
    AcceptedSame(s, u, name);
  }

  lemma CheckPuts(s: Cpu, name: SegName)
    requires s.pmode && !V86(s) && !name.SS?
    ensures CheckSegment(Done(s), name) == Done(PutSeg(s, name, Checked(s, name)))
  {
    hide CheckSegment, Accepted, Bit;
    CheckIs(s, name);
  }

  /** CPU_CheckSegments empties the data segment registers that the current level may not use, and changes nothing else. */
  lemma ChecksExact(s: Cpu)
    requires s.pmode && !V86(s)
    ensures CheckSegments(s) == Done(s.(es := Checked(s, ES), ds := Checked(s, DS), fs := Checked(s, FS), gs := Checked(s, GS)))
  {
    hide CheckSegment, Bit, Checked;
    var s1 := s.(es := Checked(s, ES));
    var s2 := s1.(ds := Checked(s, DS));
    var s3 := s2.(fs := Checked(s, FS));
    CheckPuts(s, ES);
    CheckPuts(s1, DS);
    CheckPuts(s2, FS);
    CheckPuts(s3, GS);
    CheckedSame(s, s1, DS);
    CheckedSame(s, s2, FS);
    CheckedSame(s, s3, GS);
  }

  lemma ChecksOnlyData(s: Cpu)
    requires s.pmode && !V86(s)
    ensures var o := CheckSegments(s);
            && o.Done?
            && o.s == s.(es := o.s.es, ds := o.s.ds, fs := o.s.fs, gs := o.s.gs, which := o.s.which, error := o.s.error)
  {
    hide CheckSegments, Checked, Bit;
    ChecksExact(s);
  }

  /** After a return to an outer level no data segment register names a segment of an inner one. */
  lemma ChecksRevoke(s: Cpu)
    requires s.pmode && !V86(s)
    ensures var o := CheckSegments(s);
            o.Done? && Usable(o.s, ES) && Usable(o.s, DS) && Usable(o.s, FS) && Usable(o.s, GS)
  {
    hide CheckSegments, Bit, Accepted;
    ChecksExact(s);
    var u := CheckSegments(s).s;
    StillUsable(s, u, ES);
    StillUsable(s, u, DS);
    StillUsable(s, u, FS);
    StillUsable(s, u, GS);
  }

  lemma StillUsable(s: Cpu, u: Cpu, name: SegName)
    requires u.mem == s.mem && u.gdt == s.gdt && u.ldt == s.ldt && u.cpl == s.cpl && GetSeg(u, name) == Checked(s, name)
    ensures Usable(u, name)
  {
    hide Accepted;
    if Accepted(s, name) {
      AcceptedSame(s, u, name);
    }
  }

  /** A far return to an outer level ends so, whatever the callee left in the registers. */
  lemma RetOuterRevokes(s: Cpu, use32: bool, bytes: nat)
    requires s.pmode && !V86(s) && Ret(s, use32, bytes).Done? && Rpl(PeekedSelector(s, use32)) != s.cpl
    ensures var t := Ret(s, use32, bytes).s; Usable(t, ES) && Usable(t, DS) && Usable(t, FS) && Usable(t, GS)
  {
    hide Bit, PeekedSelector, Top, Moved, Lookup, CheckSegments, Usable, Descriptor.Type, Descriptor.Base, Descriptor.Big, WithRpl, Rpl;
    var sel := PeekedSelector(s, use32);
    var s1 := Popped(s, use32);
    var s2 := Advance(Popped(s1, use32), bytes);
    var s4 := Popped(Popped(s2, use32), use32);
    var cs, esp, ss := Low16(Top(s1, use32)), Top(s2, use32), Low16(Top(Popped(s2, use32), use32));
    var t := LoadCode(s4, Segment(WithRpl(cs, Rpl(sel)), Lookup(s, sel).Base()), Lookup(s, sel).Big(), Top(s, use32));
    ChecksRevoke(SwitchLevel(t, ss, Lookup(s4, ss), (esp + bytes) % 0x1_0000_0000, Rpl(sel)));
  }

  /** The caller's CS and SS registers hold what their descriptors say. */
  ghost predicate Cached(s: Cpu, t: Cpu) {
    var c, d := Lookup(t, s.cs.val), Lookup(t, s.ss.val);
    && IsCode(c.Type()) && c.Base() == s.cs.phys && c.Big() == s.codeBig
    && IsWritableData(d.Type()) && d.Base() == s.ss.phys && d.Big() == s.stackBig
  }

  /** A state in which the callee is about to return from a frame with k parameters. */
  ghost predicate AtReturn(s: Cpu, t: Cpu, top: int, k: nat, oldEip: dword) {
    && t.pmode && !V86(t) && t.cpl < s.cpl
    && At(t, top, FrameSize(k)) && Stacked(t.mem, top, FrameOf(s, k, oldEip)) && Cached(s, t)
  }

  /** The caller resumed behind its call with the parameters popped. */
  ghost predicate Resumed(s: Cpu, u: Cpu, k: nat, oldEip: dword) {
    && u.cs == s.cs && u.codeBig == s.codeBig && u.eip == oldEip && u.cpl == s.cpl
    && u.ss == s.ss && u.stackBig && u.esp == (s.esp + 4 * k) % 0x1_0000_0000
  }

  lemma FrameSlots(s: Cpu, k: nat, oldEip: dword)
    ensures var f := FrameOf(s, k, oldEip);
            |f| == k + 4 && f[0] == s.ss.val && f[1] == s.esp && f[k + 2] == s.cs.val && f[k + 3] == oldEip
  {
  }

  lemma OuterPops(t: Cpu, top: int, k: nat, vs: seq<dword>)
    requires At(t, top, FrameSize(k)) && |vs| == k + 4 && Stacked(t.mem, top, vs)
    ensures var s1 := Popped(t, true);
            var s2 := Advance(Popped(s1, true), 4 * k);
            && Top(t, true) == vs[k + 3] && Top(s1, true) == vs[k + 2]
            && Top(s2, true) == vs[1] && Top(Popped(s2, true), true) == vs[0]
            && PeekedSelector(t, true) == Low16(vs[k + 2])
  {
    hide At, Stacked, Top, PeekedSelector, Moved;
    var s1 := Popped(t, true);
    var s2 := Advance(Popped(s1, true), 4 * k);
    PeeksSlot(t, top, FrameSize(k), k + 3, vs);
    SelectorAbove(t, top, FrameSize(k), k + 2, vs);
    PopMoves(t, top, FrameSize(k));
    PeeksSlot(s1, top, FrameSize(k) - 4, k + 2, vs);
    PopMoves(s1, top, FrameSize(k) - 4);
    AdvanceMoves(Popped(s1, true), top, FrameSize(k) - 8, 4 * k);
    PeeksSlot(s2, top, 8, 1, vs);
    PopMoves(s2, top, 8);
    PeeksSlot(Popped(s2, true), top, 4, 0, vs);
  }

  lemma RetGoesOut(s: Cpu, t: Cpu, k: nat)
    requires t.pmode && !V86(t) && t.cpl < s.cpl == Rpl(s.cs.val) && PeekedSelector(t, true) == s.cs.val
    requires IsCode(Lookup(t, s.cs.val).Type())
    ensures Ret(t, true, 4 * k) == RetOuterLevel(t, true, 4 * k, s.cpl, Lookup(t, s.cs.val))
  {
    hide PeekedSelector, Bit, Lookup, Descriptor.Type, RetOuterLevel;
  }

  /** The state the outer return hands to the segment checks. */
  function Outward(s: Cpu, t: Cpu, d: Descriptor, n: Descriptor, k: nat, oldEip: dword): Cpu {
    var s4 := Popped(Popped(Advance(Popped(Popped(t, true), true), 4 * k), true), true);
    var t4 := LoadCode(s4, Segment(WithRpl(s.cs.val, s.cpl), d.Base()), d.Big(), oldEip);
    SwitchLevel(t4, s.ss.val, n, (s.esp + 4 * k) % 0x1_0000_0000, s.cpl)
  }

  lemma OuterGivesOutward(s: Cpu, t: Cpu, k: nat, oldEip: dword)
    requires IsWritableData(Lookup(t, s.ss.val).Type())
    requires var s1 := Popped(t, true); var s2 := Advance(Popped(s1, true), 4 * k);
             && Top(t, true) == oldEip && Top(s1, true) == s.cs.val
             && Top(s2, true) == s.esp && Top(Popped(s2, true), true) == s.ss.val
    ensures RetOuterLevel(t, true, 4 * k, s.cpl, Lookup(t, s.cs.val))
            == CheckSegments(Outward(s, t, Lookup(t, s.cs.val), Lookup(t, s.ss.val), k, oldEip))
  {
    hide Top, Moved, Lookup, CheckSegments, Descriptor.Type, Descriptor.Base, Descriptor.Big, SwitchLevel, WithRpl;
    var s4 := Popped(Popped(Advance(Popped(Popped(t, true), true), 4 * k), true), true);
    SameLookup(t, s4, s.ss.val);
    LowOfWord(s.cs.val);
    LowOfWord(s.ss.val);
  }

  lemma OutwardResumes(s: Cpu, t: Cpu, k: nat, oldEip: dword)
    requires Cached(s, t) && s.stackBig && Rpl(s.cs.val) == s.cpl && t.pmode && !V86(t)
    ensures var o := CheckSegments(Outward(s, t, Lookup(t, s.cs.val), Lookup(t, s.ss.val), k, oldEip));
            o.Done? && Resumed(s, o.s, k, oldEip) && o.s.mem == t.mem
  {
    hide Moved, Lookup, CheckSegments, Bit, Descriptor.Type, Descriptor.Base, Descriptor.Big;
    ChecksOnlyData(Outward(s, t, Lookup(t, s.cs.val), Lookup(t, s.ss.val), k, oldEip));
  }

  /** The far return with the parameter bytes undoes the call, whatever the callee did elsewhere. */
  lemma ReturnResumes(s: Cpu, t: Cpu, top: int, k: nat, oldEip: dword)
    requires AtReturn(s, t, top, k, oldEip) && s.stackBig && Rpl(s.cs.val) == s.cpl
    ensures var o := Ret(t, true, 4 * k); o.Done? && Resumed(s, o.s, k, oldEip) && o.s.mem == t.mem
  {
    hide Ret, At, Stacked, Top, PeekedSelector, Bit, CheckSegments, FrameOf, Moved, Lookup, Outward, RetOuterLevel;
    FrameSlots(s, k, oldEip);
    OuterPops(t, top, k, FrameOf(s, k, oldEip));
    LowOfWord(s.cs.val);
    RetGoesOut(s, t, k);
    OuterGivesOutward(s, t, k, oldEip);
    OutwardResumes(s, t, k, oldEip);
  }

  lemma LowOfWord(x: word)
    ensures Low16(x) == x
  {
  }

  lemma SameLookup(t: Cpu, u: Cpu, sel: word)
    requires t.mem == u.mem && t.gdt == u.gdt && t.ldt == u.ldt
    ensures Lookup(t, sel) == Lookup(u, sel)
  {
  }

  lemma EntryUntouched(s: Cpu, t: Cpu, top: int, n: nat, sel: word)
    requires t.gdt == s.gdt && t.ldt == s.ldt && AgreeAbove(s.mem, t.mem, top, n) && Clear(top, n, EntryAddress(s, sel), 8)
    ensures Lookup(t, sel) == Lookup(s, sel)
  {
    hide ReadD, ReadB, Depth;
    ClearReads(s.mem, t.mem, top, n, EntryAddress(s, sel));
    ClearReads(s.mem, t.mem, top, n, EntryAddress(s, sel) + 4);
  }

  /** What the callee must not have changed when it returns: its frame, the caller's descriptors, its stack position. */
  ghost predicate CalleeKept(s: Cpu, c: Cpu, t: Cpu, top: int, k: nat, oldEip: dword) {
    && t.pmode && !V86(t) && t.cpl == c.cpl && t.ss == c.ss && t.esp == c.esp && t.stackBig == c.stackBig
    && Stacked(t.mem, top, FrameOf(s, k, oldEip))
    && Lookup(t, s.cs.val) == Lookup(c, s.cs.val) && Lookup(t, s.ss.val) == Lookup(c, s.ss.val)
  }

  /**
   The round trip: a call through a 386 gate with k parameters, then whatever the callee does that
   leaves its frame alone, then a far return with 4k bytes, puts the caller back behind its call.
   */
  lemma CallGateRoundTrip(s: Cpu, use32: bool, sel: word, offset: dword, oldEip: dword, t: Cpu)
    requires CallsInward(s, sel) && FrameApart(s, sel) && Cached(s, s)
    requires Call(s, use32, sel, offset, oldEip).Done?
    requires CalleeKept(s, Call(s, use32, sel, offset, oldEip).s, t, InnerTop(s, sel), GateOf(s, sel).Params(), oldEip)
    ensures var o := Ret(t, true, 4 * GateOf(s, sel).Params());
            o.Done? && Resumed(s, o.s, GateOf(s, sel).Params(), oldEip)
  {
    hide Call, Ret, Lookup, TaskStack, Stacked, Bit, At, Clear, AgreeAbove, FrameOf, StackAddress, EntryAddress;
    CallBuildsFrame(s, use32, sel, offset, oldEip);
    var c := Call(s, use32, sel, offset, oldEip).s;
    var top, k := InnerTop(s, sel), GateOf(s, sel).Params();
    EntryUntouched(s, c, top, FrameSize(k), s.cs.val);
    EntryUntouched(s, c, top, FrameSize(k), s.ss.val);
    SamePosition(c, t, top, FrameSize(k));
    ReturnResumes(s, t, top, k, oldEip);
  }

  lemma SamePosition(c: Cpu, t: Cpu, top: int, n: int)
    requires At(c, top, n) && t.ss == c.ss && t.esp == c.esp && t.stackBig == c.stackBig
    ensures At(t, top, n)
  {
  }

  /** In the frame the parameters stand in the caller's order, right above the return address. */
  lemma ParametersInOrder(s: Cpu, use32: bool, sel: word, offset: dword, oldEip: dword, i: nat)
    requires CallsInward(s, sel) && FrameApart(s, sel) && i < GateOf(s, sel).Params()
    ensures var c := Call(s, use32, sel, offset, oldEip).s;
            ReadD(c.mem, c.ss.phys + c.esp + 8 + 4 * i) == ReadD(s.mem, StackAddress(s, s.esp) + 4 * i)
    ensures var c := Call(s, use32, sel, offset, oldEip).s;
            ReadD(c.mem, c.ss.phys + c.esp) == oldEip && ReadD(c.mem, c.ss.phys + c.esp + 4) == s.cs.val
  {
    hide Call, CallsInward, FrameApart, ReadD, Address, StackAddress, CodeOf, InnerSs, Lookup;
    CallBuildsFrame(s, use32, sel, offset, oldEip);
    var c := Call(s, use32, sel, offset, oldEip).s;
    var top, k := InnerTop(s, sel), GateOf(s, sel).Params();
    var f := FrameOf(s, k, oldEip);
    FrameSlots(s, k, oldEip);
    ParamsAt(s.mem, StackAddress(s, s.esp), k, i);
    assert f[2 + (k - 1 - i)] == Params(s.mem, StackAddress(s, s.esp), k)[k - 1 - i];
    SlotAbove(c, top, FrameSize(k), k + 1 - i, f);
    SlotAbove(c, top, FrameSize(k), k + 2, f);
    SlotAbove(c, top, FrameSize(k), k + 3, f);
  }

  lemma SlotAbove(c: Cpu, top: int, n: nat, j: nat, vs: seq<dword>)
    requires At(c, top, n) && Stacked(c.mem, top, vs) && j < |vs|
    ensures ReadD(c.mem, c.ss.phys + c.esp + (n - 4 * j - 4)) == vs[j]
  {
    hide ReadD, Address;
    AddressStep(c.ss.phys + c.esp, top - n, n - 4 * j - 4);
    SameAddressD(c.mem, c.ss.phys + c.esp + (n - 4 * j - 4), SlotAddress(top, j));
    assert ReadD(c.mem, SlotAddress(top, j)) == vs[j];
  }
}
