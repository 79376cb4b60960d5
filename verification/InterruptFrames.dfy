/**
 Interrupts through gates of either width, to the same or an inner level, from protected and from
 virtual-8086 mode, and in real mode: the words they push, the flags the handler starts with, and what
 IRET makes of such words.
 */
module InterruptFrames {
  import opened Bits
  import opened CpuState
  import opened FarTransfers
  import opened PrivilegeProofs
  import opened GateProofs
  import opened StackWords
  import opened StraightTransfers
  import opened InterruptProofs
  import opened Words

  // ----- the handler's stack

  predicate IsIntGate(g: Descriptor) { g.Type() == 6 || g.Type() == 7 || g.Type() == 14 || g.Type() == 15 }

  /** The handler runs at an inner level. */
  predicate GoesIn(s: Cpu, num: nat) {
    IsNonConforming(HandlerCode(s, num).Type()) && HandlerCode(s, num).DPL() < s.cpl
  }

  /** The stack the words go to. */
  function HandlerBase(s: Cpu, num: nat): Cpu { if GoesIn(s, num) then OnInnerStack(s, num) else s }

  function V86Words(s: Cpu): seq<dword> { if V86(s) then [s.gs.val, s.fs.val, s.ds.val, s.es.val] else [] }

  /** What is pushed before any error code. */
  function Position(s: Cpu, num: nat, oldEip: dword): seq<dword> {
    (if GoesIn(s, num) then V86Words(s) + [s.ss.val, s.esp] else []) + [s.flags % 0x1_0000_0000, s.cs.val, oldEip]
  }

  function Pushed(s: Cpu, num: nat, kind: Kind, oldEip: dword): seq<dword> {
    Position(s, num, oldEip) + ErrorCode(s, kind)
  }

  lemma {:induction false} PushAllAppend(s: Cpu, use32: bool, a: seq<dword>, b: seq<dword>)
    ensures PushAll(PushAll(s, use32, a), use32, b) == PushAll(s, use32, a + b)
    decreases a
  {
    hide Push;
    if a == [] {
      assert a + b == b;
    } else {
      assert (a + b)[0] == a[0] && (a + b)[1..] == a[1..] + b;
      PushAllAppend(Push(s, use32, a[0]), use32, a[1..], b);
    }
  }

  lemma OnePush(s: Cpu, use32: bool, x: dword)
    ensures PushAll(s, use32, [x]) == Push(s, use32, x)
  {
    hide Push;
    assert PushAll(s, use32, [x]) == PushAll(Push(s, use32, x), use32, []);
  }

  lemma {:induction false} PushAllKeeps(s: Cpu, use32: bool, vs: seq<dword>)
    ensures PushAll(s, use32, vs) == s.(mem := PushAll(s, use32, vs).mem, esp := PushAll(s, use32, vs).esp)
    decreases vs
  {
    hide Push;
    if vs != [] {
      PushIs(s, use32, vs[0]);
      PushAllKeeps(Push(s, use32, vs[0]), use32, vs[1..]);
    }
  }

  lemma FrameIs(t: Cpu, gate: Descriptor, kind: Kind, oldEip: dword)
    ensures InterruptFrame(t, gate, kind, oldEip)
            == PushAll(t, gate.Is386(), [t.flags % 0x1_0000_0000, t.cs.val, oldEip] + ErrorCode(t, kind))
  {
    hide Push, PushAll, Descriptor.Is386;
    var w, f := gate.Is386(), t.flags % 0x1_0000_0000;
    OnePush(t, w, f);
    var t1 := Push(t, w, f);
    PushIs(t, w, f);
    TwoPushes(t1, w, t.cs.val, oldEip);
    PushAllAppend(t, w, [f], [t.cs.val, oldEip]);
    assert [f] + [t.cs.val as dword, oldEip] == [f, t.cs.val, oldEip];
    var t3 := PushAll(t, w, [f, t.cs.val, oldEip]);
    PushAllKeeps(t, w, [f, t.cs.val, oldEip]);
    OnePush(t3, w, t.error % 0x1_0000_0000);
    PushAllAppend(t, w, [f, t.cs.val, oldEip], ErrorCode(t, kind));
    NoPush(t3, w);
  }

  lemma NoPush(s: Cpu, use32: bool)
    ensures PushAll(s, use32, []) == s
  {
  }

  /** The data segment registers play no part in a push. */
  function WithData(s: Cpu, es: Segment, ds: Segment, fs: Segment, gs: Segment): Cpu { s.(es := es, ds := ds, fs := fs, gs := gs) }

  lemma PushIgnoresData(s: Cpu, use32: bool, v: dword, es: Segment, ds: Segment, fs: Segment, gs: Segment)
    ensures Push(WithData(s, es, ds, fs, gs), use32, v) == WithData(Push(s, use32, v), es, ds, fs, gs)
  {
    hide WriteD, WriteW;
  }

  lemma {:induction false} PushAllIgnoresData(s: Cpu, use32: bool, vs: seq<dword>, es: Segment, ds: Segment, fs: Segment, gs: Segment)
    ensures PushAll(WithData(s, es, ds, fs, gs), use32, vs) == WithData(PushAll(s, use32, vs), es, ds, fs, gs)
    decreases vs
  {
    hide Push, WithData;
    if vs != [] {
      PushIgnoresData(s, use32, vs[0], es, ds, fs, gs);
      PushAllIgnoresData(Push(s, use32, vs[0]), use32, vs[1..], es, ds, fs, gs);
    }
  }

  lemma DataAside(s: Cpu)
    ensures var t := NoData(s);
            && t.error == s.error && t.flags == s.flags && t.cs == s.cs && t.mem == s.mem && t.esp == s.esp && t.ss == s.ss
            && t.stackBig == s.stackBig && t.cpl == s.cpl
  {
  }

  function NoData(s: Cpu): Cpu { WithData(s, RealSegment(0), RealSegment(0), RealSegment(0), RealSegment(0)) }

  lemma FourPushes(s: Cpu, use32: bool, x: dword, y: dword, z: dword, u: dword)
    ensures PushAll(s, use32, [x, y, z, u]) == Push(Push(Push(Push(s, use32, x), use32, y), use32, z), use32, u)
  {
    hide Push, PushAll;
    var s2 := Push(Push(s, use32, x), use32, y);
    TwoPushes(s, use32, x, y);
    TwoPushes(s2, use32, z, u);
    PushAllAppend(s, use32, [x, y], [z, u]);
    assert [x, y] + [z, u] == [x, y, z, u];
  }

  lemma SegmentsPushed(s: Cpu)
    ensures PushV86Segments(s) == NoData(PushAll(s, true, [s.gs.val, s.fs.val, s.ds.val, s.es.val]))
  {
    hide Push32, PushAll;
    FourPushes(s, true, s.gs.val, s.fs.val, s.ds.val, s.es.val);
    SegmentsInTurn(s);
  }

  lemma SegmentsInTurn(s: Cpu)
    ensures PushV86Segments(s) == NoData(Push32(Push32(Push32(Push32(s, s.gs.val), s.fs.val), s.ds.val), s.es.val))
  {
    hide Push32;
    var z := RealSegment(0);
    var s1 := Push32(s, s.gs.val);
    var s2 := Push32(s1, s.fs.val);
    var s3 := Push32(s2, s.ds.val);
    PushKeepsRest(s, s.gs.val);
    PushKeepsRest(s1, s.fs.val);
    PushKeepsRest(s2, s.ds.val);
    PushKeepsRest(s3, s.es.val);
    PushIgnoresData(s1, true, s.fs.val, s.es, s.ds, s.fs, z);
    PushIgnoresData(s2, true, s.ds.val, s.es, s.ds, z, z);
    PushIgnoresData(s3, true, s.es.val, s.es, z, z, z);
  }

  /** What is pushed on the way to an inner level. */
  lemma InnerPushes(s: Cpu, num: nat)
    requires GoesIn(s, num) && InnerStack(s, IdtGate(s, num), HandlerCode(s, num).DPL()).Done?
    ensures var gate, b := IdtGate(s, num), OnInnerStack(s, num);
            InnerStack(s, gate, HandlerCode(s, num).DPL()).s
            == if V86(s) then NoData(PushAll(b, gate.Is386(), V86Words(s) + [s.ss.val, s.esp]))
               else PushAll(b, gate.Is386(), V86Words(s) + [s.ss.val, s.esp])
  {
    hide Push, PushAll, Lookup, IdtGate, TaskStack, Bit, SwitchStack, PushV86Segments, WithData, Descriptor.Is386, Descriptor.Type,
      Descriptor.DPL;
    var gate, b := IdtGate(s, num), OnInnerStack(s, num);
    var w := gate.Is386();
    KeepsData(s, num);
    if V86(s) {
      SegmentsPushed(b);
      var b4 := PushAll(b, true, V86Words(s));
      TwoPushes(PushV86Segments(b), w, s.ss.val, s.esp);
      PushAllIgnoresData(b4, true, [s.ss.val, s.esp], RealSegment(0), RealSegment(0), RealSegment(0), RealSegment(0));
      PushAllAppend(b, true, V86Words(s), [s.ss.val, s.esp]);
    } else {
      TwoPushes(b, w, s.ss.val, s.esp);
      assert [] + [s.ss.val as dword, s.esp] == [s.ss.val, s.esp];
    }
  }

  lemma KeepsData(s: Cpu, num: nat)
    ensures var b := OnInnerStack(s, num);
            && b.es == s.es && b.ds == s.ds && b.fs == s.fs && b.gs == s.gs && b.cs == s.cs && b.flags == s.flags && b.error == s.error
            && b.mem == s.mem && b.cpl == HandlerCode(s, num).DPL()
  {
    hide Lookup, IdtGate, TaskStack;
  }

  // ----- entering the handler

  /** All that the handler finds on its stack, from the stack pointer up. */
  function HandlerWords(s: Cpu, num: nat, kind: Kind, oldEip: dword): seq<dword> {
    OnStack(IdtGate(s, num).Is386(), Pushed(s, num, kind, oldEip))
  }

  lemma PushedParts(s: Cpu, num: nat, kind: Kind, oldEip: dword)
    ensures Pushed(s, num, kind, oldEip)
            == (if GoesIn(s, num) then V86Words(s) + [s.ss.val, s.esp] else [])
               + ([s.flags % 0x1_0000_0000, s.cs.val, oldEip] + ErrorCode(s, kind))
    ensures |Pushed(s, num, kind, oldEip)| <= 10
  {
    hide Lookup, IdtGate, Bit, GoesIn;
  }

  /** The state the handler starts in, apart from CS, EIP and the flags. */
  function HandlerStackIs(s: Cpu, num: nat, kind: Kind, oldEip: dword): Cpu {
    var t := PushAll(HandlerBase(s, num), IdtGate(s, num).Is386(), Pushed(s, num, kind, oldEip));
    if GoesIn(s, num) && V86(s) then NoData(t) else t
  }

  /** An interrupt that is taken through a gate is delivered through it. */
  lemma TakenIsDelivered(s: Cpu, num: nat, kind: Kind, oldEip: dword)
    requires s.pmode && IsIntGate(IdtGate(s, num)) && Interrupt(s, num, kind, oldEip).Done?
    ensures Interrupt(s, num, kind, oldEip) == GateInterrupt(s, IdtGate(s, num), kind, oldEip)
    ensures num * 8 < s.idt.limit && (kind.software ==> s.cpl <= IdtGate(s, num).DPL())
    ensures V86(s) && kind.software && !kind.noIoplCheck ==> Iopl(s.flags) == 3
  {
    hide GateInterrupt, IdtGate, Bit, TaskInterrupt, Descriptor.Type, Descriptor.DPL;
  }

  /** Both ways to the handler in one: the pushes and then the entry. */
  lemma DeliveredFrom(s: Cpu, num: nat, kind: Kind, oldEip: dword)
    requires GateInterrupt(s, IdtGate(s, num), kind, oldEip).Done?
    ensures var gate, code := IdtGate(s, num), HandlerCode(s, num);
            var b := if GoesIn(s, num) then InnerStack(s, gate, code.DPL()) else Done(s);
            b.Done? && GateInterrupt(s, gate, kind, oldEip) == Done(EnterHandler(b.s, gate, code, kind, oldEip))
  {
    hide InnerStack, EnterHandler, Lookup, IdtGate, Bit, Descriptor.Type, Descriptor.DPL;
  }

  lemma FrameOnBase(s: Cpu, num: nat, kind: Kind, oldEip: dword)
    requires GateInterrupt(s, IdtGate(s, num), kind, oldEip).Done?
    ensures var gate, code := IdtGate(s, num), HandlerCode(s, num);
            var b := if GoesIn(s, num) then InnerStack(s, gate, code.DPL()) else Done(s);
            b.Done? && InterruptFrame(b.s, gate, kind, oldEip) == HandlerStackIs(s, num, kind, oldEip)
  {
    hide GateInterrupt, InnerStack, EnterHandler, Lookup, IdtGate, TaskStack, Bit, PushAll, InterruptFrame, SwitchStack, WithData,
      ErrorCode, Descriptor.Type, Descriptor.DPL, Descriptor.Is386;
    var gate, code := IdtGate(s, num), HandlerCode(s, num);
    var w, vs, rest := gate.Is386(), V86Words(s) + [s.ss.val, s.esp], [s.flags % 0x1_0000_0000, s.cs.val, oldEip] + ErrorCode(s, kind);
    DeliveredFrom(s, num, kind, oldEip);
    PushedParts(s, num, kind, oldEip);
    if GoesIn(s, num) {
      var b := OnInnerStack(s, num);
      InnerPushes(s, num);
      KeepsData(s, num);
      PushAllKeeps(b, w, vs);
      PushAllAppend(b, w, vs, rest);
      var o := InnerStack(s, gate, code.DPL());
      DataAside(PushAll(b, w, vs));
      FrameIs(o.s, gate, kind, oldEip);
      SameError(s, o.s, kind);
      assert [o.s.flags % 0x1_0000_0000, o.s.cs.val, oldEip] + ErrorCode(o.s, kind) == rest;
      PushAllIgnoresData(PushAll(b, w, vs), w, rest, RealSegment(0), RealSegment(0), RealSegment(0), RealSegment(0));
    } else {
      FrameIs(s, gate, kind, oldEip);
      assert [] + rest == rest;
    }
  }

  lemma SameError(s: Cpu, t: Cpu, kind: Kind)
    requires t.error == s.error
    ensures ErrorCode(t, kind) == ErrorCode(s, kind)
  {
  }

  /**
   A completed interrupt through a gate: the handler's segment, offset and level, the words on its stack
   at the width of the gate, memory elsewhere untouched, and from virtual-8086 mode empty data segments.
   */
  lemma HandlerEntry(s: Cpu, num: nat, kind: Kind, oldEip: dword)
    requires s.pmode && IsIntGate(IdtGate(s, num)) && Interrupt(s, num, kind, oldEip).Done?
    ensures var c, gate, code, b := Interrupt(s, num, kind, oldEip).s, IdtGate(s, num), HandlerCode(s, num), HandlerBase(s, num);
            var n := |Pushed(s, num, kind, oldEip)|;
            && c.cs.phys == code.Base() && c.cs.val / 4 == gate.Selector() / 4 && c.cs.val % 4 == c.cpl == b.cpl
            && c.codeBig == code.Big() && c.eip == gate.Offset()
            && c.ss == b.ss && c.stackBig == b.stackBig && c.esp == Moved(b, b.esp, -(n * Width(gate.Is386()))) && c.pmode
            && Frame(c, gate.Is386(), HandlerWords(s, num, kind, oldEip)) && Untouched(c.mem, b, gate.Is386(), n) && b.mem == s.mem
            && c.gdt == s.gdt && c.ldt == s.ldt && c.task == s.task && c.gpr == s.gpr
            && (if GoesIn(s, num) && V86(s) then forall name :: name != SS ==> GetSeg(c, name) == Segment(0, 0)
                else forall name :: name != SS ==> GetSeg(c, name) == GetSeg(s, name))
  {
    hide Interrupt, GateInterrupt, InnerStack, InterruptFrame, Lookup, IdtGate, TaskStack, Bit, PushAll, ErrorCode, Moved,
      ClearInterruptFlags, PeekAt, Untouched, Pushed, OnStack, Descriptor.Type, Descriptor.DPL, Descriptor.Is386, Descriptor.Base,
      Descriptor.Big, Descriptor.Selector, Descriptor.Offset;
    TakenIsDelivered(s, num, kind, oldEip);
    DeliveredFrom(s, num, kind, oldEip);
    FrameOnBase(s, num, kind, oldEip);
    PushedParts(s, num, kind, oldEip);
    var w, b, vs := IdtGate(s, num).Is386(), HandlerBase(s, num), Pushed(s, num, kind, oldEip);
    PushesBuild(b, w, vs, []);
    var t := PushAll(b, w, vs);
    assert OnStack(w, vs) + [] == HandlerWords(s, num, kind, oldEip);
    KeepsData(s, num);
    var c := Interrupt(s, num, kind, oldEip).s;
    SameLevelSelector(IdtGate(s, num).Selector(), b.cpl);
    SameFrame(t, c, w, HandlerWords(s, num, kind, oldEip));
  }

  // ----- the flags of the handler

  /**
   The handler starts with the interrupted program's flags, but for TF, NT and VM, which are clear, and
   IF, which is clear unless the gate is a trap gate.
   */
  lemma HandlerFlags(s: Cpu, num: nat, kind: Kind, oldEip: dword, k: nat)
    requires s.pmode && IsIntGate(IdtGate(s, num)) && Interrupt(s, num, kind, oldEip).Done?
    ensures var gate := IdtGate(s, num);
            Bit(Interrupt(s, num, kind, oldEip).s.flags, k)
            <==> Bit(s.flags, k) && k != TF_BIT && k != NT_BIT && k != VM_BIT
                 && (k == IF_BIT ==> gate.Type() == 7 || gate.Type() == 15)
  {
    hide Interrupt, GateInterrupt, InnerStack, InterruptFrame, Lookup, IdtGate, TaskStack, Bit, PushAll, ErrorCode, Moved, SetBit,
      Pushed, Descriptor.Type, Descriptor.DPL, Descriptor.Is386, Descriptor.Base, Descriptor.Big, Descriptor.Selector,
      Descriptor.Offset;
    TakenIsDelivered(s, num, kind, oldEip);
    DeliveredFrom(s, num, kind, oldEip);
    FrameOnBase(s, num, kind, oldEip);
    var gate, b := IdtGate(s, num), HandlerBase(s, num);
    PushAllKeeps(b, gate.Is386(), Pushed(s, num, kind, oldEip));
    KeepsData(s, num);
    var f1 := if gate.Type() % 2 == 0 then SetBit(s.flags, IF_BIT, false) else s.flags;
    SetBitBits(s.flags, IF_BIT, false, k);
    SetBitBits(f1, TF_BIT, false, k);
    SetBitBits(SetBit(f1, TF_BIT, false), NT_BIT, false, k);
    SetBitBits(SetBit(SetBit(f1, TF_BIT, false), NT_BIT, false), VM_BIT, false, k);
  }
}
