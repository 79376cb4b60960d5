/**
 Interrupts undone by IRET: at the same level and inward, through gates of both widths, from virtual-8086
 mode, and in real mode.
 */
module InterruptTrips {
  import opened Bits
  import opened CpuState
  import opened FarTransfers
  import opened PrivilegeProofs
  import opened GateProofs
  import opened StackWords
  import opened StraightTransfers
  import opened InterruptProofs
  import opened InterruptFrames
  import opened IretFrames
  import opened Words

  lemma {:induction false} OnStackAppend(use32: bool, a: seq<dword>, b: seq<dword>)
    ensures OnStack(use32, a + b) == OnStack(use32, b) + OnStack(use32, a)
    decreases a
  {
    if a == [] {
      assert a + b == b && OnStack(use32, b) + [] == OnStack(use32, b);
    } else {
      assert (a + b)[0] == a[0] && (a + b)[1..] == a[1..] + b;
      OnStackAppend(use32, a[1..], b);
    }
  }

  // ----- what the handler keeps

  /** The words above any error code: where to go on, and in which state. */
  function PositionWords(s: Cpu, num: nat, use32: bool, oldEip: dword): seq<dword> {
    [Kept(use32, oldEip), s.cs.val, Kept(use32, s.flags % 0x1_0000_0000)]
    + (if GoesIn(s, num) then [Kept(use32, s.esp), s.ss.val] else [])
    + (if GoesIn(s, num) && V86(s) then [s.es.val, s.ds.val, s.fs.val, s.gs.val] else [])
  }

  lemma ThreeOnStack(use32: bool, x: dword, y: dword, z: dword)
    ensures OnStack(use32, [x, y, z]) == [Kept(use32, z), Kept(use32, y), Kept(use32, x)]
  {
    assert [x, y, z][1..] == [y, z] && [y, z][1..] == [z] && [z][1..] == [];
    assert OnStack(use32, [z]) == [Kept(use32, z)] && OnStack(use32, [y, z]) == [Kept(use32, z), Kept(use32, y)];
  }

  lemma TwoOnStack(use32: bool, x: dword, y: dword)
    ensures OnStack(use32, [x, y]) == [Kept(use32, y), Kept(use32, x)]
  {
    assert [x, y][1..] == [y] && [y][1..] == [];
    assert OnStack(use32, [y]) == [Kept(use32, y)];
  }

  lemma FourOnStack(use32: bool, x: dword, y: dword, z: dword, u: dword)
    ensures OnStack(use32, [x, y, z, u]) == [Kept(use32, u), Kept(use32, z), Kept(use32, y), Kept(use32, x)]
  {
    assert [x, y] + [z, u] == [x, y, z, u];
    OnStackAppend(use32, [x, y], [z, u]);
    TwoOnStack(use32, x, y);
    TwoOnStack(use32, z, u);
  }

  lemma KeepsWord(use32: bool, v: word)
    ensures Kept(use32, v) == v
  {
  }

  lemma InnerOnStack(s: Cpu, use32: bool)
    ensures OnStack(use32, V86Words(s) + [s.ss.val, s.esp])
            == [Kept(use32, s.esp), s.ss.val] + if V86(s) then [s.es.val, s.ds.val, s.fs.val, s.gs.val] else []
  {
    hide Kept, V86, OnStack;
    OnStackAppend(use32, V86Words(s), [s.ss.val, s.esp]);
    TwoOnStack(use32, s.ss.val, s.esp);
    FourOnStack(use32, s.gs.val, s.fs.val, s.ds.val, s.es.val);
    NoneOnStack(use32);
    KeepsWord(use32, s.ss.val);
    KeepsWord(use32, s.es.val);
    KeepsWord(use32, s.ds.val);
    KeepsWord(use32, s.fs.val);
    KeepsWord(use32, s.gs.val);
  }

  lemma NoneOnStack(use32: bool)
    ensures OnStack(use32, []) == []
  {
  }

  /** Above the error code, if any, the handler's stack holds the position. */
  lemma HandlerWordsAre(s: Cpu, num: nat, kind: Kind, oldEip: dword)
    ensures var w := IdtGate(s, num).Is386();
            HandlerWords(s, num, kind, oldEip) == OnStack(w, ErrorCode(s, kind)) + PositionWords(s, num, w, oldEip)
    ensures |OnStack(IdtGate(s, num).Is386(), ErrorCode(s, kind))| == if kind.hasError then 1 else 0
  {
    hide Kept, V86, OnStack, IdtGate, GoesIn, V86Words, Descriptor.Is386;
    var w := IdtGate(s, num).Is386();
    var where: seq<dword> := [s.flags % 0x1_0000_0000, s.cs.val, oldEip];
    OnStackAppend(w, Position(s, num, oldEip), ErrorCode(s, kind));
    ThreeOnStack(w, s.flags % 0x1_0000_0000, s.cs.val, oldEip);
    KeepsWord(w, s.cs.val);
    if GoesIn(s, num) {
      InnerOnStack(s, w);
      OnStackAppend(w, V86Words(s) + [s.ss.val, s.esp], where);
      Regroup3(OnStack(w, where), [Kept(w, s.esp), s.ss.val], if V86(s) then [s.es.val, s.ds.val, s.fs.val, s.gs.val] else []);
    } else {
      assert [] + where == where && OnStack(w, where) + [] + [] == OnStack(w, where);
    }
  }

  lemma Regroup3(a: seq<dword>, b: seq<dword>, c: seq<dword>)
    ensures a + (b + c) == a + b + c
  {
  }

  /**
   About to execute IRET: the handler's mode, level and stack, any error code taken off, and the words
   above it as the interrupt left them.
   */
  ghost predicate FrameKept(s: Cpu, num: nat, kind: Kind, oldEip: dword, c: Cpu, t: Cpu) {
    var w := IdtGate(s, num).Is386();
    && Irets(t) && t.cpl == c.cpl && t.ss == c.ss && t.stackBig == c.stackBig
    && t.esp == Moved(c, c.esp, if kind.hasError then Width(w) else 0)
    && Frame(t, w, PositionWords(s, num, w, oldEip))
  }

  /** The handler can do nothing and meet this: its own stack holds the words. */
  lemma HandlerCanReturn(s: Cpu, num: nat, kind: Kind, oldEip: dword)
    requires s.pmode && IsIntGate(IdtGate(s, num)) && Interrupt(s, num, kind, oldEip).Done?
    ensures var c, w := Interrupt(s, num, kind, oldEip).s, IdtGate(s, num).Is386();
            FrameKept(s, num, kind, oldEip, c, if kind.hasError then Popped(c, w) else c)
  {
    hide Interrupt, IdtGate, PositionWords, HandlerWords, ErrorCode, OnStack, Moved, Frame, Bit, GoesIn, Untouched, HandlerBase,
      Pushed, Descriptor.Type, Descriptor.Is386;
    HandlerEntry(s, num, kind, oldEip);
    HandlerFlags(s, num, kind, oldEip, NT_BIT);
    HandlerFlags(s, num, kind, oldEip, VM_BIT);
    HandlerWordsAre(s, num, kind, oldEip);
    var c, w := Interrupt(s, num, kind, oldEip).s, IdtGate(s, num).Is386();
    MovedNowhere(c, c.esp);
    CodeTakenOff(c, w, OnStack(w, ErrorCode(s, kind)), PositionWords(s, num, w, oldEip));
  }

  lemma CodeTakenOff(c: Cpu, use32: bool, code: seq<dword>, words: seq<dword>)
    requires Frame(c, use32, code + words) && |code| <= 1
    ensures Frame(if |code| == 1 then Popped(c, use32) else c, use32, words)
  {
    hide Moved, PeekAt;
    if |code| == 1 {
      forall i: nat | i < |words|
        ensures PeekAt(Popped(c, use32), use32, i) == words[i]
      {
        PopIs(c, use32, i);
        assert PeekAt(c, use32, i + 1) == (code + words)[i + 1];
      }
    } else {
      assert code + words == words;
    }
  }

  // ----- the flags

  /** The flags IRET may write are the interrupted program's, as far as the frame holds them; the others are the handler's. */
  ghost predicate FlagsBack(f: nat, s: Cpu, t: Cpu, use32: bool) {
    forall k: nat :: Bit(f, k) == (k == 1 || if Writable(t, k) && (use32 || k < 16) then Bit(s.flags, k) else Bit(t.flags, k))
  }

  lemma LowerBits(x: nat, k: nat)
    requires k < 16
    ensures Bit(x % 0x1_0000, k) == Bit(x, k)
  {
    hide Bit;
    WithUpper(x % 0x1_0000, x, k);
    WholeOf(x);
    SameLower(x, k);
  }

  lemma WholeOf(x: nat)
    ensures x == x % 0x1_0000 + x / 0x1_0000 * 0x1_0000
  {
  }

  lemma SameLower(x: nat, k: nat)
    requires x == x % 0x1_0000 + x / 0x1_0000 * 0x1_0000
    ensures Bit(x % 0x1_0000 + x / 0x1_0000 * 0x1_0000, k) == Bit(x, k)
  {
    hide Bit;
  }

  lemma GetsBack(f: nat, s: Cpu, t: Cpu, use32: bool)
    requires FlagsTaken(f, t, use32, Kept(use32, s.flags % 0x1_0000_0000)) && s.flags < 0x1_0000_0000
    ensures FlagsBack(f, s, t, use32)
  {
    hide Bit, Writable;
    forall k: nat
      ensures Bit(f, k) == (k == 1 || if Writable(t, k) && (use32 || k < 16) then Bit(s.flags, k) else Bit(t.flags, k))
    {
      if !use32 && k < 16 {
        LowerBits(s.flags, k);
      }
    }
  }

  // ----- at the same level

  /** CS holds what the selector in it names, at its level. */
  predicate CodeIs(s: Cpu, t: Cpu) {
    var d := Lookup(t, s.cs.val);
    IsCode(d.Type()) && d.Base() == s.cs.phys && d.Big() == s.codeBig && Rpl(s.cs.val) == s.cpl
  }

  lemma BackToStart(s: Cpu, c: Cpu, t: Cpu, use32: bool, n: nat, m: nat)
    requires c.ss == s.ss && c.stackBig == s.stackBig && t.ss == c.ss && t.stackBig == c.stackBig
    requires c.esp == Moved(s, s.esp, -((n + m) * Width(use32))) && t.esp == Moved(c, c.esp, m * Width(use32))
    ensures Moved(t, t.esp, n * Width(use32)) == s.esp
  {
    hide Moved, StackAddress;
    var w := Width(use32);
    SamePointers(s, c, c.esp, m * w);
    MovedSum(s, s.esp, -((n + m) * w), m * w);
    assert -((n + m) * w) + m * w == -(n * w);
    SamePointers(s, t, t.esp, n * w);
    MovedSum(s, s.esp, -(n * w), n * w);
    MovedNowhere(s, s.esp);
  }

  lemma StaysPushed(s: Cpu, num: nat, kind: Kind, oldEip: dword)
    requires !GoesIn(s, num)
    ensures |Pushed(s, num, kind, oldEip)| == 3 + if kind.hasError then 1 else 0
    ensures HandlerBase(s, num) == s
    ensures PositionWords(s, num, IdtGate(s, num).Is386(), oldEip)
            == [Kept(IdtGate(s, num).Is386(), oldEip), s.cs.val, Kept(IdtGate(s, num).Is386(), s.flags % 0x1_0000_0000)]
  {
    hide GoesIn, IdtGate, Kept, Descriptor.Is386;
  }

  /** An interrupt that stays at its level is undone, whatever the width of its gate and of the stack. */
  lemma SameLevelTrip(s: Cpu, num: nat, kind: Kind, oldEip: dword, t: Cpu, back: dword)
    requires s.pmode && !V86(s) && s.flags < 0x1_0000_0000 && IsIntGate(IdtGate(s, num)) && !GoesIn(s, num)
    requires Interrupt(s, num, kind, oldEip).Done?
    requires FrameKept(s, num, kind, oldEip, Interrupt(s, num, kind, oldEip).s, t) && CodeIs(s, t)
    ensures var w := IdtGate(s, num).Is386();
            var o := Iret(t, w, back);
            && o.Done? && FlagsBack(o.s.flags, s, t, w)
            && o.s == t.(cs := s.cs, codeBig := s.codeBig, eip := Kept(w, oldEip), esp := s.esp, flags := o.s.flags)
  {
    hide Interrupt, Iret, IdtGate, PositionWords, HandlerWords, HandlerBase, Pushed, Moved, Frame, Bit, GoesIn, Untouched, FlagsBack,
      FlagsTaken, Lookup, Rpl, Descriptor.Type, Descriptor.Is386, Descriptor.Base, Descriptor.Big, Descriptor.Selector,
      Descriptor.Offset;
    var w, c := IdtGate(s, num).Is386(), Interrupt(s, num, kind, oldEip).s;
    HandlerEntry(s, num, kind, oldEip);
    StaysPushed(s, num, kind, oldEip);
    BackToStart(s, c, t, w, 3, if kind.hasError then 1 else 0);
    PlainHasNoVm(s, w);
    IretStays(t, w, Kept(w, oldEip), s.cs.val, Kept(w, s.flags % 0x1_0000_0000), back);
    GetsBack(Iret(t, w, back).s.flags, s, t, w);
  }

  lemma PlainHasNoVm(s: Cpu, use32: bool)
    requires !V86(s) && s.flags < 0x1_0000_0000
    ensures !(use32 && Bit(Kept(use32, s.flags % 0x1_0000_0000), VM_BIT))
  {
    hide Bit;
  }

  // ----- to an inner level

  lemma InnerPosition(s: Cpu, num: nat, oldEip: dword)
    requires GoesIn(s, num) && !V86(s)
    ensures var w := IdtGate(s, num).Is386();
            PositionWords(s, num, w, oldEip)
            == [Kept(w, oldEip), s.cs.val, Kept(w, s.flags % 0x1_0000_0000), Kept(w, s.esp), s.ss.val]
  {
    hide GoesIn, V86, IdtGate, Kept, Descriptor.Is386;
  }

  /** Where the interrupted program's stack pointer is after the return; a 16-bit frame or stack does not carry all of it. */
  function EspBack(s: Cpu, t: Cpu, use32: bool): dword {
    if s.stackBig then Kept(use32, s.esp) else t.esp / 0x1_0000 * 0x1_0000 + s.esp % 0x1_0000
  }

  lemma LowOfKept(use32: bool, x: dword)
    ensures Kept(use32, x) % 0x1_0000 == x % 0x1_0000
  {
  }

  /** An interrupt to an inner level is undone, whatever the widths of gate and stacks. */
  lemma InwardTrip(s: Cpu, num: nat, kind: Kind, oldEip: dword, t: Cpu, back: dword)
    requires s.pmode && !V86(s) && s.flags < 0x1_0000_0000 && IsIntGate(IdtGate(s, num)) && GoesIn(s, num) && Rpl(s.cs.val) == s.cpl
    requires Interrupt(s, num, kind, oldEip).Done?
    requires FrameKept(s, num, kind, oldEip, Interrupt(s, num, kind, oldEip).s, t) && Cached(s, t)
    ensures var w := IdtGate(s, num).Is386();
            var o := Iret(t, w, back);
            && o.Done? && FlagsBack(o.s.flags, s, t, w)
            && o.s.cs == s.cs && o.s.codeBig == s.codeBig && o.s.eip == Kept(w, oldEip) && o.s.cpl == s.cpl
            && o.s.ss == s.ss && o.s.stackBig == s.stackBig && o.s.esp == EspBack(s, t, w)
            && o.s.mem == t.mem && o.s.gpr == t.gpr
            && Usable(o.s, ES) && Usable(o.s, DS) && Usable(o.s, FS) && Usable(o.s, GS)
  {
    hide Interrupt, Iret, IdtGate, PositionWords, HandlerWords, Pushed, Moved, Frame, Bit, Untouched, FlagsBack, Kept, Usable,
      FlagsTaken, Lookup, Rpl, Descriptor.Type, Descriptor.Is386, Descriptor.Base, Descriptor.Big, Descriptor.Selector,
      Descriptor.Offset, Descriptor.DPL, TaskStack;
    var w := IdtGate(s, num).Is386();
    HandlerEntry(s, num, kind, oldEip);
    KeepsData(s, num);
    InnerPosition(s, num, oldEip);
    PlainHasNoVm(s, w);
    LowOfKept(w, s.esp);
    IretLeaves(t, w, Kept(w, oldEip), s.cs.val, Kept(w, s.flags % 0x1_0000_0000), Kept(w, s.esp), s.ss.val, back);
    GetsBack(Iret(t, w, back).s.flags, s, t, w);
  }

  // ----- from virtual-8086 mode

  /** What the interrupt saves of a virtual-8086 program. */
  function V86Position(s: Cpu, oldEip: dword): V86Frame {
    V86Frame(oldEip, s.cs.val, s.flags % 0x1_0000_0000, s.esp, s.ss.val, s.es.val, s.ds.val, s.fs.val, s.gs.val)
  }

  lemma V86PositionWords(s: Cpu, num: nat, oldEip: dword)
    requires GoesIn(s, num) && V86(s)
    ensures PositionWords(s, num, true, oldEip) == V86Position(s, oldEip).Words()
  {
    hide GoesIn, V86;
  }

  /** From virtual-8086 mode only a 386 gate leads inward. */
  lemma V86NeedsWideGate(s: Cpu, num: nat, kind: Kind, oldEip: dword)
    requires s.pmode && V86(s) && IsIntGate(IdtGate(s, num)) && GoesIn(s, num) && Interrupt(s, num, kind, oldEip).Done?
    ensures IdtGate(s, num).Is386()
  {
    hide Interrupt, GateInterrupt, IdtGate, Lookup, TaskStack, Bit, EnterHandler, PushV86Segments, SwitchStack, Descriptor.Type,
      Descriptor.DPL, Descriptor.Is386;
    TakenIsDelivered(s, num, kind, oldEip);
    DeliveredFrom(s, num, kind, oldEip);
  }

  /** The segment registers of virtual-8086 mode hold segment numbers. */
  predicate RealCached(s: Cpu) {
    && s.cs == RealSegment(s.cs.val) && s.ss == RealSegment(s.ss.val) && s.es == RealSegment(s.es.val)
    && s.ds == RealSegment(s.ds.val) && s.gs == RealSegment(s.gs.val) && !s.codeBig && !s.stackBig
  }

  /** The virtual-8086 program as it was, apart from the flags; FS keeps the base the host uses. */
  ghost predicate V86Resumed(s: Cpu, u: Cpu, oldEip: dword) {
    && u.cs == s.cs && u.ss == s.ss && u.es == s.es && u.ds == s.ds && u.gs == s.gs && u.fs.val == s.fs.val && u.fs.phys == u.fsBase
    && u.eip == oldEip % 0x1_0000 && u.esp == s.esp && u.cpl == 3 && !u.codeBig && !u.stackBig && V86(u)
  }

  /** An interrupt out of virtual-8086 mode to level 0, and back: all six segment registers, the stack and the flags. */
  lemma V86Trip(s: Cpu, num: nat, kind: Kind, oldEip: dword, t: Cpu, back: dword)
    requires s.pmode && V86(s) && RealCached(s) && s.flags < 0x1_0000_0000 && IsIntGate(IdtGate(s, num)) && GoesIn(s, num)
    requires HandlerCode(s, num).DPL() == 0 && Interrupt(s, num, kind, oldEip).Done?
    requires FrameKept(s, num, kind, oldEip, Interrupt(s, num, kind, oldEip).s, t)
    ensures var o := Iret(t, true, back);
            && o.Done? && V86Resumed(s, o.s, oldEip) && o.s.mem == t.mem && o.s.gpr == t.gpr
            && V86FlagsTaken(o.s.flags, t, s.flags)
  {
    hide Interrupt, Iret, IdtGate, PositionWords, HandlerWords, Pushed, Moved, Frame, Bit, Untouched, Lookup, TaskStack, GoesIn,
      V86FlagsTaken, V86Frame.Words, Descriptor.Type, Descriptor.Is386, Descriptor.Base, Descriptor.Big, Descriptor.Selector,
      Descriptor.Offset, Descriptor.DPL, WithRpl;
    HandlerEntry(s, num, kind, oldEip);
    KeepsData(s, num);
    V86NeedsWideGate(s, num, kind, oldEip);
    V86PositionWords(s, num, oldEip);
    var f := V86Position(s, oldEip);
    IretToV86Enters(t, f, back);
    VmTaken(Iret(t, true, back).s.flags, t, s.flags);
  }

  lemma VmTaken(f: nat, t: Cpu, popped: dword)
    requires V86FlagsTaken(f, t, popped) && Bit(popped, VM_BIT)
    ensures Bit(f, VM_BIT)
  {
    hide Bit;
  }

  // ----- in real mode

  /**
   An interrupt in real mode takes its vector from the four bytes of its number, clears IF and TF and
   leaves IP, CS and the flags on the stack.
   */
  lemma RealInterruptEnters(s: Cpu, num: nat, kind: Kind, oldEip: dword)
    requires !s.pmode
    ensures var o, entry := Interrupt(s, num, kind, oldEip), s.idt.base + 4 * num;
            && o.Done?
            && o.s == s.(mem := o.s.mem, esp := Moved(s, s.esp, -6), cs := o.s.cs, codeBig := false, eip := o.s.eip, flags := o.s.flags)
            && Frame(o.s, false, [oldEip % 0x1_0000, s.cs.val, s.flags % 0x1_0000]) && Untouched(o.s.mem, s, false, 3)
            && o.s.eip == ReadW(o.s.mem, entry) && o.s.cs.val == ReadW(o.s.mem, entry + 2) && o.s.cs.phys == 16 * o.s.cs.val
            && forall k: nat :: Bit(o.s.flags, k) <==> Bit(s.flags, k) && k != IF_BIT && k != TF_BIT
  {
    hide Push, Push16, PushFrame, Moved, StackAddress, Frame, Untouched, Bit, SetBit, ReadW;
    RealPushes(s, oldEip);
    var t, c := PushFrame(Push16(s, s.flags % 0x1_0000), false, oldEip), Interrupt(s, num, kind, oldEip).s;
    SameFrame(t, c, false, [oldEip % 0x1_0000, s.cs.val, s.flags % 0x1_0000]);
    forall k: nat
      ensures Bit(c.flags, k) <==> Bit(s.flags, k) && k != IF_BIT && k != TF_BIT
    {
      SetBitBits(s.flags, IF_BIT, false, k);
      SetBitBits(SetBit(s.flags, IF_BIT, false), TF_BIT, false, k);
    }
  }

  lemma RealPushes(s: Cpu, oldEip: dword)
    ensures var t := PushFrame(Push16(s, s.flags % 0x1_0000), false, oldEip);
            && t == s.(mem := t.mem, esp := Moved(s, s.esp, -6)) && Untouched(t.mem, s, false, 3)
            && Frame(t, false, [oldEip % 0x1_0000, s.cs.val, s.flags % 0x1_0000])
  {
    hide Push, Push16, Moved, StackAddress, Frame, Untouched, OnStack, PushAll;
    var vs: seq<dword> := [s.flags % 0x1_0000, s.cs.val, oldEip];
    EmptyFrame(s);
    PushesBuild(s, false, vs, []);
    ThreePushes(s, false, s.flags % 0x1_0000, s.cs.val, oldEip);
    ThreeOnStack(false, s.flags % 0x1_0000, s.cs.val, oldEip);
    SixteenPush(s, s.flags % 0x1_0000);
    PushIs(s, false, s.flags % 0x1_0000);
    assert -(|vs| * Width(false)) == -6;
    assert OnStack(false, vs) + [] == [oldEip % 0x1_0000, s.cs.val, s.flags % 0x1_0000];
  }

  lemma EmptyFrame(s: Cpu)
    ensures Frame(s, false, [])
  {
  }

  lemma SixteenPush(s: Cpu, v: word)
    ensures Push16(s, v) == Push(s, false, v)
  {
    hide Push16;
  }

  lemma ThreePushes(s: Cpu, use32: bool, x: dword, y: dword, z: dword)
    ensures PushAll(s, use32, [x, y, z]) == Push(Push(Push(s, use32, x), use32, y), use32, z)
  {
    hide Push, PushAll;
    OnePush(s, use32, x);
    TwoPushes(Push(s, use32, x), use32, y, z);
    PushAllAppend(s, use32, [x], [y, z]);
    assert [x] + [y, z] == [x, y, z];
  }

  /** In real mode the flags are those of the frame, but for the upper half and what IRET does not write. */
  ghost predicate RealFlagsBack(f: nat, s: Cpu, t: Cpu) {
    forall k: nat :: k != 21 ==> Bit(f, k) == (k == 1 || if WritableReal(t, false, k) then Bit(s.flags, k) else Bit(t.flags, k))
  }

  lemma RealTrip(s: Cpu, num: nat, kind: Kind, oldEip: dword, t: Cpu, back: dword)
    requires !s.pmode && s.cs == RealSegment(s.cs.val) && !s.codeBig
    requires !t.pmode && t.ss == s.ss && t.stackBig == s.stackBig && t.esp == Interrupt(s, num, kind, oldEip).s.esp
    requires Frame(t, false, [oldEip % 0x1_0000, s.cs.val, s.flags % 0x1_0000])
    ensures var o := Iret(t, false, back);
            && o.Done? && RealFlagsBack(o.s.flags, s, t)
            && o.s == t.(cs := s.cs, codeBig := false, eip := oldEip % 0x1_0000, esp := s.esp, flags := o.s.flags)
  {
    hide Interrupt, Iret, Moved, Frame, Bit, Untouched, RealFlagsTaken, ReadW;
    RealInterruptEnters(s, num, kind, oldEip);
    RealIretResumes(t, false, oldEip % 0x1_0000, s.cs.val, s.flags % 0x1_0000, back);
    MovedNowhere(Interrupt(s, num, kind, oldEip).s, t.esp);
    BackToStart(s, Interrupt(s, num, kind, oldEip).s, t, false, 3, 0);
    RealGetsBack(Iret(t, false, back).s.flags, s, t);
  }

  lemma RealGetsBack(f: nat, s: Cpu, t: Cpu)
    requires !t.pmode && RealFlagsTaken(f, t, false, s.flags % 0x1_0000)
    ensures RealFlagsBack(f, s, t)
  {
    hide Bit;
    forall k: nat | k != 21
      ensures Bit(f, k) == (k == 1 || if WritableReal(t, false, k) then Bit(s.flags, k) else Bit(t.flags, k))
    {
      if k < 16 {
        LowerBits(s.flags, k);
      }
    }
  }
}
