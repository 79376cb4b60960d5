/**
 Far calls, jumps and returns that stay on their stack: to a code segment, through a call gate of the
 same level, and in real and virtual-8086 mode; at both operand widths and on stacks of both sizes.
 */
module StraightTransfers {
  import opened Bits
  import opened CpuState
  import opened FarTransfers
  import opened PrivilegeProofs
  import opened GateProofs
  import opened StackWords
  import opened Words

  /** Selectors are segment numbers. */
  predicate RealLike(s: Cpu) { !s.pmode || V86(s) }

  /** The code segment a selector names. */
  predicate NamesCode(s: Cpu, sel: word) { RealLike(s) || IsCode(Lookup(s, sel).Type()) }

  /** The two words of a far call. */
  lemma CallPushes(s: Cpu, use32: bool, eip: dword)
    ensures var c := PushFrame(s, use32, eip);
            && c == s.(mem := c.mem, esp := Moved(s, s.esp, -2 * Width(use32)))
            && Frame(c, use32, [Kept(use32, eip), s.cs.val]) && Untouched(c.mem, s, use32, 2)
  {
    hide Push, Moved, StackAddress, PeekAt, Untouched;
    var vs: seq<dword> := [s.cs.val, eip];
    PushesBuild(s, use32, vs, []);
    assert vs[1..] == [eip] && [eip][1..] == [];
    assert -(|vs| * Width(use32)) == -2 * Width(use32);
    TwoPushes(s, use32, s.cs.val, eip);
    assert OnStack(use32, vs) + [] == [Kept(use32, eip), s.cs.val];
  }

  lemma TwoPushes(s: Cpu, use32: bool, x: dword, y: dword)
    ensures PushAll(s, use32, [x, y]) == Push(Push(s, use32, x), use32, y)
  {
    hide Push;
    assert [x, y][1..] == [y] && [y][1..] == [];
    assert PushAll(Push(s, use32, x), use32, [y]) == PushAll(Push(Push(s, use32, x), use32, y), use32, []);
  }

  /** CS names the segment of the selector at the current level, EIP the offset at the operand's width. */
  ghost predicate Enters(s: Cpu, c: Cpu, sel: word, eip: dword) {
    && (if RealLike(s) then c.cs.val == sel && c.cs.phys == 16 * sel && !c.codeBig
        else
          && c.cs.phys == Lookup(s, sel).Base() && c.codeBig == Lookup(s, sel).Big()
          && c.cs.val / 4 == sel / 4 && c.cs.val % 4 == s.cpl)
    && c.eip == eip
  }

  /**
   A completed far call to a code segment: it enters the segment at the offset, leaves the caller's CS
   and return address on the stack and changes nothing else.
   */
  lemma FarCallEnters(s: Cpu, use32: bool, sel: word, offset: dword, oldEip: dword)
    requires NamesCode(s, sel) && Call(s, use32, sel, offset, oldEip).Done?
    ensures var c := Call(s, use32, sel, offset, oldEip).s;
            && c == s.(mem := c.mem, esp := Moved(s, s.esp, -2 * Width(use32)), cs := c.cs, codeBig := c.codeBig, eip := c.eip)
            && Enters(s, c, sel, if use32 then offset else offset % 0x1_0000)
            && Frame(c, use32, [Kept(use32, oldEip), s.cs.val]) && Untouched(c.mem, s, use32, 2)
  {
    hide PushFrame, Moved, PeekAt, Untouched, Lookup, Bit, Descriptor.Type, Descriptor.Base, Descriptor.Big, Descriptor.Present,
      SwitchTask, GateCall;
    CallPushes(s, use32, oldEip);
    SameLevelSelector(sel, s.cpl);
    var p, c := PushFrame(s, use32, oldEip), Call(s, use32, sel, offset, oldEip).s;
    SameFrame(p, c, use32, [Kept(use32, oldEip), s.cs.val]);
  }

  lemma SameLevelSelector(sel: word, cpl: level)
    ensures WithRpl(sel, cpl) / 4 == sel / 4 && WithRpl(sel, cpl) % 4 == cpl
  {
  }

  /** A frame depends on memory and the stack registers only. */
  lemma SameFrame(s: Cpu, t: Cpu, use32: bool, words: seq<dword>)
    requires t.mem == s.mem && t.ss == s.ss && t.stackBig == s.stackBig && t.esp == s.esp && Frame(s, use32, words)
    ensures Frame(t, use32, words)
  {
    hide Moved, StackAddress, ReadD, ReadW;
    forall i: nat | i < |words|
      ensures PeekAt(t, use32, i) == words[i]
    {
      SamePeek(s, t, use32, i);
    }
  }

  lemma SamePeek(s: Cpu, t: Cpu, use32: bool, i: nat)
    requires t.mem == s.mem && t.ss == s.ss && t.stackBig == s.stackBig && t.esp == s.esp
    ensures PeekAt(t, use32, i) == PeekAt(s, use32, i)
  {
    hide ReadD, ReadW;
  }

  /** A call to a segment that is not present raises the exception; so does a jump. */
  lemma AbsentCodeRaises(s: Cpu, use32: bool, sel: word, offset: dword, oldEip: dword)
    requires !RealLike(s) && IsCode(Lookup(s, sel).Type()) && !Lookup(s, sel).Present()
    ensures Call(s, use32, sel, offset, oldEip) == Raise(NP, sel / 4 * 4, s) == Jmp(s, use32, sel, offset, oldEip)
  {
    hide Lookup, Bit, Descriptor.Type, Descriptor.Present, SwitchTask, GateCall, PushFrame;
  }

  /** A jump is a call that leaves the stack alone. */
  lemma JmpIsCallWithoutFrame(s: Cpu, use32: bool, sel: word, offset: dword, oldEip: dword)
    requires RealLike(s) || (IsCode(Lookup(s, sel).Type()) && (use32 || offset < 0x1_0000))
    ensures var j, c := Jmp(s, use32, sel, offset, oldEip), Call(s, use32, sel, offset, oldEip);
            && (j.Done? <==> c.Done?) && (j.Done? ==> j.s == c.s.(mem := s.mem, esp := s.esp))
  {
    hide Lookup, Bit, Descriptor.Type, Descriptor.Base, Descriptor.Big, Descriptor.Present, SwitchTask, GateCall, PushFrame, Moved;
    CallPushes(s, use32, oldEip);
  }

  // ----- the gate at the same level

  /** A call gate to conforming code, or to code of the current level. */
  predicate GateStays(s: Cpu, sel: word) {
    var g := Lookup(s, sel);
    var code := Lookup(s, g.Selector());
    && !RealLike(s) && (g.Type() == CALL_GATE_386 || g.Type() == CALL_GATE_286)
    && (IsConforming(code.Type()) || (IsNonConforming(code.Type()) && code.DPL() == s.cpl))
  }

  function GateWidth(s: Cpu, sel: word): bool { Lookup(s, sel).Type() == CALL_GATE_386 }

  lemma GateCallStays(s: Cpu, use32: bool, sel: word, offset: dword, oldEip: dword)
    requires GateStays(s, sel)
    ensures var o, g, wide := Call(s, use32, sel, offset, oldEip), Lookup(s, sel), GateWidth(s, sel);
            && o.Done?
            && o.s == s.(mem := o.s.mem, esp := Moved(s, s.esp, -2 * Width(wide)), cs := o.s.cs, codeBig := o.s.codeBig, eip := o.s.eip)
            && Enters(s, o.s, g.Selector(), if use32 then g.Offset() else g.Offset() % 0x1_0000)
            && Frame(o.s, wide, [Kept(wide, oldEip), s.cs.val]) && Untouched(o.s.mem, s, wide, 2)
  {
    hide PushFrame, Moved, PeekAt, Untouched, Lookup, Bit, Descriptor.Type, Descriptor.Base, Descriptor.Big, Descriptor.DPL,
      Descriptor.Selector, Descriptor.Offset, SwitchTask, GateInner;
    var wide := GateWidth(s, sel);
    CallPushes(s, wide, oldEip);
    SameLevelSelector(Lookup(s, sel).Selector(), s.cpl);
    SameFrame(PushFrame(s, wide, oldEip), Call(s, use32, sel, offset, oldEip).s, wide, [Kept(wide, oldEip), s.cs.val]);
  }

  // ----- the return

  /** CS holds what the selector in it names. */
  predicate CodeCached(s: Cpu, t: Cpu) {
    var d := Lookup(t, s.cs.val);
    if RealLike(s) then s.cs.phys == 16 * s.cs.val && !s.codeBig
    else IsCode(d.Type()) && d.Present() && d.Base() == s.cs.phys && d.Big() == s.codeBig && Rpl(s.cs.val) == s.cpl == t.cpl
  }

  /**
   About to return: the mode, the stack position two words below s and those two words are as a call
   from s left them. The look at the selector must not run past the end of a 16-bit stack.
   */
  ghost predicate AtFarRet(s: Cpu, t: Cpu, use32: bool, eip: dword) {
    && RealLike(t) == RealLike(s) && t.ss == s.ss && t.stackBig == s.stackBig
    && t.esp == Moved(s, s.esp, -2 * Width(use32)) && Frame(t, use32, [eip, s.cs.val])
    && CodeCached(s, t) && (RealLike(t) || !WrapsBeforeSelector(t, use32))
  }

  /** The far return takes the two words, and n more bytes: in protected mode within the width of the stack. */
  lemma FarRetResumes(s: Cpu, t: Cpu, use32: bool, eip: dword, n: nat)
    requires AtFarRet(s, t, use32, eip)
    ensures var o := Ret(t, use32, n);
            && o.Done?
            && o.s == t.(cs := s.cs, codeBig := s.codeBig, eip := eip,
                         esp := if RealLike(s) then (s.esp + n) % 0x1_0000_0000 else Moved(s, s.esp, n))
  {
    hide Moved, PeekAt, Top, Lookup, Bit, PeekedSelector, V86, WrapsBeforeSelector, DropParams, Descriptor.Type, Descriptor.Base,
      Descriptor.Big, Descriptor.Present;
    var t1, t2 := Popped(t, use32), Popped(Popped(t, use32), use32);
    PopIs(t, use32, 0);
    PopIs(t1, use32, 0);
    assert PeekAt(t, use32, 0) == [eip, s.cs.val as dword][0] && PeekAt(t, use32, 1) == [eip, s.cs.val as dword][1];
    BackAt(s, t, use32);
    LowOfWord(s.cs.val);
    if !RealLike(t) {
      PeekedIsPopped(t, use32);
      Drops(s, LoadCode(t2, s.cs, s.codeBig, eip), n);
    }
  }

  lemma BackAt(s: Cpu, t: Cpu, use32: bool)
    requires t.ss == s.ss && t.stackBig == s.stackBig && t.esp == Moved(s, s.esp, -2 * Width(use32))
    ensures Popped(Popped(t, use32), use32) == t.(esp := s.esp)
  {
    hide Moved;
    var w := Width(use32);
    SamePointers(s, t, t.esp, w);
    SamePointers(s, Popped(t, use32), Moved(s, t.esp, w), w);
    MovedSum(s, s.esp, -2 * w, w);
    MovedSum(s, s.esp, -w, w);
    MovedNowhere(s, s.esp);
  }

  lemma Drops(s: Cpu, t: Cpu, n: nat)
    requires t.esp == s.esp && t.stackBig == s.stackBig
    ensures DropParams(t, n) == t.(esp := Moved(s, s.esp, n))
  {
  }

  /** What the callee must have kept: mode, level, stack position, the two words, and the caller's code descriptor. */
  ghost predicate StraightKept(s: Cpu, c: Cpu, t: Cpu, use32: bool, oldEip: dword) {
    && t.pmode == c.pmode && V86(t) == V86(c) && t.cpl == c.cpl && t.ss == c.ss && t.stackBig == c.stackBig && t.esp == c.esp
    && Frame(t, use32, [Kept(use32, oldEip), s.cs.val]) && CodeCached(s, t)
  }

  /** The caller is behind its call again: same segment, same level, its parameters dropped. */
  ghost predicate CallerResumed(s: Cpu, u: Cpu, use32: bool, oldEip: dword, n: nat) {
    && u.cs == s.cs && u.codeBig == s.codeBig && u.cpl == s.cpl && u.ss == s.ss && u.stackBig == s.stackBig
    && u.eip == (if use32 then oldEip else oldEip % 0x1_0000)
    && u.esp == if RealLike(s) then (s.esp + n) % 0x1_0000_0000 else Moved(s, s.esp, n)
  }

  /** Call to a code segment, anything that keeps the frame, return: the caller goes on behind its call. */
  lemma FarCallRoundTrip(s: Cpu, use32: bool, sel: word, offset: dword, oldEip: dword, t: Cpu, n: nat)
    requires NamesCode(s, sel) && Call(s, use32, sel, offset, oldEip).Done?
    requires StraightKept(s, Call(s, use32, sel, offset, oldEip).s, t, use32, oldEip)
    requires RealLike(t) || !WrapsBeforeSelector(t, use32)
    ensures var o := Ret(t, use32, n); o.Done? && CallerResumed(s, o.s, use32, oldEip, n) && o.s.mem == t.mem
  {
    hide Call, Ret, Moved, Frame, Lookup, Untouched, Bit, Enters, CodeCached;
    FarCallEnters(s, use32, sel, offset, oldEip);
    FarRetResumes(s, t, use32, Kept(use32, oldEip), n);
  }

  /** The same through a gate that stays at its level, the return having the gate's width. */
  lemma GateStaysRoundTrip(s: Cpu, use32: bool, sel: word, offset: dword, oldEip: dword, t: Cpu, n: nat)
    requires GateStays(s, sel)
    requires Call(s, use32, sel, offset, oldEip).Done?
    requires StraightKept(s, Call(s, use32, sel, offset, oldEip).s, t, GateWidth(s, sel), oldEip)
    requires RealLike(t) || !WrapsBeforeSelector(t, GateWidth(s, sel))
    ensures var o := Ret(t, GateWidth(s, sel), n);
            o.Done? && CallerResumed(s, o.s, GateWidth(s, sel), oldEip, n) && o.s.mem == t.mem
  {
    hide Call, Ret, Moved, Frame, Lookup, Untouched, Bit, Enters, CodeCached, GateStays, GateWidth;
    GateCallStays(s, use32, sel, offset, oldEip);
    FarRetResumes(s, t, GateWidth(s, sel), Kept(GateWidth(s, sel), oldEip), n);
  }
}
