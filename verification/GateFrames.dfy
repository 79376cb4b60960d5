/**
 Call gates of both widths to an inner level, on stacks of both sizes: the frame with its parameters, and
 the far return from it.
 */
module GateFrames {
  import opened Bits
  import opened CpuState
  import opened FarTransfers
  import opened PrivilegeProofs
  import opened GateProofs
  import opened StackWords
  import opened StraightTransfers
  import opened InterruptFrames
  import opened InterruptTrips
  import opened Words

  // ----- the parameters

  function ArgAt(m: Memory, from: int, i: nat, use32: bool): dword {
    if use32 then ReadD(m, from + i * 4) else ReadW(m, from + i * 2)
  }

  /** The parameters in the caller's order. */
  function Args(m: Memory, from: int, k: nat, use32: bool): (r: seq<dword>)
    ensures |r| == k && forall i :: 0 <= i < k ==> r[i] == ArgAt(m, from, i, use32)
  {
    if k == 0 then [] else Args(m, from, k - 1, use32) + [ArgAt(m, from, k - 1, use32)]
  }

  /** The parameters as they are pushed. */
  function Backwards(m: Memory, from: int, k: nat, use32: bool): (r: seq<dword>)
    ensures |r| == k
  {
    if k == 0 then [] else [ArgAt(m, from, k - 1, use32)] + Backwards(m, from, k - 1, use32)
  }

  lemma {:induction false} BackwardsOnStack(m: Memory, from: int, k: nat, use32: bool)
    ensures OnStack(use32, Backwards(m, from, k, use32)) == Args(m, from, k, use32)
  {
    hide ReadD, ReadW;
    if k > 0 {
      BackwardsOnStack(m, from, k - 1, use32);
      var vs := Backwards(m, from, k, use32);
      assert vs[0] == ArgAt(m, from, k - 1, use32) && vs[1..] == Backwards(m, from, k - 1, use32);
      NarrowArg(m, from, k - 1, use32);
    }
  }

  lemma NarrowArg(m: Memory, from: int, i: nat, use32: bool)
    ensures Kept(use32, ArgAt(m, from, i, use32)) == ArgAt(m, from, i, use32)
  {
    hide ReadD;
  }

  /** The bytes of the parameters lie outside the words to be pushed, and memory still holds them. */
  ghost predicate ArgsKept(m: Memory, t: Cpu, from: int, size: nat, use32: bool, n: nat) {
    forall b: int :: from <= b < from + size ==> !InWords(t, use32, n, b) && ReadB(t.mem, b) == ReadB(m, b)
  }

  lemma SameArg(m: Memory, m': Memory, from: int, i: nat, use32: bool, size: nat)
    requires (i + 1) * Width(use32) <= size && forall b: int :: from <= b < from + size ==> ReadB(m', b) == ReadB(m, b)
    ensures ArgAt(m', from, i, use32) == ArgAt(m, from, i, use32)
  {
    hide ReadB;
  }

  /** Pushing one word leaves the parameters where they are. */
  lemma PushKeepsArgs(m: Memory, t: Cpu, from: int, size: nat, use32: bool, n: nat, v: dword)
    requires ArgsKept(m, t, from, size, use32, n + 1)
    ensures ArgsKept(m, Push(t, use32, v), from, size, use32, n)
  {
    hide Push, ReadB, Moved, StackAddress, Off, InWords;
    PushIs(t, use32, v);
    var u := Push(t, use32, v);
    forall b: int | from <= b < from + size
      ensures !InWords(u, use32, n, b) && ReadB(u.mem, b) == ReadB(m, b)
    {
      InWordsBelow(t, u, use32, n, b);
      PushKeepsByte(t, use32, v, b);
    }
  }

  /** The copying loop pushes them, reading memory that its own pushes change. */
  lemma {:induction false} CopyIsPushing(m: Memory, t: Cpu, from: int, k: nat, use32: bool, size: nat, n: nat)
    requires ArgsKept(m, t, from, size, use32, n) && k <= n && k * Width(use32) <= size
    ensures CopyParams(t, from, k, use32) == PushAll(t, use32, Backwards(m, from, k, use32))
    decreases k
  {
    hide Push, ArgAt, ReadB, InWords;
    if k > 0 {
      var v := ArgAt(m, from, k - 1, use32);
      SameArg(m, t.mem, from, k - 1, use32, size);
      ParamIsArg(t, from, k - 1, use32);
      PushKeepsArgs(m, t, from, size, use32, n - 1, v);
      CopyIsPushing(m, Push(t, use32, v), from, k - 1, use32, size, n - 1);
      assert Backwards(m, from, k, use32)[1..] == Backwards(m, from, k - 1, use32);
    }
  }

  lemma ParamIsArg(t: Cpu, from: int, i: nat, use32: bool)
    ensures ParamAt(t, from, i, use32) == ArgAt(t.mem, from, i, use32)
  {
  }

  // ----- the call

  /** A call gate of either width to an inner level. */
  predicate GateLeadsIn(s: Cpu, sel: word) {
    && !RealLike(s) && (GateOf(s, sel).Type() == CALL_GATE_386 || GateOf(s, sel).Type() == CALL_GATE_286)
    && IsNonConforming(CodeOf(s, sel).Type()) && CodeOf(s, sel).DPL() < s.cpl
    && IsWritableData(InnerSs(s, sel).Type())
  }

  /** The caller's parameters lie elsewhere than the frame. */
  ghost predicate CallerArgsApart(s: Cpu, sel: word, use32: bool) {
    var w, k := GateWidth(s, sel), GateOf(s, sel).Params();
    ArgsKept(s.mem, Entered(s, sel, use32), StackAddress(s, s.esp), k * Width(w), w, k + 4)
  }

  function CallerArgs(s: Cpu, sel: word): seq<dword> {
    Args(s.mem, StackAddress(s, s.esp), GateOf(s, sel).Params(), GateWidth(s, sel))
  }

  /** The inner stack from its pointer up: return address, parameters, and the caller's stack position. */
  function CallWords(s: Cpu, sel: word, oldEip: dword): seq<dword> {
    var w := GateWidth(s, sel);
    [Kept(w, oldEip), s.cs.val] + CallerArgs(s, sel) + [Kept(w, s.esp), s.ss.val]
  }

  function CallPushed(s: Cpu, sel: word, oldEip: dword): seq<dword> {
    [s.ss.val, s.esp] + Backwards(s.mem, StackAddress(s, s.esp), GateOf(s, sel).Params(), GateWidth(s, sel)) + [s.cs.val, oldEip]
  }

  lemma GateCallPushes(s: Cpu, use32: bool, sel: word, offset: dword, oldEip: dword)
    requires GateLeadsIn(s, sel) && CallerArgsApart(s, sel, use32)
    ensures Call(s, use32, sel, offset, oldEip)
            == Done(PushAll(Entered(s, sel, use32), GateWidth(s, sel), CallPushed(s, sel, oldEip)))
  {
    hide Push, Backwards, CopyParams, Lookup, TaskStack, Bit, StackAddress, InWords, ReadB, Entered, PushAll, ArgsKept,
      Descriptor.Type, Descriptor.DPL, Descriptor.Params;
    var w, k, from := GateWidth(s, sel), GateOf(s, sel).Params(), StackAddress(s, s.esp);
    var b := Entered(s, sel, use32);
    var b2 := Push(Push(b, w, s.ss.val), w, s.esp);
    CallIsInner(s, use32, sel, offset, oldEip);
    PushKeepsArgs(s.mem, b, from, k * Width(w), w, k + 3, s.ss.val);
    PushKeepsArgs(s.mem, Push(b, w, s.ss.val), from, k * Width(w), w, k + 2, s.esp);
    CopyIsPushing(s.mem, b2, from, k, w, k * Width(w), k + 2);
    var vs := Backwards(s.mem, from, k, w);
    TwoPushes(b, w, s.ss.val, s.esp);
    PushAllAppend(b, w, [s.ss.val, s.esp], vs);
    TwoPushes(PushAll(b2, w, vs), w, s.cs.val, oldEip);
    PushAllAppend(b, w, [s.ss.val, s.esp] + vs, [s.cs.val, oldEip]);
  }

  lemma CallIsInner(s: Cpu, use32: bool, sel: word, offset: dword, oldEip: dword)
    requires GateLeadsIn(s, sel)
    ensures var w, k, b := GateWidth(s, sel), GateOf(s, sel).Params(), Entered(s, sel, use32);
            var u := CopyParams(Push(Push(b, w, s.ss.val), w, s.esp), StackAddress(s, s.esp), k, w);
            Call(s, use32, sel, offset, oldEip) == Done(Push(Push(u, w, s.cs.val), w, oldEip))
  {
    hide Push, CopyParams, Lookup, TaskStack, Bit, StackAddress, EnterGateCode, SwitchStack,
      Descriptor.Type, Descriptor.DPL, Descriptor.Params;
  }

  lemma PushedOnStack(s: Cpu, sel: word, oldEip: dword)
    ensures OnStack(GateWidth(s, sel), CallPushed(s, sel, oldEip)) == CallWords(s, sel, oldEip)
    ensures |CallPushed(s, sel, oldEip)| == GateOf(s, sel).Params() + 4 <= 35
  {
    hide OnStack, Args, Backwards, StackAddress, Kept, GateWidth, GateOf, Descriptor.Params;
    var w, k, from := GateWidth(s, sel), GateOf(s, sel).Params(), StackAddress(s, s.esp);
    var vs := Backwards(s.mem, from, k, w);
    FewParams(GateOf(s, sel));
    OnStackAppend(w, [s.ss.val, s.esp], vs);
    OnStackAppend(w, [s.ss.val, s.esp] + vs, [s.cs.val, oldEip]);
    TwoOnStack(w, s.ss.val, s.esp);
    TwoOnStack(w, s.cs.val, oldEip);
    BackwardsOnStack(s.mem, from, k, w);
    KeepsWord(w, s.ss.val);
    KeepsWord(w, s.cs.val);
    Regroup3([Kept(w, oldEip), s.cs.val], Args(s.mem, from, k, w), [Kept(w, s.esp), s.ss.val]);
  }

  lemma FewParams(d: Descriptor)
    ensures d.Params() <= 31
  {
  }

  /** The callee runs the gate's code at its level, on the stack that the current task keeps for that level. */
  ghost predicate RunsInside(s: Cpu, c: Cpu, sel: word, use32: bool) {
    var g, code, x := GateOf(s, sel), CodeOf(s, sel), InnerSs(s, sel);
    && c.cs.phys == code.Base() && c.cs.val / 4 == g.Selector() / 4 && c.cs.val % 4 == c.cpl == code.DPL()
    && c.codeBig == code.Big() && c.eip == (if use32 then g.Offset() else g.Offset() % 0x1_0000)
    && c.ss == Segment(TaskStack(s, c.cpl).0, x.Base()) && c.stackBig == x.Big()
    && (x.Big() ==> c.esp == TaskStack(s, c.cpl).1) && c.esp % 0x1_0000 == TaskStack(s, c.cpl).1 % 0x1_0000
    && c == s.(cs := c.cs, codeBig := c.codeBig, eip := c.eip, ss := c.ss, stackBig := c.stackBig, esp := c.esp, cpl := c.cpl)
  }

  lemma EnteredRuns(s: Cpu, sel: word, use32: bool)
    ensures RunsInside(s, Entered(s, sel, use32), sel, use32)
  {
    hide Lookup, TaskStack, WithRpl, Descriptor.Type, Descriptor.DPL, Descriptor.Base, Descriptor.Big, Descriptor.Selector,
      Descriptor.Offset;
    SameLevelSelector(GateOf(s, sel).Selector(), CodeOf(s, sel).DPL());
    LowPart(s.esp / 0x1_0000, TaskStack(s, CodeOf(s, sel).DPL()).1 % 0x1_0000);
  }

  /** A call through a gate of either width to an inner level. */
  lemma GateCallEnters(s: Cpu, use32: bool, sel: word, offset: dword, oldEip: dword)
    requires GateLeadsIn(s, sel) && CallerArgsApart(s, sel, use32)
    ensures var o, w, b := Call(s, use32, sel, offset, oldEip), GateWidth(s, sel), Entered(s, sel, use32);
            var n := GateOf(s, sel).Params() + 4;
            && RunsInside(s, b, sel, use32)
            && o.Done? && o.s == b.(mem := o.s.mem, esp := Moved(b, b.esp, -(n * Width(w))))
            && Frame(o.s, w, CallWords(s, sel, oldEip)) && Untouched(o.s.mem, b, w, n)
  {
    hide Call, Entered, Frame, PushAll, CallPushed, CallWords, OnStack, Moved, Untouched, GateLeadsIn, CallerArgsApart, GateWidth,
      GateOf, RunsInside, Descriptor.Params;
    EnteredRuns(s, sel, use32);
    var w, b, vs := GateWidth(s, sel), Entered(s, sel, use32), CallPushed(s, sel, oldEip);
    GateCallPushes(s, use32, sel, offset, oldEip);
    PushedOnStack(s, sel, oldEip);
    NoFrame(b, w);
    PushesBuild(b, w, vs, []);
    assert OnStack(w, vs) + [] == CallWords(s, sel, oldEip);
  }

  lemma NoFrame(s: Cpu, use32: bool)
    ensures Frame(s, use32, [])
  {
  }

  // ----- the return

  lemma MaskedAdvance(s: Cpu, e: dword, n: nat)
    ensures Masked(s, (e + n) % 0x1_0000_0000) == Masked(s, Moved(s, e, n))
  {
    if !s.stackBig {
      MovedSmall(s, e, n);
      LowOfAddress(e + n);
    }
  }

  lemma LowOfAddress(x: nat)
    ensures x % 0x1_0000_0000 % 0x1_0000 == x % 0x1_0000
  {
    var q, r := x / 0x1_0000_0000, x % 0x1_0000_0000;
    assert x == 0x1_0000 * (0x1_0000 * q + r / 0x1_0000) + r % 0x1_0000;
  }

  lemma MaskedMoved(s: Cpu, x: dword, y: dword, d: int)
    requires Masked(s, x) == Masked(s, y)
    ensures Masked(s, Moved(s, x, d)) == Masked(s, Moved(s, y, d))
  {
    if !s.stackBig {
      MovedSmall(s, x, d);
      MovedSmall(s, y, d);
      SumSmall(x, d);
      SumSmall(y, d);
    }
  }

  lemma SamePeeks(t: Cpu, u: Cpu, use32: bool, x: dword, y: dword)
    requires u.mem == t.mem && u.ss == t.ss && u.stackBig == t.stackBig && Masked(t, x) == Masked(t, y)
    ensures Peek(u, use32, x) == Peek(t, use32, y)
  {
    hide ReadD, ReadW;
  }

  /** Above the parameters; dropping them is not masked to a 16-bit stack, looking there is. */
  lemma ReturnTops(t: Cpu, use32: bool, words: seq<dword>, k: nat)
    requires Frame(t, use32, words) && |words| == k + 4
    ensures var s1 := Popped(t, use32);
            var s2 := Advance(Popped(s1, use32), k * Width(use32));
            && Top(t, use32) == words[0] && Top(s1, use32) == words[1]
            && Top(s2, use32) == words[k + 2] && Top(Popped(s2, use32), use32) == words[k + 3]
  {
    hide Moved, Peek, PeekAt, Masked, Frame;
    var w := Width(use32);
    var n := k * w;
    TwoTops(t, use32, words);
    var s1 := Popped(t, use32);
    var s2 := Advance(Popped(s1, use32), n);
    var e := Moved(t, t.esp, 2 * w);
    MaskedAdvance(t, e, n);
    MovedSum(t, t.esp, 2 * w, n);
    assert 2 * w + n == (k + 2) * w && (k + 2) * w + w == (k + 3) * w;
    SamePeeks(t, s2, use32, s2.esp, Moved(t, t.esp, (k + 2) * w));
    WordIs(t, use32, words, k + 2);
    SamePointers(t, s2, s2.esp, w);
    MaskedMoved(t, s2.esp, Moved(t, t.esp, (k + 2) * w), w);
    MovedSum(t, t.esp, (k + 2) * w, w);
    SamePeeks(t, Popped(s2, use32), use32, Moved(s2, s2.esp, w), Moved(t, t.esp, (k + 3) * w));
    WordIs(t, use32, words, k + 3);
  }

  lemma WordIs(t: Cpu, use32: bool, words: seq<dword>, i: nat)
    requires Frame(t, use32, words) && i < |words|
    ensures Peek(t, use32, Moved(t, t.esp, i * Width(use32))) == words[i]
  {
    hide Moved, Peek;
    assert PeekAt(t, use32, i) == words[i];
  }

  lemma TwoTops(t: Cpu, use32: bool, words: seq<dword>)
    requires Frame(t, use32, words) && |words| >= 2
    ensures var s1 := Popped(t, use32);
            && Top(t, use32) == words[0] && Top(s1, use32) == words[1]
            && Popped(s1, use32) == t.(esp := Moved(t, t.esp, 2 * Width(use32)))
  {
    hide Moved, Peek, PeekAt;
    var w := Width(use32);
    PopIs(t, use32, 0);
    PopIs(Popped(t, use32), use32, 0);
    SamePointers(t, Popped(t, use32), Moved(t, t.esp, w), w);
    MovedSum(t, t.esp, w, w);
    assert PeekAt(t, use32, 0) == words[0] && PeekAt(t, use32, 1) == words[1];
  }

  /** Code, stack and level of the caller again, its parameters dropped from both stacks, and its data segments checked. */
  ghost predicate Outside(t: Cpu, u: Cpu, eip: dword, cs: word, esp: dword, ss: word, n: nat) {
    var d, x := Lookup(t, cs), Lookup(t, ss);
    && u.cs == Segment(cs, d.Base()) && u.codeBig == d.Big() && u.eip == eip && u.cpl == Rpl(cs)
    && u.ss == Segment(ss, x.Base()) && u.stackBig == x.Big()
    && (if x.Big() then u.esp == (esp + n) % 0x1_0000_0000 else u.esp % 0x1_0000 == (esp + n) % 0x1_0000)
    && u.mem == t.mem && u.gpr == t.gpr && u.flags == t.flags && u.task == t.task
    && Usable(u, ES) && Usable(u, DS) && Usable(u, FS) && Usable(u, GS)
  }

  function OuterWords(eip: dword, cs: word, args: seq<dword>, esp: dword, ss: word): seq<dword> { [eip, cs] + args + [esp, ss] }

  lemma RetGoesOut(t: Cpu, use32: bool, eip: dword, cs: word, args: seq<dword>, esp: dword, ss: word)
    requires !RealLike(t) && Frame(t, use32, OuterWords(eip, cs, args, esp, ss)) && !WrapsBeforeSelector(t, use32)
    requires t.cpl < Rpl(cs) && IsCode(Lookup(t, cs).Type()) && IsWritableData(Lookup(t, ss).Type())
    ensures var n := |args| * Width(use32);
            var o := Ret(t, use32, n);
            o.Done? && Outside(t, o.s, eip, cs, esp, ss, n)
  {
    hide Moved, Frame, Peek, Top, Lookup, Bit, PeekedSelector, WrapsBeforeSelector, CheckSegments, Usable, Rpl, WithRpl,
      Descriptor.Type, Descriptor.Base, Descriptor.Big, Descriptor.Present;
    var words := OuterWords(eip, cs, args, esp, ss);
    var k, n := |args|, |args| * Width(use32);
    assert words[0] == eip && words[1] == cs && words[k + 2] == esp && words[k + 3] == ss;
    ReturnTops(t, use32, words, k);
    PeekedIsPopped(t, use32);
    LowOfWord(cs);
    LowOfWord(ss);
    OwnRpl(cs);
    var s1 := Popped(t, use32);
    var s2 := Advance(Popped(s1, use32), n);
    var s4 := Popped(Popped(s2, use32), use32);
    var d, x := Lookup(t, cs), Lookup(t, ss);
    SameLookup(t, s4, ss);
    var u := SwitchLevel(LoadCode(s4, Segment(cs, d.Base()), d.Big(), eip), ss, x, (esp + n) % 0x1_0000_0000, Rpl(cs));
    ChecksOnlyData(u);
    ChecksRevoke(u);
    LowOfAddress(esp + n);
    LowPart(s4.esp / 0x1_0000, (esp + n) % 0x1_0000);
  }

  lemma OwnRpl(cs: word)
    ensures WithRpl(cs, Rpl(cs)) == cs
  {
  }

  /** The caller goes on behind its call, on its own stack with the parameters dropped, at its own level. */
  ghost predicate CallerBack(s: Cpu, t: Cpu, u: Cpu, use32: bool, oldEip: dword, n: nat) {
    && u.cs == s.cs && u.codeBig == s.codeBig && u.eip == Kept(use32, oldEip) && u.cpl == s.cpl
    && u.ss == s.ss && u.stackBig == s.stackBig && u.mem == t.mem && u.gpr == t.gpr && u.flags == t.flags
    && (if s.stackBig then u.esp == (Kept(use32, s.esp) + n) % 0x1_0000_0000 else u.esp % 0x1_0000 == (s.esp + n) % 0x1_0000)
    && Usable(u, ES) && Usable(u, DS) && Usable(u, FS) && Usable(u, GS)
  }

  lemma OutsideIsBack(s: Cpu, t: Cpu, u: Cpu, use32: bool, oldEip: dword, n: nat)
    requires Outside(t, u, Kept(use32, oldEip), s.cs.val, Kept(use32, s.esp), s.ss.val, n) && Cached(s, t) && Rpl(s.cs.val) == s.cpl
    ensures CallerBack(s, t, u, use32, oldEip, n)
  {
    hide Lookup, Usable, Kept, Rpl, Descriptor.Type, Descriptor.Base, Descriptor.Big;
    LowSum(use32, s.esp, n);
  }

  /** The callee about to return: its mode, level and stack, the words on it, and the caller's code and stack descriptors. */
  ghost predicate CalleeKept(s: Cpu, sel: word, oldEip: dword, c: Cpu, t: Cpu) {
    && !RealLike(t) && t.cpl == c.cpl && t.ss == c.ss && t.stackBig == c.stackBig && t.esp == c.esp
    && Frame(t, GateWidth(s, sel), CallWords(s, sel, oldEip)) && Cached(s, t)
  }

  /** A call through a gate of either width to an inner level, and the return from it. */
  lemma InnerCallTrip(s: Cpu, use32: bool, sel: word, offset: dword, oldEip: dword, t: Cpu)
    requires GateLeadsIn(s, sel) && CallerArgsApart(s, sel, use32) && Rpl(s.cs.val) == s.cpl
    requires Call(s, use32, sel, offset, oldEip).Done?
    requires CalleeKept(s, sel, oldEip, Call(s, use32, sel, offset, oldEip).s, t) && !WrapsBeforeSelector(t, GateWidth(s, sel))
    ensures var w := GateWidth(s, sel);
            var n := GateOf(s, sel).Params() * Width(w);
            var o := Ret(t, w, n);
            o.Done? && CallerBack(s, t, o.s, w, oldEip, n)
  {
    hide Call, Ret, Frame, Lookup, Moved, Bit, CallerArgsApart, WrapsBeforeSelector, Rpl, TaskStack, Kept, CallerArgs, GateWidth,
      Untouched, RealLike, CallerBack, Outside, OuterWords, CallWords, GateOf, CodeOf, InnerSs, StackSelector, RunsInside,
      Descriptor.Type, Descriptor.Base, Descriptor.Big, Descriptor.DPL, Descriptor.Params;
    var w, n := GateWidth(s, sel), GateOf(s, sel).Params() * Width(GateWidth(s, sel));
    GateCallEnters(s, use32, sel, offset, oldEip);
    InnerLevel(s, sel, use32);
    CallerArgsCount(s, sel, oldEip);
    RetGoesOut(t, w, Kept(w, oldEip), s.cs.val, CallerArgs(s, sel), Kept(w, s.esp), s.ss.val);
    OutsideIsBack(s, t, Ret(t, w, n).s, w, oldEip, n);
  }

  lemma InnerLevel(s: Cpu, sel: word, use32: bool)
    requires GateLeadsIn(s, sel)
    ensures Entered(s, sel, use32).cpl < s.cpl
  {
    hide Lookup, TaskStack, Bit, Descriptor.Type, Descriptor.DPL, WithRpl;
  }

  lemma CallerArgsCount(s: Cpu, sel: word, oldEip: dword)
    ensures |CallerArgs(s, sel)| == GateOf(s, sel).Params()
    ensures CallWords(s, sel, oldEip) == OuterWords(Kept(GateWidth(s, sel), oldEip), s.cs.val, CallerArgs(s, sel),
                                                    Kept(GateWidth(s, sel), s.esp), s.ss.val)
  {
    hide Kept, GateWidth, GateOf, Args;
  }

  lemma LowSum(use32: bool, x: dword, n: nat)
    ensures (Kept(use32, x) + n) % 0x1_0000 == (x + n) % 0x1_0000
  {
    LowOfKept(use32, x);
    SumSmall(x, n);
    SumSmall(Kept(use32, x), n);
  }
}
