/**
 What IRET makes of the words on its stack: at its own level, to another level, to virtual-8086 mode and
 in real mode, at both operand widths and on stacks of both sizes; and how it undoes an interrupt.
 */
module IretFrames {
  import opened Bits
  import opened CpuState
  import opened FarTransfers
  import opened PrivilegeProofs
  import opened GateProofs
  import opened StackWords
  import opened StraightTransfers
  import opened InterruptProofs
  import opened InterruptFrames
  import opened Words

  // ----- flags

  /** CF, PF, AF, ZF, SF, TF, IF, DF, OF and AC. */
  predicate IsPlainFlag(k: nat) {
    k == 0 || k == 2 || k == 4 || k == 6 || k == 7 || k == 8 || k == 9 || k == 10 || k == 11 || k == 18
  }

  /** The flags an IRET in protected mode writes: IF up to the I/O level, IOPL at level 0 only. */
  predicate Writable(t: Cpu, k: nat) {
    || (IsPlainFlag(k) && (k == IF_BIT ==> t.cpl <= Iopl(t.flags)))
    || k == NT_BIT || (12 <= k < 14 && t.cpl == 0) || (k == 21 && t.idToggle)
  }

  lemma LowMaskBits(k: nat)
    requires k < 12
    ensures Bit(0xfd5, k) <==> IsPlainFlag(k)
  {
    assert Bit(0xfd5, 0) && !Bit(0xfd5, 1) && Bit(0xfd5, 2) && !Bit(0xfd5, 3) && Bit(0xfd5, 4) && !Bit(0xfd5, 5);
    assert Bit(0xfd5, 6) && Bit(0xfd5, 7) && Bit(0xfd5, 8) && Bit(0xfd5, 9) && Bit(0xfd5, 10) && Bit(0xfd5, 11);
  }

  lemma HighMaskBits(k: nat)
    ensures Bit(0x47, k) <==> k < 3 || k == 6
    ensures Bit(0x44, k) <==> k == 2 || k == 6
    ensures Bit(0x67, k) <==> k < 3 || k == 5 || k == 6
  {
    if k < 7 {
      assert Bit(0x47, 0) && Bit(0x47, 1) && Bit(0x47, 2) && !Bit(0x47, 3) && !Bit(0x47, 4) && !Bit(0x47, 5) && Bit(0x47, 6);
      assert Bit(0x67, 0) && Bit(0x67, 1) && Bit(0x67, 2) && !Bit(0x67, 3) && !Bit(0x67, 4) && Bit(0x67, 5) && Bit(0x67, 6);
      assert !Bit(0x44, 0) && !Bit(0x44, 1) && Bit(0x44, 2) && !Bit(0x44, 3) && !Bit(0x44, 4) && !Bit(0x44, 5) && Bit(0x44, 6);
    } else {
      ShiftOut(0x47, k);
      ShiftOut(0x44, k);
      ShiftOut(0x67, k);
    }
  }

  lemma ShiftOut(x: nat, k: nat)
    requires x < 0x80 && k >= 7
    ensures !Bit(x, k)
  {
    hide Bit, Pow2;
    Powers();
    JoinedBits(x, 0, 7, k);
    ZeroBit(k - 7);
  }

  lemma FlagMaskBits(k: nat)
    ensures Bit(0x4_7fd5, k) <==> IsPlainFlag(k) || 12 <= k < 15
    ensures Bit(0x4_4fd5, k) <==> IsPlainFlag(k) || k == 14
    ensures Bit(0x6_7fd5, k) <==> IsPlainFlag(k) || 12 <= k < 15 || k == 17
    ensures Bit(0x7fd5, k) <==> (IsPlainFlag(k) || 12 <= k < 15) && k < 16
  {
    hide Bit, Pow2;
    Powers();
    assert Pow2(12) == 0x1000 by {
      PowTwelve();
    }
    JoinedBits(0xfd5, 0x47, 12, k);
    JoinedBits(0xfd5, 0x44, 12, k);
    JoinedBits(0xfd5, 0x67, 12, k);
    JoinedBits(0xfd5, 7, 12, k);
    if k < 12 {
      LowMaskBits(k);
    } else {
      HighMaskBits(k - 12);
      Seven(k - 12);
    }
  }

  lemma Seven(k: nat)
    ensures Bit(7, k) <==> k < 3
  {
    if k >= 3 {
      ZeroBit(k - 3);
      assert Bit(7, k) == Bit(3, k - 1) == Bit(1, k - 2) == Bit(0, k - 3);
    }
  }

  lemma PowTwelve()
    ensures Pow2(12) == 0x1000 && Pow2(21) == 0x20_0000
  {
    Powers();
    assert Pow2(12) == 16 * Pow2(8) && Pow2(21) == 32 * Pow2(16);
  }

  /** CPU_SetFlags bit by bit. */
  lemma SetFlagsBits(t: Cpu, w: nat, mask: nat, k: nat)
    ensures Bit(SetFlags(t, w, mask).flags, k)
            == (k == 1 || if Bit(mask, k) || (t.idToggle && k == 21) then Bit(w, k) else Bit(t.flags, k))
  {
    hide Bit, Select, SetBit;
    var m := if t.idToggle then Select(mask, 0x20_0000, 0x20_0000) else mask;
    SelectBit(mask, 0x20_0000, 0x20_0000, k);
    IdBit(k);
    SelectBit(t.flags, w, m, k);
    SetBitBits(Select(t.flags, w, m), 1, true, k);
  }

  lemma IdBit(k: nat)
    ensures Bit(0x20_0000, k) <==> k == 21
  {
    hide Bit, Pow2;
    PowTwelve();
    PowerBit(21, k);
  }

  lemma MaskIsWritable(t: Cpu, k: nat)
    ensures Bit(IretMask(t), k) || (t.idToggle && k == 21) <==> Writable(t, k)
  {
    hide Bit, SetBit;
    FlagMaskBits(k);
    SetBitBits(FMASK_ALL, IF_BIT, false, k);
    SetBitBits(FMASK_NORMAL + FLAG_NT, IF_BIT, false, k);
  }

  /** Each writable flag is the popped one, as far as the popped word reaches; the others stay. */
  ghost predicate FlagsTaken(f: nat, t: Cpu, use32: bool, popped: dword) {
    forall k: nat :: Bit(f, k) == (k == 1 || if Writable(t, k) && (use32 || k < 16) then Bit(popped, k) else Bit(t.flags, k))
  }

  lemma UpperBits(x: nat, k: nat)
    requires k >= 16
    ensures Bit(x / 0x1_0000, k - 16) == Bit(x, k)
  {
    hide Bit;
    BitFromTop(x, k - 4);
    BitFromTop(x / 16, k - 8);
    BitFromTop(x / 16 / 16, k - 12);
    BitFromTop(x / 16 / 16 / 16, k - 16);
  }

  lemma TakesFlags(t: Cpu, t1: Cpu, use32: bool, popped: dword)
    requires use32 || popped < 0x1_0000
    requires t1.flags == t.flags && t1.idToggle == t.idToggle
    ensures var w: nat := if use32 then popped else popped + t.flags / 0x1_0000 * 0x1_0000;
            FlagsTaken(SetFlags(t1, w, IretMask(t)).flags, t, use32, popped)
  {
    hide Bit, SetFlags, IretMask, Writable;
    var w: nat := if use32 then popped else popped + t.flags / 0x1_0000 * 0x1_0000;
    forall k: nat
      ensures Bit(SetFlags(t1, w, IretMask(t)).flags, k)
              == (k == 1 || if Writable(t, k) && (use32 || k < 16) then Bit(popped, k) else Bit(t.flags, k))
    {
      SetFlagsBits(t1, w, IretMask(t), k);
      MaskIsWritable(t, k);
      if !use32 {
        WithUpper(popped, t.flags, k);
      }
    }
  }

  lemma WithUpper(low: nat, x: nat, k: nat)
    requires low < 0x1_0000
    ensures Bit(low + x / 0x1_0000 * 0x1_0000, k) == if k < 16 then Bit(low, k) else Bit(x, k)
  {
    hide Bit, Pow2;
    Powers();
    JoinedBits(low, x / 0x1_0000, 16, k);
    if k >= 16 {
      UpperBits(x, k);
    }
  }

  // ----- the words of the frame

  lemma FrameWords(t: Cpu, use32: bool, words: seq<dword>)
    requires Frame(t, use32, words) && |words| >= 3
    ensures var e1 := Moved(t, t.esp, Width(use32));
            var e2 := Moved(t, e1, Width(use32));
            var e3 := Moved(t, e2, Width(use32));
            && Top(t, use32) == words[0] && Peek(t, use32, e1) == words[1] && Peek(t, use32, e2) == words[2]
            && e3 == Moved(t, t.esp, 3 * Width(use32))
            && (|words| >= 5 ==> Peek(t, use32, e3) == words[3] && Peek(t, use32, Moved(t, e3, Width(use32))) == words[4])
  {
    hide Moved, Peek;
    var w := Width(use32);
    MovedNowhere(t, t.esp);
    MovedSum(t, t.esp, w, w);
    MovedSum(t, t.esp, 2 * w, w);
    MovedSum(t, t.esp, 3 * w, w);
    assert PeekAt(t, use32, 0) == words[0] && PeekAt(t, use32, 1) == words[1] && PeekAt(t, use32, 2) == words[2];
    if |words| >= 5 {
      assert PeekAt(t, use32, 3) == words[3] && PeekAt(t, use32, 4) == words[4];
    }
  }

  lemma ShortWord(t: Cpu, e: dword)
    ensures Peek(t, false, e) < 0x1_0000
  {
  }

  // ----- IRET at its own level

  /** About to execute IRET in protected mode, not out of a nested task. */
  predicate Irets(t: Cpu) { t.pmode && !V86(t) && !Bit(t.flags, NT_BIT) }

  /** Three words off the stack: EIP, CS and the flags. */
  lemma IretStays(t: Cpu, use32: bool, eip: dword, cs: word, flags: dword, back: dword)
    requires Irets(t) && Frame(t, use32, [eip, cs, flags]) && !(use32 && Bit(flags, VM_BIT))
    requires IsCode(Lookup(t, cs).Type()) && Rpl(cs) == t.cpl
    ensures var o, d := Iret(t, use32, back), Lookup(t, cs);
            && o.Done? && FlagsTaken(o.s.flags, t, use32, flags)
            && o.s == t.(cs := Segment(cs, d.Base()), codeBig := d.Big(), eip := eip, esp := Moved(t, t.esp, 3 * Width(use32)),
                         flags := o.s.flags)
  {
    hide Moved, Frame, Peek, Top, Lookup, Bit, IretMask, FlagsTaken, SetFlags, IretToV86, IretOuterLevel, SwitchTask,
      Descriptor.Type, Descriptor.Base, Descriptor.Big;
    FrameWords(t, use32, [eip, cs, flags]);
    LowOfWord(cs);
    ShortWord(t, Moved(t, Moved(t, t.esp, Width(use32)), Width(use32)));
    var f: nat := if use32 then flags else flags + t.flags / 0x1_0000 * 0x1_0000;
    var d, e := Lookup(t, cs), Moved(t, t.esp, 3 * Width(use32));
    var t1 := LoadCode(t.(esp := e), Segment(cs, d.Base()), d.Big(), eip);
    TakesFlags(t, t1, use32, flags);
    FlagsOnly(t1, f, IretMask(t));
    SameMask(t, t.(esp := e));
  }

  lemma SameMask(t: Cpu, u: Cpu)
    requires u.cpl == t.cpl && u.flags == t.flags
    ensures IretMask(u) == IretMask(t)
  {
  }

  // ----- IRET to another level

  /** The state at another level, apart from the flags and the data segments. */
  function AtLevel(t: Cpu, cs: word, eip: dword, ss: word, esp: dword): Cpu {
    var d, n := Lookup(t, cs), Lookup(t, ss);
    t.(cs := Segment(cs, d.Base()), codeBig := d.Big(), eip := eip, cpl := Rpl(cs), ss := Segment(ss, n.Base()), stackBig := n.Big(),
       esp := if n.Big() then esp else t.esp / 0x1_0000 * 0x1_0000 + esp % 0x1_0000)
  }

  ghost predicate Left(t: Cpu, u: Cpu, use32: bool, eip: dword, cs: word, flags: dword, esp: dword, ss: word) {
    && FlagsTaken(u.flags, t, use32, flags) && Usable(u, ES) && Usable(u, DS) && Usable(u, FS) && Usable(u, GS)
    && u == AtLevel(t, cs, eip, ss, esp).(flags := u.flags, es := u.es, ds := u.ds, fs := u.fs, gs := u.gs,
                                          which := u.which, error := u.error)
  }

  /** Five words: the other level's stack position is above the flags, and the data segments are checked for that level. */
  lemma IretLeaves(t: Cpu, use32: bool, eip: dword, cs: word, flags: dword, esp: dword, ss: word, back: dword)
    requires Irets(t) && Frame(t, use32, [eip, cs, flags, esp, ss]) && !(use32 && Bit(flags, VM_BIT))
    requires IsCode(Lookup(t, cs).Type()) && Rpl(cs) != t.cpl && IsWritableData(Lookup(t, ss).Type())
    ensures var o := Iret(t, use32, back); o.Done? && Left(t, o.s, use32, eip, cs, flags, esp, ss)
  {
    hide Moved, Frame, Peek, Top, Lookup, Bit, IretMask, FlagsTaken, SetFlags, IretToV86, SwitchTask, CheckSegments, Usable, Rpl,
      Descriptor.Type, Descriptor.Base, Descriptor.Big;
    FrameWords(t, use32, [eip, cs, flags, esp, ss]);
    LowOfWord(cs);
    LowOfWord(ss);
    ShortWord(t, Moved(t, Moved(t, t.esp, Width(use32)), Width(use32)));
    var f: nat := if use32 then flags else flags + t.flags / 0x1_0000 * 0x1_0000;
    var d, n := Lookup(t, cs), Lookup(t, ss);
    var t1 := LoadCode(t, Segment(cs, d.Base()), d.Big(), eip);
    TakesFlags(t, t1, use32, flags);
    FlagsOnly(t1, f, IretMask(t));
    MaskHasNoVm(t);
    SetFlagsVm(t1, f, IretMask(t));
    var u := SwitchLevel(SetFlags(t1, f, IretMask(t)), ss, n, esp, Rpl(cs));
    ChecksOnlyData(u);
    ChecksRevoke(u);
  }

  // ----- IRET to virtual-8086 mode

  lemma NextWord(t: Cpu, u: Cpu, i: nat)
    requires u.ss == t.ss && u.stackBig == t.stackBig && u.mem == t.mem && u.esp == Moved(t, t.esp, 4 * i)
    ensures Top(u, true) == PeekAt(t, true, i) && Popped(u, true) == u.(esp := Moved(t, t.esp, 4 * (i + 1)))
  {
    hide Moved, ReadD, ReadW, StackAddress;
    SamePointers(t, u, u.esp, 4);
    SamePointers(t, u, u.esp, 0);
    MovedSum(t, t.esp, 4 * i, 4);
    assert 4 * i + 4 == 4 * (i + 1) && i * 4 == 4 * i;
  }

  lemma SetsReal(v: Cpu, name: SegName, sel: word)
    requires V86(v)
    ensures SetSegGeneral(v, name, sel) == Done(SetReal(v, name, sel)) && V86(SetReal(v, name, sel))
  {
    hide Bit, Lookup, InTable;
  }

  /** The five segment registers of virtual-8086 mode; FS keeps the host's base. */
  function RealSegments(v: Cpu, ss: word, es: word, ds: word, fs: word, gs: word): Cpu {
    v.(ss := RealSegment(ss), stackBig := false, es := RealSegment(es), ds := RealSegment(ds), fs := Segment(fs, v.fsBase),
       gs := RealSegment(gs))
  }

  lemma SegmentsLoaded(v: Cpu, ss: word, es: word, ds: word, fs: word, gs: word)
    requires V86(v)
    ensures V86Segments(Done(v), ss, es, ds, fs, gs) == Done(RealSegments(v, ss, es, ds, fs, gs))
  {
    hide V86, SetSegGeneral;
    SetsReal(v, SS, ss);
    var v1 := SetReal(v, SS, ss);
    SetsReal(v1, ES, es);
    var v2 := SetReal(v1, ES, es);
    SetsReal(v2, DS, ds);
    var v3 := SetReal(v2, DS, ds);
    SetsReal(v3, FS, fs);
    SetsReal(SetReal(v3, FS, fs), GS, gs);
  }

  /** The words of the frame that the return to virtual-8086 mode takes, in their order. */
  datatype V86Frame = V86Frame(eip: dword, cs: word, flags: dword, esp: dword, ss: word, es: word, ds: word, fs: word, gs: word) {
    function Words(): seq<dword> { [eip, cs, flags, esp, ss, es, ds, fs, gs] }
  }

  /** Back in virtual-8086 mode, apart from the flags. */
  function InV86(t: Cpu, f: V86Frame): Cpu {
    RealSegments(t, f.ss, f.es, f.ds, f.fs, f.gs)
      .(cs := RealSegment(f.cs), codeBig := false, eip := f.eip % 0x1_0000, esp := f.esp, cpl := 3)
  }

  /** Level 0 may write every flag of the mask, and the popped word sets VM. */
  ghost predicate V86FlagsTaken(f: nat, t: Cpu, popped: dword) {
    forall k: nat :: Bit(f, k) == (k == 1 || if Writable(t, k) || k == VM_BIT then Bit(popped, k) else Bit(t.flags, k))
  }

  lemma EntersV86(t: Cpu, u: Cpu, flags: dword)
    requires t.cpl == 0 && Bit(flags, VM_BIT) && u.flags == t.flags && u.idToggle == t.idToggle
    ensures var v := EnterV86(u, flags); V86(v) && V86FlagsTaken(v.flags, t, flags) && v == u.(flags := v.flags, cpl := 3)
  {
    hide Bit, SetFlags;
    FlagsOnly(u, flags, FMASK_ALL + FLAG_VM);
    var v := EnterV86(u, flags);
    forall k: nat
      ensures Bit(v.flags, k)
              == (k == 1 || if Writable(t, k) || k == VM_BIT then Bit(flags, k) else Bit(t.flags, k))
    {
      SetFlagsBits(u, flags, FMASK_ALL + FLAG_VM, k);
      FlagMaskBits(k);
    }
  }

  lemma V86Tops(s: Cpu, t: Cpu, f: V86Frame)
    requires Frame(t, true, f.Words()) && s.ss == t.ss && s.stackBig == t.stackBig && s.mem == t.mem && s.esp == Moved(t, t.esp, 12)
    ensures var s1, s2 := Popped(s, true), Popped(Popped(s, true), true);
            var s3, s4 := Popped(s2, true), Popped(Popped(s2, true), true);
            var s5 := Popped(s4, true);
            && Top(s, true) == f.esp && Top(s1, true) == f.ss && Top(s2, true) == f.es && Top(s3, true) == f.ds
            && Top(s4, true) == f.fs && Top(s5, true) == f.gs && Popped(s5, true) == s.(esp := Moved(t, t.esp, 36))
  {
    hide Moved, PeekAt, Top;
    var s1, s2 := Popped(s, true), Popped(Popped(s, true), true);
    var s3, s4 := Popped(s2, true), Popped(Popped(s2, true), true);
    NextWord(t, s, 3);
    NextWord(t, s1, 4);
    NextWord(t, s2, 5);
    NextWord(t, s3, 6);
    NextWord(t, s4, 7);
    NextWord(t, Popped(s4, true), 8);
    var words := f.Words();
    assert PeekAt(t, true, 3) == words[3] && PeekAt(t, true, 4) == words[4] && PeekAt(t, true, 5) == words[5];
    assert PeekAt(t, true, 6) == words[6] && PeekAt(t, true, 7) == words[7] && PeekAt(t, true, 8) == words[8];
  }

  /** Nine double words at level 0 with VM in the flags: everything virtual-8086 code needs. */
  lemma IretToV86Enters(t: Cpu, f: V86Frame, back: dword)
    requires Irets(t) && t.cpl == 0 && Frame(t, true, f.Words()) && Bit(f.flags, VM_BIT)
    ensures var o := Iret(t, true, back);
            o.Done? && V86FlagsTaken(o.s.flags, t, f.flags) && o.s == InV86(t, f).(flags := o.s.flags)
  {
    hide Moved, Frame, Peek, Top, Lookup, Bit, EnterV86, V86FlagsTaken, V86Segments, IretSameLevel, IretOuterLevel, SwitchTask,
      V86Frame.Words;
    var e3 := Moved(t, t.esp, 12);
    WordsOf(f);
    FrameWords(t, true, f.Words());
    LowOfWord(f.cs);
    LowOfWord(f.ss);
    LowOfWord(f.es);
    LowOfWord(f.ds);
    LowOfWord(f.fs);
    LowOfWord(f.gs);
    var s := t.(esp := e3, eip := f.eip % 0x1_0000);
    V86Tops(s, t, f);
    var u := s.(esp := Moved(t, t.esp, 36));
    EntersV86(t, u, f.flags);
    SegmentsLoaded(EnterV86(u, f.flags), f.ss, f.es, f.ds, f.fs, f.gs);
  }

  lemma WordsOf(f: V86Frame)
    ensures |f.Words()| == 9 && f.Words()[0] == f.eip && f.Words()[1] == f.cs && f.Words()[2] == f.flags
  {
  }

  // ----- IRET in real and virtual-8086 mode

  /** The flags an IRET writes there: in real mode with IOPL, from a 16-bit word the lower half only. */
  predicate WritableReal(t: Cpu, use32: bool, k: nat) {
    || (IsPlainFlag(k) && (t.pmode || use32 || k < 16)) || k == NT_BIT || (12 <= k < 14 && !t.pmode) || (k == 21 && t.idToggle)
  }

  ghost predicate RealFlagsTaken(f: nat, t: Cpu, use32: bool, popped: dword) {
    forall k: nat :: Bit(f, k) == (k == 1 || if WritableReal(t, use32, k) then Bit(popped, k) else Bit(t.flags, k))
  }

  lemma RealTops(t: Cpu, use32: bool, words: seq<dword>)
    requires Frame(t, use32, words) && |words| == 3
    ensures var s1, s2 := Popped(t, use32), Popped(Popped(t, use32), use32);
            && Top(t, use32) == words[0] && Top(s1, use32) == words[1] && Top(s2, use32) == words[2]
            && Popped(s2, use32) == t.(esp := Moved(t, t.esp, 3 * Width(use32)))
  {
    hide Moved, Peek, PeekAt;
    var w := Width(use32);
    PopIs(t, use32, 0);
    PopIs(t, use32, 1);
    PopIs(Popped(t, use32), use32, 0);
    PopIs(Popped(t, use32), use32, 1);
    PopIs(Popped(Popped(t, use32), use32), use32, 0);
    assert PeekAt(t, use32, 0) == words[0] && PeekAt(t, use32, 1) == words[1] && PeekAt(t, use32, 2) == words[2];
    SamePointers(t, Popped(t, use32), Moved(t, t.esp, w), w);
    MovedSum(t, t.esp, w, w);
    SamePointers(t, Popped(Popped(t, use32), use32), Moved(t, t.esp, 2 * w), w);
    MovedSum(t, t.esp, 2 * w, w);
  }

  /** In real mode, and in virtual-8086 mode at I/O level 3, three words come off; below level 3 it is an exception. */
  lemma RealIretResumes(t: Cpu, use32: bool, eip: dword, cs: word, flags: dword, back: dword)
    requires RealLike(t) && Frame(t, use32, [eip, cs, flags])
    ensures var o := Iret(t, use32, back);
            if t.pmode && Iopl(t.flags) != 3 then o == Raise(GP, 0, t)
            else
              && o.Done? && RealFlagsTaken(o.s.flags, t, use32, flags)
              && o.s == t.(cs := RealSegment(cs), codeBig := false, eip := eip, esp := Moved(t, t.esp, 3 * Width(use32)),
                           flags := o.s.flags)
  {
    hide Moved, Frame, Top, Lookup, Bit, SetFlags, RealFlagsTaken, IretSameLevel, IretOuterLevel, SwitchTask;
    RealTops(t, use32, [eip, cs, flags]);
    LowOfWord(cs);
    var mask := if t.pmode then FMASK_NORMAL + FLAG_NT else if use32 then FMASK_ALL else FMASK_ALL % 0x1_0000;
    var u := LoadCode(t.(esp := Moved(t, t.esp, 3 * Width(use32))), RealSegment(cs), false, eip);
    FlagsOnly(u, flags, mask);
    TakesRealFlags(t, u, use32, flags, mask);
  }

  lemma TakesRealFlags(t: Cpu, u: Cpu, use32: bool, popped: dword, mask: nat)
    requires RealLike(t) && u.flags == t.flags && u.idToggle == t.idToggle
    requires mask == if t.pmode then FMASK_NORMAL + FLAG_NT else if use32 then FMASK_ALL else FMASK_ALL % 0x1_0000
    ensures RealFlagsTaken(SetFlags(u, popped, mask).flags, t, use32, popped)
  {
    hide Bit, SetFlags;
    forall k: nat
      ensures Bit(SetFlags(u, popped, mask).flags, k)
              == (k == 1 || if WritableReal(t, use32, k) then Bit(popped, k) else Bit(t.flags, k))
    {
      SetFlagsBits(u, popped, mask, k);
      FlagMaskBits(k);
    }
  }
}
