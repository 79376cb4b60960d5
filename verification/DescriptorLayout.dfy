/**
 Where the fields of descriptors and gates lie in memory, byte by byte, and the bytes that decide where an
 interrupt handler starts.
 */
module DescriptorLayout {
  import opened Bits
  import opened CpuState
  import opened FarTransfers
  import opened PrivilegeProofs
  import opened GateProofs
  import opened StackWords
  import opened InterruptProofs
  import opened InterruptFrames
  import opened Words

  function FourBytes(b0: byte, b1: byte, b2: byte, b3: byte): dword { b0 + 0x100 * b1 + 0x1_0000 * (b2 + 0x100 * b3) }

  lemma Halves(b0: byte, b1: byte, b2: byte, b3: byte)
    ensures var x := FourBytes(b0, b1, b2, b3);
            && x / 0x1_0000 == b2 + 0x100 * b3 && x % 0x1_0000 == b0 + 0x100 * b1
            && x / 0x100_0000 == b3 && x % 0x100 == b0 && x / 0x100 == b1 + 0x100 * (b2 + 0x100 * b3)
  {
  }

  lemma AccessFields(b: byte, r: nat)
    ensures var y := b + 0x100 * r;
            y % 0x20 == b % 0x20 && y / 0x20 % 4 == b / 0x20 % 4 && y / 0x80 % 2 == b / 0x80
  {
    assert (b + 0x100 * r) / 0x20 == b / 0x20 + 8 * r;
    assert (b + 0x100 * r) / 0x80 == b / 0x80 + 2 * r;
  }

  lemma SizeFields(b: byte, r: nat)
    ensures var y := b + 0x100 * r;
            y / 0x40 % 2 == b / 0x40 % 2 && y % 0x10 == b % 0x10 && y / 0x80 % 2 == b / 0x80
  {
    LowFour(b, r);
    HighTwo(b, r);
  }

  lemma LowFour(b: byte, r: nat)
    ensures (b + 0x100 * r) % 0x10 == b % 0x10
  {
    Remainder(b + 0x100 * r, b / 0x10 + 0x10 * r, b % 0x10);
  }

  lemma Remainder(x: nat, q: nat, r: nat)
    requires x == 0x10 * q + r && r < 0x10
    ensures x % 0x10 == r
  {
  }

  lemma HighTwo(b: byte, r: nat)
    ensures (b + 0x100 * r) / 0x40 % 2 == b / 0x40 % 2 && (b + 0x100 * r) / 0x80 % 2 == b / 0x80
  {
    assert (b + 0x100 * r) / 0x40 == b / 0x40 + 4 * r;
    assert (b + 0x100 * r) / 0x80 == b / 0x80 + 2 * r;
  }

  lemma Divisions(x: nat)
    ensures x / 0x2000 == x / 0x100 / 0x20 && x / 0x8000 == x / 0x100 / 0x80
    ensures x / 0x40_0000 == x / 0x1_0000 / 0x40 && x / 0x80_0000 == x / 0x1_0000 / 0x80
  {
    var q, p := x / 0x100, x / 0x1_0000;
    assert x == 0x2000 * (q / 0x20) + (0x100 * (q % 0x20) + x % 0x100);
    assert x == 0x8000 * (q / 0x80) + (0x100 * (q % 0x80) + x % 0x100);
    assert x == 0x40_0000 * (p / 0x40) + (0x1_0000 * (p % 0x40) + x % 0x1_0000);
    assert x == 0x80_0000 * (p / 0x80) + (0x1_0000 * (p % 0x80) + x % 0x1_0000);
  }

  lemma LoadedWords(m: Memory, a: int)
    ensures LoadDescriptor(m, a).lo == FourBytes(ReadB(m, a), ReadB(m, a + 1), ReadB(m, a + 2), ReadB(m, a + 3))
    ensures LoadDescriptor(m, a).hi == FourBytes(ReadB(m, a + 4), ReadB(m, a + 5), ReadB(m, a + 6), ReadB(m, a + 7))
  {
    hide ReadB;
  }

  /** The base of a segment is in bytes 2, 3, 4 and 7 of its descriptor. */
  function BaseBytes(m: Memory, a: int): dword {
    FourBytes(ReadB(m, a + 2), ReadB(m, a + 3), ReadB(m, a + 4), ReadB(m, a + 7))
  }

  /** The limit is in bytes 0 and 1 and the lower half of byte 6, and counts pages if that byte's top bit is set. */
  function LimitBytes(m: Memory, a: int): nat {
    var l := ReadB(m, a) + 0x100 * ReadB(m, a + 1) + 0x1_0000 * (ReadB(m, a + 6) % 0x10);
    if ReadB(m, a + 6) >= 0x80 then 0x1000 * l + 0xfff else l
  }

  lemma SegmentLayout(m: Memory, a: int)
    ensures var d := LoadDescriptor(m, a);
            && d.Base() == BaseBytes(m, a) && d.Limit() == LimitBytes(m, a)
            && d.Type() == ReadB(m, a + 5) % 0x20 && d.DPL() == ReadB(m, a + 5) / 0x20 % 4
            && (d.Present() <==> ReadB(m, a + 5) >= 0x80) && (d.Big() <==> ReadB(m, a + 6) / 0x40 % 2 == 1)
  {
    hide ReadB, ReadW, ReadD, FourBytes;
    var d := LoadDescriptor(m, a);
    LoadedWords(m, a);
    Halves(ReadB(m, a), ReadB(m, a + 1), ReadB(m, a + 2), ReadB(m, a + 3));
    Halves(ReadB(m, a + 4), ReadB(m, a + 5), ReadB(m, a + 6), ReadB(m, a + 7));
    AccessFields(ReadB(m, a + 5), ReadB(m, a + 6) + 0x100 * ReadB(m, a + 7));
    SizeFields(ReadB(m, a + 6), ReadB(m, a + 7));
    Divisions(d.hi);
    Assembled(ReadB(m, a + 2), ReadB(m, a + 3), ReadB(m, a + 4), ReadB(m, a + 7));
  }

  lemma Assembled(b2: byte, b3: byte, b4: byte, b7: byte)
    ensures FourBytes(b2, b3, b4, b7) == b7 * 0x100_0000 + b4 * 0x1_0000 + (b2 + 0x100 * b3)
  {
  }

  /** A gate keeps its offset in bytes 0, 1, 6 and 7, its selector in 2 and 3 and its parameter count in byte 4. */
  lemma GateLayout(m: Memory, a: int)
    ensures var g := LoadDescriptor(m, a);
            && g.Offset() == ReadW(m, a) + 0x1_0000 * ReadW(m, a + 6) && g.Selector() == ReadW(m, a + 2)
            && g.Params() == ReadB(m, a + 4) % 0x20
  {
    hide ReadB, FourBytes;
    LoadedWords(m, a);
    Halves(ReadB(m, a), ReadB(m, a + 1), ReadB(m, a + 2), ReadB(m, a + 3));
    Halves(ReadB(m, a + 4), ReadB(m, a + 5), ReadB(m, a + 6), ReadB(m, a + 7));
    LowFive(LoadDescriptor(m, a).hi);
  }

  lemma LowFive(x: nat)
    ensures x % 0x20 == x % 0x100 % 0x20
  {
    assert x == 0x20 * (8 * (x / 0x100) + x % 0x100 / 0x20) + x % 0x100 % 0x20;
  }

  // ----- the handler's address

  /** Where the table that a selector points into keeps its entry. */
  function TableEntry(s: Cpu, sel: word): int { (if sel / 4 % 2 == 1 then s.ldt.base else s.gdt.base) + 8 * (sel / 8) }

  /** From memory to the handler: eight bytes a gate in the interrupt table, eight bytes a segment in the descriptor table. */
  lemma HandlerAddress(s: Cpu, num: nat, kind: Kind, oldEip: dword)
    requires s.pmode && IsIntGate(IdtGate(s, num)) && Interrupt(s, num, kind, oldEip).Done?
    ensures var c, g := Interrupt(s, num, kind, oldEip).s, s.idt.base + 8 * num;
            var sel := ReadW(s.mem, g + 2);
            && c.eip == ReadW(s.mem, g) + 0x1_0000 * ReadW(s.mem, g + 6)
            && c.cs.val / 4 == sel / 4 && c.cs.phys == BaseBytes(s.mem, TableEntry(s, sel))
            && (GoesIn(s, num) ==> c.cpl == ReadB(s.mem, TableEntry(s, sel) + 5) / 0x20 % 4)
  {
    hide Interrupt, GateInterrupt, IsIntGate, IdtGate, Lookup, Pushed, HandlerWords, Frame, Untouched, ReadB, ReadW, ReadD, BaseBytes, Bit, GoesIn, TableEntry,
      TaskStack, Descriptor.Type, Descriptor.DPL, Descriptor.Is386, Descriptor.Base, Descriptor.Big, Descriptor.Selector,
      Descriptor.Offset;
    HandlerEntry(s, num, kind, oldEip);
    TakenIsDelivered(s, num, kind, oldEip);
    CodesAndStacks(s, num, kind, oldEip);
    GateIs(s, num);
    GateLayout(s.mem, s.idt.base + 8 * num);
    LookedUp(s, IdtGate(s, num).Selector());
    KeepsData(s, num);
  }

  /** And to its stack: eight bytes a level in a 386 task state segment, ESP before SS. */
  lemma HandlerStackAddress(s: Cpu, num: nat, kind: Kind, oldEip: dword)
    requires s.pmode && IsIntGate(IdtGate(s, num)) && GoesIn(s, num) && s.task.is386 && Interrupt(s, num, kind, oldEip).Done?
    ensures var c, n := Interrupt(s, num, kind, oldEip).s, |Pushed(s, num, kind, oldEip)| * Width(IdtGate(s, num).Is386());
            && c.ss.val == ReadW(s.mem, s.task.base + 8 + 8 * c.cpl) && c.ss.phys == BaseBytes(s.mem, TableEntry(s, c.ss.val))
            && (c.stackBig ==> Address(c.esp + n) == ReadD(s.mem, s.task.base + 4 + 8 * c.cpl))
  {
    hide Interrupt, GateInterrupt, IsIntGate, IdtGate, Lookup, Pushed, HandlerWords, Frame, Untouched, ReadB, ReadW, ReadD, BaseBytes, Bit, GoesIn, TableEntry,
      Address, Moved, HandlerBase, HandlerStack, HandlerCode, Descriptor.Type, Descriptor.DPL, Descriptor.Is386, Descriptor.Base, Descriptor.Big, Descriptor.Selector,
      Descriptor.Offset;
    HandlerEntry(s, num, kind, oldEip);
    TakenIsDelivered(s, num, kind, oldEip);
    CodesAndStacks(s, num, kind, oldEip);
    LookedUp(s, HandlerStack(s, num).0);
    HandlerBaseIs(s, num);
    UnmovedBy(HandlerBase(s, num), |Pushed(s, num, kind, oldEip)| * Width(IdtGate(s, num).Is386()));
  }

  lemma HandlerBaseIs(s: Cpu, num: nat)
    requires GoesIn(s, num) && s.task.is386
    ensures var b, l := HandlerBase(s, num), HandlerCode(s, num).DPL();
            && b.ss.val == ReadW(s.mem, s.task.base + 8 + 8 * l) == HandlerStack(s, num).0 && b.cpl == l
            && b.ss.phys == Lookup(s, b.ss.val).Base() && (b.stackBig ==> b.esp == ReadD(s.mem, s.task.base + 4 + 8 * l))
  {
    hide IdtGate, Lookup, ReadW, ReadD, GoesIn, Descriptor.Type, Descriptor.DPL, Descriptor.Base, Descriptor.Big;
    assert s.task.base + 4 + HandlerCode(s, num).DPL() * 8 == s.task.base + 4 + 8 * HandlerCode(s, num).DPL();
  }

  lemma GateIs(s: Cpu, num: nat)
    requires num * 8 < s.idt.limit
    ensures IdtGate(s, num) == LoadDescriptor(s.mem, s.idt.base + 8 * num)
  {
    hide LoadDescriptor;
    assert num * 8 == 8 * num;
  }

  lemma UnmovedBy(b: Cpu, n: int)
    ensures b.stackBig ==> Address(Moved(b, b.esp, -n) + n) == b.esp
  {
    if b.stackBig {
      SumBig(b.esp - n, n);
    }
  }

  /** The types of a completed interrupt's code and stack descriptors: neither is the one beyond the table. */
  lemma CodesAndStacks(s: Cpu, num: nat, kind: Kind, oldEip: dword)
    requires GateInterrupt(s, IdtGate(s, num), kind, oldEip).Done?
    ensures IsCode(HandlerCode(s, num).Type())
    ensures GoesIn(s, num) ==> IsWritableData(Lookup(s, HandlerStack(s, num).0).Type())
  {
    hide Lookup, IdtGate, Bit, EnterHandler, PushV86Segments, SwitchStack, Push, Descriptor.Type, Descriptor.DPL, Descriptor.Is386;
  }

  lemma LookedUp(s: Cpu, sel: word)
    requires Lookup(s, sel).Type() != 0
    ensures var d, a := Lookup(s, sel), TableEntry(s, sel);
            d.Base() == BaseBytes(s.mem, a) && d.DPL() == ReadB(s.mem, a + 5) / 0x20 % 4
  {
    hide LoadDescriptor, ReadB, BaseBytes, Descriptor.Base, Descriptor.DPL, InTable;
    SegmentLayout(s.mem, TableEntry(s, sel));
    assert EntryAddress(s, sel) == TableEntry(s, sel);
  }
}
