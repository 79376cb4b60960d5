/**
 The processor state that far transfers read and write: linear memory, descriptors, the TSS
 register, the segment registers and the stack.
 */
module CpuState {
  import opened Bits
  import opened Words

  type level = x: nat | x < 4

  // ----- linear memory, little-endian, addresses modulo 2^32

  /** Bytes that were never written are zero. */
  type Memory = map<dword, byte>

  function Address(a: int): dword { a % 0x1_0000_0000 }

  function ReadB(m: Memory, a: int): byte {
    if Address(a) in m then m[Address(a)] else 0
  }

  function ReadW(m: Memory, a: int): word {
    ReadB(m, a) + 0x100 * ReadB(m, a + 1)
  }

  function ReadD(m: Memory, a: int): dword {
    ReadW(m, a) + 0x1_0000 * ReadW(m, a + 2)
  }

  function WriteB(m: Memory, a: int, v: byte): Memory { m[Address(a) := v] }

  function WriteW(m: Memory, a: int, v: word): Memory {
    WriteB(WriteB(m, a, v % 0x100), a + 1, v / 0x100)
  }

  function WriteD(m: Memory, a: int, v: dword): Memory {
    WriteW(WriteW(m, a, v % 0x1_0000), a + 2, v / 0x1_0000)
  }

  // ----- the flags register

  const IF_BIT: nat := 9
  const TF_BIT: nat := 8
  const NT_BIT: nat := 14
  const VM_BIT: nat := 17

  const FMASK_NORMAL: nat := 0x40fd5
  const FMASK_ALL: nat := 0x47fd5
  const FLAG_NT: nat := 0x4000
  const FLAG_VM: nat := 0x2_0000

  /** f with the bits of w wherever m has a one. */
  function Select(f: nat, w: nat, m: nat): nat
    decreases f + w + m
  {
    if f == 0 && w == 0 && m == 0 then 0
    else (if m % 2 == 1 then w % 2 else f % 2) + 2 * Select(f / 2, w / 2, m / 2)
  }

  function SetBit(f: nat, k: nat, b: bool): nat {
    Select(f, if b then Pow2(k) else 0, Pow2(k))
  }

  function Iopl(f: nat): level { f / 0x1000 % 4 }

  // ----- descriptors

  datatype Descriptor = Descriptor(lo: dword, hi: dword) {
    function Type(): nat { hi / 0x100 % 0x20 }
    function DPL(): level { hi / 0x2000 % 4 }
    predicate Present() { hi / 0x8000 % 2 == 1 }
    predicate Big() { hi / 0x40_0000 % 2 == 1 }
    function Base(): dword { hi / 0x100_0000 * 0x100_0000 + hi % 0x100 * 0x1_0000 + lo / 0x1_0000 }
    function Limit(): nat {
      var l := hi / 0x1_0000 % 0x10 * 0x1_0000 + lo % 0x1_0000;
      if hi / 0x80_0000 % 2 == 1 then l * 0x1000 + 0xfff else l
    }
    // as a gate
    function Selector(): word { lo / 0x1_0000 }
    function Offset(): dword { hi / 0x1_0000 * 0x1_0000 + lo % 0x1_0000 }
    function Params(): nat { hi % 0x20 }
    predicate Is386() { Type() / 8 % 2 == 1 }
    predicate Busy() { Type() / 2 % 2 == 1 }
    function SetBusy(b: bool): Descriptor {
      var was := if hi / 0x200 % 2 == 1 then 0x200 else 0;
      Descriptor(lo, hi - was + if b then 0x200 else 0)
    }
  }

  predicate IsNonConforming(t: nat) { 0x18 <= t <= 0x1b }
  predicate IsConforming(t: nat) { 0x1c <= t <= 0x1f }
  predicate IsCode(t: nat) { IsNonConforming(t) || IsConforming(t) }
  predicate IsWritableData(t: nat) { t == 0x12 || t == 0x13 || t == 0x16 || t == 0x17 }

  const TSS_386_AVAILABLE: nat := 0x09
  const CALL_GATE_286: nat := 0x04
  const CALL_GATE_386: nat := 0x0c
  const TASK_GATE: nat := 0x05
  const LDT: nat := 0x02

  const NO_DESCRIPTOR := Descriptor(0, 0)

  datatype Table = Table(base: dword, limit: nat)

  datatype Segment = Segment(val: word, phys: dword)

  datatype SegName = ES | SS | DS | FS | GS

  /** The TSS register, TR. */
  datatype Task = Task(desc: Descriptor, selector: word, base: dword, limit: nat, is386: bool, valid: bool)

  datatype General = General(eax: dword, ecx: dword, edx: dword, ebx: dword, ebp: dword, esi: dword, edi: dword)

  datatype Cpu = Cpu(
    mem: Memory,
    gdt: Table, idt: Table, ldt: Table, ldtValue: word, task: Task,
    pmode: bool, cpl: level, cr3: dword,
    cs: Segment, ss: Segment, es: Segment, ds: Segment, fs: Segment, gs: Segment,
    codeBig: bool, stackBig: bool,
    gpr: General, esp: dword, eip: dword, flags: nat,
    which: nat, error: nat,
    fsBase: dword, idToggle: bool)

  predicate V86(s: Cpu) { Bit(s.flags, VM_BIT) }

  /** An operation ends, ends in a call of CPU_Exception, or ends the emulator through E_Exit. */
  datatype Outcome = Done(s: Cpu) | Raise(which: nat, code: nat, s: Cpu) | Exit

  const GP := 13
  const NP := 11
  const SSF := 12

  /** CPU_SetFlags */
  function SetFlags(s: Cpu, w: nat, mask: nat): Cpu {
    var m := if s.idToggle then Select(mask, 0x20_0000, 0x20_0000) else mask;
    s.(flags := SetBit(Select(s.flags, w, m), 1, true))
  }

  function Rpl(sel: word): level { sel % 4 }

  predicate NullSelector(sel: word) { sel < 4 }

  /** `(sel & 0xfffc) | cpl` */
  function WithRpl(sel: word, cpl: level): word { sel - sel % 4 + cpl }

  // ----- descriptor tables

  /** Where the tables keep the descriptor of a selector. */
  function EntryAddress(s: Cpu, sel: word): int {
    (if sel / 4 % 2 == 1 then s.ldt.base else s.gdt.base) + sel / 8 * 8
  }

  predicate InTable(s: Cpu, sel: word) {
    sel / 8 * 8 < (if sel / 4 % 2 == 1 then s.ldt.limit else s.gdt.limit)
  }

  function LoadDescriptor(m: Memory, a: int): Descriptor {
    Descriptor(ReadD(m, a), ReadD(m, a + 4))
  }

  /** GetDescriptor; a selector beyond the limit leaves the zero descriptor. */
  function Lookup(s: Cpu, sel: word): Descriptor {
    if InTable(s, sel) then LoadDescriptor(s.mem, EntryAddress(s, sel)) else NO_DESCRIPTOR
  }

  function StoreDescriptor(s: Cpu, sel: word, d: Descriptor): Cpu {
    if InTable(s, sel) then
      s.(mem := WriteD(WriteD(s.mem, EntryAddress(s, sel), d.lo), EntryAddress(s, sel) + 4, d.hi))
    else s
  }

  // ----- the stack

  function Masked(s: Cpu, x: int): dword {
    if s.stackBig then x % 0x1_0000_0000 else x % 0x1_0000
  }

  /** The stack pointer moved by n, wrapping within the stack segment's width. */
  function Moved(s: Cpu, esp: dword, n: int): dword {
    if s.stackBig then (esp + n) % 0x1_0000_0000
    else esp / 0x1_0000 * 0x1_0000 + (esp + n) % 0x1_0000
  }

  function StackAddress(s: Cpu, esp: dword): int { s.ss.phys + Masked(s, esp) }

  function Push16(s: Cpu, v: word): Cpu {
    var e := Moved(s, s.esp, -2);
    s.(mem := WriteW(s.mem, StackAddress(s, e), v), esp := e)
  }

  function Push32(s: Cpu, v: dword): Cpu {
    var e := Moved(s, s.esp, -4);
    s.(mem := WriteD(s.mem, StackAddress(s, e), v), esp := e)
  }

  function Push(s: Cpu, use32: bool, v: dword): Cpu {
    if use32 then Push32(s, v) else Push16(s, v % 0x1_0000)
  }

  /** The value at a stack pointer. */
  function Peek(s: Cpu, use32: bool, esp: dword): dword {
    if use32 then ReadD(s.mem, StackAddress(s, esp)) else ReadW(s.mem, StackAddress(s, esp))
  }

  function Width(use32: bool): int { if use32 then 4 else 2 }

  function Popped(s: Cpu, use32: bool): Cpu { s.(esp := Moved(s, s.esp, Width(use32))) }

  function Top(s: Cpu, use32: bool): dword { Peek(s, use32, s.esp) }

  function Low16(x: nat): word { x % 0x1_0000 }

  /** Loads SS and the stack pointer from a descriptor, as at the commit points. */
  function SwitchStack(s: Cpu, sel: word, d: Descriptor, esp: dword): Cpu {
    s.(ss := Segment(sel, d.Base()), stackBig := d.Big(),
       esp := if d.Big() then esp else s.esp / 0x1_0000 * 0x1_0000 + esp % 0x1_0000)
  }

  function SwitchLevel(s: Cpu, sel: word, d: Descriptor, esp: dword, l: level): Cpu {
    SwitchStack(s, sel, d, esp).(cpl := l)
  }

  // ----- segment registers

  /** Loads CS, its width and EIP. */
  function LoadCode(s: Cpu, cs: Segment, big: bool, eip: dword): Cpu {
    s.(cs := cs, codeBig := big, eip := eip)
  }

  function RealSegment(sel: word): Segment { Segment(sel, sel * 16) }

  function GetSeg(s: Cpu, name: SegName): Segment {
    match name case ES => s.es case SS => s.ss case DS => s.ds case FS => s.fs case GS => s.gs
  }

  function PutSeg(s: Cpu, name: SegName, v: Segment): Cpu {
    match name
    case ES => s.(es := v)
    case SS => s.(ss := v)
    case DS => s.(ds := v)
    case FS => s.(fs := v)
    case GS => s.(gs := v)
  }

  /** The fix-up that ends CPU_SetSegGeneral. */
  function FixFs(s: Cpu): Cpu { s.(fs := s.fs.(phys := s.fsBase)) }

  function Prepared(s: Cpu, which: nat, code: nat): Cpu { s.(which := which, error := code) }

  function SetReal(s: Cpu, name: SegName, v: word): Cpu {
    var t := PutSeg(s, name, RealSegment(v));
    FixFs(if name.SS? then t.(stackBig := false) else t)
  }

  function SetStack(s: Cpu, v: word): Outcome {
    var d := Lookup(s, v);
    if NullSelector(v) || !InTable(s, v) || Rpl(v) != s.cpl || d.DPL() != s.cpl then Exit
    else if !IsWritableData(d.Type()) then Done(Prepared(s, GP, WithRpl(v, 0)))
    else if !d.Present() then Done(Prepared(s, SSF, WithRpl(v, 0)))
    else Done(FixFs(s.(ss := Segment(v, d.Base()), stackBig := d.Big())))
  }

  function SetData(s: Cpu, name: SegName, v: word): Cpu {
    var d := Lookup(s, v);
    var t := d.Type();
    if NullSelector(v) then PutSeg(s, name, Segment(v, 0))
    else if !InTable(s, v) then Prepared(s, GP, WithRpl(v, 0))
    else if (0x10 <= t <= 0x17 || t == 0x1a || t == 0x1b) && (Rpl(v) > d.DPL() || s.cpl > d.DPL()) then
      Prepared(s, GP, WithRpl(v, 0))
    else if !(0x10 <= t <= 0x17) && t != 0x1a && t != 0x1b && t != 0x1e && t != 0x1f then
      Prepared(s, GP, WithRpl(v, 0))
    else if !d.Present() then Prepared(s, NP, WithRpl(v, 0))
    else FixFs(PutSeg(s, name, Segment(v, d.Base())))
  }

  /** CPU_SetSegGeneral, whose callers here ignore its result. */
  function SetSegGeneral(s: Cpu, name: SegName, v: word): Outcome {
    if !s.pmode || V86(s) then Done(SetReal(s, name, v))
    else if name.SS? then SetStack(s, v)
    else Done(SetData(s, name, v))
  }

  function AndSet(o: Outcome, name: SegName, v: word): Outcome {
    if o.Done? then SetSegGeneral(o.s, name, v) else o
  }

  /** One of the four questions of CPU_CheckSegments. */
  function CheckSegment(o: Outcome, name: SegName): Outcome {
    if !o.Done? then o
    else
      var v := GetSeg(o.s, name).val;
      var d := Lookup(o.s, v);
      if !InTable(o.s, v) || (0x10 <= d.Type() <= 0x1b && o.s.cpl > d.DPL())
      then SetSegGeneral(o.s, name, 0) else o
  }

  /** CPU_CheckSegments */
  function CheckSegments(s: Cpu): Outcome {
    CheckSegment(CheckSegment(CheckSegment(CheckSegment(Done(s), ES), DS), FS), GS)
  }

  // ----- the TSS register

  function SetSelector(s: Cpu, t: Task, sel: word): (r: (Task, bool)) {
    if NullSelector(sel) then (t.(selector := 0, base := 0, limit := 0, is386 := true, valid := false), true)
    else if sel / 4 % 2 == 1 || !InTable(s, sel) then (t.(valid := false), false)
    else
      var d := Lookup(s, sel);
      if (d.Type() == 1 || d.Type() == 3 || d.Type() == 9 || d.Type() == 11) && d.Present() then
        (Task(d, sel, d.Base(), d.Limit(), d.Is386(), true), true)
      else (t.(desc := d, valid := false), false)
  }

  const NO_TASK := Task(NO_DESCRIPTOR, 0, 0, 0, true, false)

  /** Get_SSx_ESPx: the stack the current TSS keeps for a level. */
  function TaskStack(s: Cpu, l: level): (word, dword) {
    if s.task.is386 then
      (ReadW(s.mem, s.task.base + 4 + l * 8 + 4), ReadD(s.mem, s.task.base + 4 + l * 8))
    else
      (ReadW(s.mem, s.task.base + 2 + l * 4 + 2), ReadW(s.mem, s.task.base + 2 + l * 4))
  }

  function LoadLdt(s: Cpu, sel: word): Cpu {
    var d := Lookup(s, sel);
    if NullSelector(sel) then s.(ldt := Table(0, 0), ldtValue := 0)
    else if !InTable(s, sel) || d.Type() != LDT then Prepared(s, GP, sel)
    else if !d.Present() then Prepared(s, NP, sel)
    else s.(ldt := Table(d.Base(), d.Limit()), ldtValue := sel)
  }
}
