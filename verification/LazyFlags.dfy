/**
 Lazy condition flags as values: the record of the last operation, the per-flag getters that
 reconstruct a flag from it, the hand-unrolled FillFlags, and the operations that leave the record.
 Words are natural numbers; the three operand widths share one definition.
 */
module LazyFlags {
  import opened Bits

  datatype Width = Byte | Word | DWord

  function Size(w: Width): nat {
    match w case Byte => 8 case Word => 16 case DWord => 32
  }

  function Modulus(w: Width): (m: nat)
    ensures m > 0
  {
    match w case Byte => 0x100 case Word => 0x1_0000 case DWord => 0x1_0000_0000
  }

  /** The weight of the sign bit. */
  function SignBit(w: Width): nat {
    match w case Byte => 0x80 case Word => 0x8000 case DWord => 0x8000_0000
  }

  /** The byte, word or double word at the low end of a register. */
  function Lo(w: Width, x: nat): (r: nat)
    ensures r < Modulus(w)
  {
    match w case Byte => x % 0x100 case Word => x % 0x1_0000 case DWord => x % 0x1_0000_0000
  }

  function Trunc(w: Width, x: int): (r: nat)
    ensures r < Modulus(w)
  {
    match w case Byte => x % 0x100 case Word => x % 0x1_0000 case DWord => x % 0x1_0000_0000
  }

  /** Writes the low end of a register and keeps the rest. */
  function SetLo(w: Width, x: nat, v: int): (r: nat)
    ensures Lo(w, r) == Trunc(w, v)
  {
    LowEnd(w, x, Trunc(w, v));
    x - Lo(w, x) + Trunc(w, v)
  }

  lemma LowEnd(w: Width, x: nat, low: nat)
    requires low < Modulus(w)
    ensures x >= Lo(w, x) && Lo(w, x - Lo(w, x) + low) == low
  {
    match w
    case Byte => RestOfByte(x / 0x100, low);
    case Word => RestOfWord(x / 0x1_0000, low);
    case DWord => RestOfDWord(x / 0x1_0000_0000, low);
  }

  lemma RestOfByte(q: int, r: nat)
    requires r < 0x100
    ensures (0x100 * q + r) % 0x100 == r
  {
  }

  lemma RestOfWord(q: int, r: nat)
    requires r < 0x1_0000
    ensures (0x1_0000 * q + r) % 0x1_0000 == r
  {
  }

  lemma RestOfDWord(q: int, r: nat)
    requires r < 0x1_0000_0000
    ensures (0x1_0000_0000 * q + r) % 0x1_0000_0000 == r
  {
  }

  function Signed(w: Width, x: nat): int {
    if x >= SignBit(w) then x - Modulus(w) else x
  }

  datatype Op =
    | ADD | OR | ADC | SBB | AND | SUB | XOR | CMP | TEST
    | INC | DEC | NEG
    | SHL | SHR | SAR
    | DSHL | DSHR

  /** t_UNKNOWN, or the type of one operation at one width. */
  datatype FlagType = Unknown | T(op: Op, w: Width)

  datatype LazyFlags = LazyFlags(var1: nat, var2: nat, res: nat, ftype: FlagType, oldcf: bool)

  /** The six condition flags of the flags register. */
  datatype Flags = Flags(cf: bool, pf: bool, af: bool, zf: bool, sf: bool, of: bool)

  datatype Alu = Alu(lf: LazyFlags, flags: Flags)

  /** The arithmetic shift right, which rounds towards minus infinity. */
  function Sar(x: int, k: nat): (r: int)
    ensures x >= 0 ==> r >= 0
    decreases k
  {
    if k == 0 then x else Sar(x / 2, k - 1)
  }

  /** `x >> k` of an unsigned value for the shift amounts that occur. */
  function Shr(x: nat, k: int): nat {
    if k < 0 then 0 else Sar(x, k)
  }

  function Shl(x: nat, k: nat): nat
    decreases k
  {
    if k == 0 then x else Shl(2 * x, k - 1)
  }

  /** The rows of the parity table: a row of sixteen entries and its complement, by the parity of the high nibble. */
  const EVEN_ROW: seq<bool> := [true, false, false, true, false, true, true, false, false, true, true, false, true, false, false, true]
  const ODD_ROW: seq<bool> := [false, true, true, false, true, false, false, true, true, false, false, true, false, true, true, false]

  function ParityRow(hi: nat): (r: seq<bool>)
    requires hi < 16
    ensures |r| == 16
  {
    if hi == 0 || hi == 3 || hi == 5 || hi == 6 || hi == 9 || hi == 10 || hi == 12 || hi == 15 then EVEN_ROW else ODD_ROW
  }

  /** parity_lookup */
  function ParityLookup(b: nat): bool
    requires b < 256
  {
    ParityRow(b / 16)[b % 16]
  }

  // ----- the getters

  function Var1(s: Alu): nat { if s.lf.ftype.T? then Lo(s.lf.ftype.w, s.lf.var1) else 0 }

  function Var2(s: Alu): nat { if s.lf.ftype.T? then Lo(s.lf.ftype.w, s.lf.var2) else 0 }

  function Res(s: Alu): nat { if s.lf.ftype.T? then Lo(s.lf.ftype.w, s.lf.res) else 0 }

  /** The shift count, always a byte. */
  function Count(s: Alu): nat { s.lf.var2 % 0x100 }

  function GetCF(s: Alu): bool {
    match s.lf.ftype
    case Unknown => s.flags.cf
    case T(op, w) =>
      match op
      case INC | DEC => s.flags.cf
      case ADD => Res(s) < Var1(s)
      case ADC => Res(s) < Var1(s) || (s.lf.oldcf && Res(s) == Var1(s))
      case SBB => Var1(s) < Res(s) || (s.lf.oldcf && Var2(s) == Modulus(w) - 1)
      case SUB | CMP => Var1(s) < Var2(s)
      case SHL =>
        if w != DWord && Count(s) > Size(w) then false
        else Shr(Var1(s), Size(w) - Count(s)) % 2 == 1
      case DSHL => Shr(s.lf.var1, 32 - Count(s)) % 2 == 1
      case SHR => Shr(Var1(s), Count(s) - 1) % 2 == 1
      case DSHR => Shr(s.lf.var1, Count(s) - 1) % 2 == 1
      case SAR => Count(s) > 0 && Sar(Signed(w, Var1(s)), Count(s) - 1) % 2 == 1
      case NEG => Var1(s) != 0
      case OR | AND | XOR | TEST => false
  }

  function GetAF(s: Alu): bool {
    match s.lf.ftype
    case Unknown => s.flags.af
    case T(op, w) =>
      match op
      case ADD | ADC | SBB | SUB | CMP => And(Xor(Xor(Var1(s), Var2(s)), Res(s)), 0x10) != 0
      case INC => Res(s) % 16 == 0
      case DEC => Res(s) % 16 == 15
      case NEG => Var1(s) % 16 != 0
      case SHL | SHR | SAR => Var2(s) % 32 != 0
      case OR | AND | XOR | TEST | DSHL | DSHR => false
  }

  function GetZF(s: Alu): bool {
    if s.lf.ftype.Unknown? then s.flags.zf else Res(s) == 0
  }

  function GetSF(s: Alu): bool {
    if s.lf.ftype.Unknown? then s.flags.sf else And(Res(s), SignBit(s.lf.ftype.w)) != 0
  }

  function GetOF(s: Alu): bool {
    match s.lf.ftype
    case Unknown => s.flags.of
    case T(op, w) =>
      var v1, v2, r, m := Var1(s), Var2(s), Res(s), SignBit(w);
      match op
      case ADD | ADC => And(And(Xor(Xor(v1, v2), m), Xor(r, v2)), m) != 0
      case SBB | SUB | CMP => And(And(Xor(v1, v2), Xor(v1, r)), m) != 0
      case INC => r == m
      case DEC => r == m - 1
      case NEG => v1 == m
      case SHL | DSHL | DSHR => And(Xor(r, v1), m) != 0
      case SHR => Count(s) % 32 == 1 && v1 > m
      case OR | AND | XOR | TEST | SAR => false
  }

  function GetPF(s: Alu): bool {
    if s.lf.ftype.Unknown? then s.flags.pf else ParityLookup(s.lf.res % 0x100)
  }

  function Getters(s: Alu): Flags {
    Flags(GetCF(s), GetPF(s), GetAF(s), GetZF(s), GetSF(s), GetOF(s))
  }

  /** The simple FillFlags, disabled in the source: every flag from its getter. */
  function SimpleFillFlags(s: Alu): Alu {
    Alu(s.lf.(ftype := Unknown), Getters(s))
  }

  // ----- FillFlags

  /** DOFLAG_PF, DOFLAG_AF, DOFLAG_ZF and DOFLAG_SF at the width of the last operation. */
  function DoPF(s: Alu): bool { ParityLookup(s.lf.res % 0x100) }

  function DoAF(s: Alu): bool {
    And(Xor(Xor(s.lf.var1 % 0x100, s.lf.var2 % 0x100), s.lf.res % 0x100), 0x10) != 0
  }

  function DoZF(s: Alu): bool { Res(s) == 0 }

  function DoSF(s: Alu): bool { s.lf.ftype.T? && And(Res(s), SignBit(s.lf.ftype.w)) != 0 }

  /** What the branch for the last operation writes to the carry. */
  function FillCF(s: Alu): bool
    requires s.lf.ftype.T?
  {
    var w, v1, v2, r := s.lf.ftype.w, Var1(s), Var2(s), Res(s);
    match s.lf.ftype.op
    case ADD => r < v1
    case ADC => r < v1 || (s.lf.oldcf && r == v1)
    case SBB => v1 < r || (s.lf.oldcf && v2 == Modulus(w) - 1)
    case SUB | CMP => v1 < v2
    case OR | AND | XOR | TEST => false
    case SHL => if w != DWord && Count(s) > Size(w) then false else Shr(v1, Size(w) - Count(s)) % 2 == 1
    case DSHL => Shr(s.lf.var1, 32 - Count(s)) % 2 == 1
    case SHR => Shr(v1, Count(s) - 1) % 2 == 1
    case DSHR => Shr(s.lf.var1, Count(s) - 1) % 2 == 1
    case SAR => Count(s) > 0 && Sar(Signed(w, v1), Count(s) - 1) % 2 == 1
    case INC | DEC => s.flags.cf
    case NEG => v1 != 0
  }

  /** What it writes to the adjust flag; the double shifts leave the register's bit. */
  function FillAF(s: Alu): bool
    requires s.lf.ftype.T?
  {
    match s.lf.ftype.op
    case ADD | ADC | SBB | SUB | CMP => DoAF(s)
    case OR | AND | XOR | TEST => false
    case SHL | SHR | SAR => Var2(s) % 32 != 0
    case DSHL | DSHR => s.flags.af
    case INC => Res(s) % 16 == 0
    case DEC => Res(s) % 16 == 15
    case NEG => Res(s) % 16 != 0
  }

  /** What it writes to the overflow flag. */
  function FillOF(s: Alu): bool
    requires s.lf.ftype.T?
  {
    var v1, v2, r, m := Var1(s), Var2(s), Res(s), SignBit(s.lf.ftype.w);
    match s.lf.ftype.op
    case ADD | ADC => And(And(Xor(Xor(v1, v2), m), Xor(r, v1)), m) != 0
    case SBB | SUB | CMP => And(And(Xor(v1, v2), Xor(v1, r)), m) != 0
    case OR | AND | XOR | TEST | SAR => false
    case SHL | DSHL | DSHR => And(Xor(r, v1), m) != 0
    case SHR => v2 % 32 == 1 && v1 >= m
    case INC => r == m
    case DEC => r == m - 1
    case NEG => v1 == m
  }

  /** The six bits of the register after FillFlags. */
  function FillWord(s: Alu): Flags {
    if s.lf.ftype.Unknown? then s.flags
    else Flags(FillCF(s), DoPF(s), FillAF(s), DoZF(s), DoSF(s), FillOF(s))
  }

  /** The hand-unrolled FillFlags. */
  function FillFlags(s: Alu): Alu {
    Alu(s.lf.(ftype := Unknown), FillWord(s))
  }

  /** FillFlagsNoCFOF leaves the carry and overflow bits of the register alone. */
  function FillFlagsNoCFOF(s: Alu): Alu {
    var f := FillWord(s);
    Alu(s.lf.(ftype := Unknown), f.(cf := s.flags.cf, of := s.flags.of))
  }

  // ----- the operations

  /** ADD, OR, ADC, SBB, AND, SUB, XOR, CMP, TEST; the second result is what is (or would be) stored. */
  function Binary(op: Op, w: Width, s: Alu, a: nat, b: nat): (r: (Alu, nat))
    requires op.ADD? || op.OR? || op.ADC? || op.SBB? || op.AND? || op.SUB? || op.XOR? || op.CMP? || op.TEST?
    requires a < Modulus(w) && b < Modulus(w)
    ensures r.1 < Modulus(w)
  {
    var oldcf := if op.ADC? || op.SBB? then GetCF(s) else s.lf.oldcf;
    var c := if oldcf then 1 else 0;
    var v := Trunc(w,
      match op
      case ADD => a + b
      case ADC => a + b + c
      case SBB => a - (b + c)
      case SUB | CMP => a - b
      case AND | TEST => And(a, b)
      case XOR => Xor(a, b)
      case _ => And(a, b) + Xor(a, b));
    (s.(lf := LazyFlags(SetLo(w, s.lf.var1, a), SetLo(w, s.lf.var2, b), SetLo(w, s.lf.res, v), T(op, w), oldcf)), v)
  }

  /** INC, DEC and NEG; the first two save the carry in the register. */
  function Unary(op: Op, w: Width, s: Alu, a: nat): (r: (Alu, nat))
    requires (op.INC? || op.DEC? || op.NEG?) && a < Modulus(w)
    ensures r.1 < Modulus(w)
  {
    var v := Trunc(w, if op.INC? then a + 1 else if op.DEC? then a - 1 else 0 - a);
    var flags := if op.NEG? then s.flags else s.flags.(cf := GetCF(s));
    (Alu(s.lf.(var1 := SetLo(w, s.lf.var1, a), res := SetLo(w, s.lf.res, v), ftype := T(op, w)), flags), v)
  }

  /** SHL, SHR, SAR; a zero count does nothing. */
  function Shift(op: Op, w: Width, s: Alu, a: nat, count: nat): (r: (Alu, nat))
    requires (op.SHL? || op.SHR? || op.SAR?) && a < Modulus(w) && count < 32
    ensures r.1 < Modulus(w)
  {
    if count == 0 then (s, a)
    else
      var k := if op.SAR? && count > Size(w) then Size(w) else count;
      var v := Trunc(w,
        if op.SHL? then Shl(a, k)
        else if op.SHR? || a < SignBit(w) then Shr(a, k)
        else Shr(a, k) + Shl(Modulus(w) - 1, Size(w) - k));
      (s.(lf := s.lf.(var1 := SetLo(w, s.lf.var1, a), var2 := SetLo(Byte, s.lf.var2, k),
                      res := SetLo(w, s.lf.res, v), ftype := T(op, w))), v)
  }

  /** DSHL and DSHR at word and double-word width. */
  function DoubleShift(op: Op, w: Width, s: Alu, a: nat, b: nat, count: nat): (r: (Alu, nat))
    requires (op.DSHL? || op.DSHR?) && w != Byte && a < Modulus(w) && b < Modulus(w) && count < 32
    ensures r.1 < Modulus(w)
  {
    if count == 0 then (s, a)
    else
      var var1 := if w.DWord? then a else if op.DSHL? then a * 0x1_0000 + b else b * 0x1_0000 + a;
      var v := Trunc(w,
        if op.DSHL? then
          if w.DWord? then Shl(a, count) + Shr(b, 32 - count)
          else Shl(var1, count) % 0x1_0000_0000 / 0x1_0000 + (if count > 16 then Shl(b, count - 16) / 0x1_0000 else 0)
        else
          if w.DWord? then Shr(a, count) + Shl(b, 32 - count)
          else Shr(var1, count) + (if count > 16 then Shl(b, 32 - count) else 0));
      (s.(lf := s.lf.(var1 := var1, var2 := SetLo(Byte, s.lf.var2, count),
                      res := SetLo(w, s.lf.res, v), ftype := T(op, w))), v)
  }
}
