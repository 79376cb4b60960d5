/**
 The IA-32 meaning of the flags (Intel SDM volume 1, section 3.4.3.1; volume 2, Jcc): the getters
 after an arithmetic operation report the exact unsigned, signed and low-nibble results, and the
 branch conditions after a compare are the comparisons they are named after.
 */
module Ia32Flags {
  import opened Bits
  import opened LazyFlags
  import opened FlagProofs

  predicate IsSum(op: Op) { op.ADD? || op.ADC? }

  predicate IsDifference(op: Op) { op.SBB? || op.SUB? || op.CMP? }

  predicate IsLogic(op: Op) { op.OR? || op.AND? || op.XOR? || op.TEST? }

  predicate UsesCarry(op: Op) { op.ADC? || op.SBB? }

  /** The exact result over the integers, for whichever integers stand for the operands. */
  function Exact(op: Op, x: int, y: int, carry: bool): int {
    var c := if carry && UsesCarry(op) then 1 else 0;
    if IsSum(op) || op.INC? then x + y + c else x - y - c
  }

  /** Sum or difference by the standard's words: carry, adjust and overflow are exact results out of range. */
  function Arithmetic(op: Op, w: Width, a: nat, b: nat, carry: bool, r: nat): Flags
    requires a < Modulus(w) && b < Modulus(w) && r < Modulus(w)
  {
    Flags(
      !(0 <= Exact(op, a, b, carry) < Modulus(w)),
      Ones(r % 0x100) % 2 == 0,
      !(0 <= Exact(op, a % 16, b % 16, carry) < 16),
      r == 0,
      Signed(w, r) < 0,
      !(0 - SignBit(w) <= Exact(op, Signed(w, a), Signed(w, b), carry) < SignBit(w)))
  }

  function Logical(w: Width, r: nat): Flags
    requires r < Modulus(w)
  {
    Flags(false, Ones(r % 0x100) % 2 == 0, false, r == 0, Signed(w, r) < 0, false)
  }

  // ----- what an operation records

  lemma RecordsBinary(op: Op, w: Width, s: Alu, a: nat, b: nat)
    requires IsSum(op) || IsDifference(op) || IsLogic(op)
    requires a < Modulus(w) && b < Modulus(w)
    ensures var r := Binary(op, w, s, a, b);
            && r.0.lf.ftype == T(op, w) && Var1(r.0) == a && Var2(r.0) == b && Res(r.0) == r.1
            && (UsesCarry(op) ==> r.0.lf.oldcf == GetCF(s)) && r.0.flags == s.flags
            && (!IsLogic(op) ==> r.1 == Trunc(w, Exact(op, a, b, GetCF(s))))
  {
    hide And, Xor, GetCF, Lo, Trunc, SetLo;
    Fits(w, a);
    Fits(w, b);
    Fits(w, Binary(op, w, s, a, b).1);
  }

  lemma Fits(w: Width, x: nat)
    requires x < Modulus(w)
    ensures Trunc(w, x) == x
  {
  }

  lemma ResultBits(s: Alu)
    requires s.lf.ftype.T?
    ensures GetPF(s) <==> Ones(Res(s) % 0x100) % 2 == 0
    ensures GetZF(s) <==> Res(s) == 0
    ensures GetSF(s) <==> Signed(s.lf.ftype.w, Res(s)) < 0
  {
    hide And, Ones, ParityLookup, Lo;
    LowByte(s.lf.ftype.w, s.lf.res);
    ParityTable(Res(s) % 0x100);
    SignTest(s.lf.ftype.w, Res(s));
  }

  // ----- sums and differences

  lemma SumAux(w: Width, a: nat, b: nat, c: nat)
    requires a < Modulus(w) && b < Modulus(w) && c < 2
    ensures var r := Trunc(w, a + b + c);
            (((a / 16 % 2 == 1) != (b / 16 % 2 == 1)) != (r / 16 % 2 == 1)) <==> a % 16 + b % 16 + c >= 16
  {
    var r := Trunc(w, a + b + c);
    assert r == a + b + c || r == a + b + c - Modulus(w);
    NibbleCarry(w, a, b, c, r);
  }

  lemma NibbleCarry(w: Width, a: nat, b: nat, c: nat, r: nat)
    requires c < 2 && (r == a + b + c || r == a + b + c - Modulus(w))
    ensures (((a / 16 % 2 == 1) != (b / 16 % 2 == 1)) != (r / 16 % 2 == 1)) <==> a % 16 + b % 16 + c >= 16
  {
    var k := if a % 16 + b % 16 + c >= 16 then 1 else 0;
    SumNibbles(a / 16, a % 16, b / 16, b % 16, c, k);
    WrapKeepsBitFour(w, a + b + c);
    ParityOfThree(a / 16, b / 16, k);
  }

  lemma SumNibbles(p: int, m: nat, q: int, n: nat, c: nat, k: nat)
    requires m < 16 && n < 16 && c < 2 && k == if m + n + c >= 16 then 1 else 0
    ensures (16 * p + m + (16 * q + n) + c) / 16 == p + q + k
  {
  }

  lemma DifferenceNibbles(p: int, m: nat, q: int, n: nat, c: nat, k: nat)
    requires m < 16 && n < 16 && c < 2 && k == if m < n + c then 1 else 0
    ensures (16 * p + m - (16 * q + n) - c) / 16 == p - q - k
  {
  }

  lemma ParityOfThree(x: int, y: int, k: nat)
    requires k < 2
    ensures ((x % 2 == 1) != (y % 2 == 1)) != ((x + y + k) % 2 == 1) <==> k == 1
    ensures ((x % 2 == 1) != (y % 2 == 1)) != ((x - y - k) % 2 == 1) <==> k == 1
  {
  }

  lemma WrapKeepsBitFour(w: Width, x: int)
    ensures (x + Modulus(w)) / 16 % 2 == x / 16 % 2
    ensures (x - Modulus(w)) / 16 % 2 == x / 16 % 2
  {
    match w
    case Byte =>
      assert (x + 0x100) / 16 == x / 16 + 2 * 8 && (x - 0x100) / 16 == x / 16 - 2 * 8;
    case Word =>
      assert (x + 0x1_0000) / 16 == x / 16 + 2 * 0x800 && (x - 0x1_0000) / 16 == x / 16 - 2 * 0x800;
    case DWord =>
      assert (x + 0x1_0000_0000) / 16 == x / 16 + 2 * 0x800_0000 && (x - 0x1_0000_0000) / 16 == x / 16 - 2 * 0x800_0000;
  }

  lemma DifferenceAux(w: Width, a: nat, b: nat, c: nat)
    requires a < Modulus(w) && b < Modulus(w) && c < 2
    ensures var r := Trunc(w, a - b - c);
            (((a / 16 % 2 == 1) != (b / 16 % 2 == 1)) != (r / 16 % 2 == 1)) <==> a % 16 < b % 16 + c
  {
    var r := Trunc(w, a - b - c);
    assert r == a - b - c || r == a - b - c + Modulus(w);
    NibbleBorrow(w, a, b, c, r);
  }

  lemma NibbleBorrow(w: Width, a: nat, b: nat, c: nat, r: nat)
    requires c < 2 && (r == a - b - c || r == a - b - c + Modulus(w))
    ensures (((a / 16 % 2 == 1) != (b / 16 % 2 == 1)) != (r / 16 % 2 == 1)) <==> a % 16 < b % 16 + c
  {
    var k := if a % 16 < b % 16 + c then 1 else 0;
    DifferenceNibbles(a / 16, a % 16, b / 16, b % 16, c, k);
    WrapKeepsBitFour(w, a - b - c);
    ParityOfThree(a / 16, b / 16, k);
  }

  lemma SumSign(w: Width, a: nat, b: nat, c: nat)
    requires a < Modulus(w) && b < Modulus(w) && c < 2
    ensures var r, m := Trunc(w, a + b + c), SignBit(w);
            ((a >= m) == (b >= m) && (r >= m) != (b >= m)) <==> !(0 - m <= Signed(w, a) + Signed(w, b) + c < m)
  {
    var r := Trunc(w, a + b + c);
    assert r == a + b + c || r == a + b + c - Modulus(w);
  }

  lemma DifferenceSign(w: Width, a: nat, b: nat, c: nat)
    requires a < Modulus(w) && b < Modulus(w) && c < 2
    ensures var r, m := Trunc(w, a - b - c), SignBit(w);
            ((a >= m) != (b >= m) && (a >= m) != (r >= m)) <==> !(0 - m <= Signed(w, a) - Signed(w, b) - c < m)
  {
    var r := Trunc(w, a - b - c);
    assert r == a - b - c || r == a - b - c + Modulus(w);
  }

  lemma CarryOut(w: Width, a: nat, b: nat, c: nat)
    requires a < Modulus(w) && b < Modulus(w) && c < 2
    ensures Trunc(w, a + b + c) < a || (c == 1 && Trunc(w, a + b + c) == a) <==> a + b + c >= Modulus(w)
    ensures a < Trunc(w, a - b - c) || (c == 1 && b == Modulus(w) - 1) <==> a - b - c < 0
  {
    var r, d := Trunc(w, a + b + c), Trunc(w, a - b - c);
    assert r == a + b + c || r == a + b + c - Modulus(w);
    assert d == a - b - c || d == a - b - c + Modulus(w);
  }

  lemma SumFlags(op: Op, w: Width, s: Alu, a: nat, b: nat)
    requires IsSum(op) && a < Modulus(w) && b < Modulus(w)
    ensures var r := Binary(op, w, s, a, b); Getters(r.0) == Arithmetic(op, w, a, b, GetCF(s), r.1)
  {
    hide And, Xor, Ones, Lo, Trunc, Binary, Size, GetPF, GetZF, GetSF, Res, Var1, Var2, Signed, SignBit, Modulus, ParityLookup;
    var (t, v) := Binary(op, w, s, a, b);
    var c := if op.ADC? && GetCF(s) then 1 else 0;
    RecordsBinary(op, w, s, a, b);
    ResultBits(t);
    AuxMask(a, b, v);
    AddOverflowMask(w, a, b, v, b);
    assert v == Trunc(w, a + b + c);
    SumAux(w, a, b, c);
    SumSign(w, a, b, c);
    CarryOut(w, a, b, c);
  }

  lemma DifferenceFlags(op: Op, w: Width, s: Alu, a: nat, b: nat)
    requires IsDifference(op) && a < Modulus(w) && b < Modulus(w)
    ensures var r := Binary(op, w, s, a, b); Getters(r.0) == Arithmetic(op, w, a, b, GetCF(s), r.1)
  {
    hide And, Xor, Ones, Lo, Trunc, Binary, Size, GetPF, GetZF, GetSF, Res, Var1, Var2, Signed, SignBit, Modulus, ParityLookup;
    var (t, v) := Binary(op, w, s, a, b);
    var c := if op.SBB? && GetCF(s) then 1 else 0;
    RecordsBinary(op, w, s, a, b);
    ResultBits(t);
    AuxMask(a, b, v);
    SubOverflowMask(w, a, b, v);
    assert v == Trunc(w, a - b - c);
    DifferenceAux(w, a, b, c);
    DifferenceSign(w, a, b, c);
    CarryOut(w, a, b, c);
  }

  /** Every two-operand operation leaves, lazily, the flags IA-32 defines for it. */
  lemma BinaryFlags(op: Op, w: Width, s: Alu, a: nat, b: nat)
    requires IsSum(op) || IsDifference(op) || IsLogic(op)
    requires a < Modulus(w) && b < Modulus(w)
    ensures var r := Binary(op, w, s, a, b);
            Getters(r.0) == if IsLogic(op) then Logical(w, r.1) else Arithmetic(op, w, a, b, GetCF(s), r.1)
  {
    hide And, Xor, Ones, Lo, Trunc, ParityLookup, Binary, Arithmetic, Size;
    if IsSum(op) {
      SumFlags(op, w, s, a, b);
    } else if IsDifference(op) {
      DifferenceFlags(op, w, s, a, b);
    } else {
      RecordsBinary(op, w, s, a, b);
      ResultBits(Binary(op, w, s, a, b).0);
    }
  }

  /** One bit of what a logic operation computes; TEST is AND without the store. */
  predicate LogicBit(op: Op, x: bool, y: bool)
    requires IsLogic(op)
  {
    match op case OR => x || y case XOR => x != y case AND | TEST => x && y
  }

  lemma LogicResults(op: Op, w: Width, s: Alu, a: nat, b: nat, k: nat)
    requires IsLogic(op) && a < Modulus(w) && b < Modulus(w)
    ensures Bit(Binary(op, w, s, a, b).1, k) <==> LogicBit(op, Bit(a, k), Bit(b, k))
  {
    hide And, Xor, Bit, Pow2, SetLo, Trunc;
    SizeIsPower(w);
    LogicRange(a, b, Size(w));
    Fits(w, And(a, b));
    Fits(w, Xor(a, b));
    Fits(w, And(a, b) + Xor(a, b));
    OrBit(a, b, k);
    XorBit(a, b, k);
    AndBit(a, b, k);
  }

  lemma SizeIsPower(w: Width)
    ensures Pow2(Size(w)) == Modulus(w)
  {
    Powers();
  }

  // ----- one operand

  lemma RecordsUnary(op: Op, w: Width, s: Alu, a: nat)
    requires (op.INC? || op.DEC? || op.NEG?) && a < Modulus(w)
    ensures var r := Unary(op, w, s, a);
            && r.0.lf.ftype == T(op, w) && Var1(r.0) == a && Res(r.0) == r.1
            && r.1 == (if op.NEG? then Trunc(w, 0 - a) else Trunc(w, Exact(op, a, 1, false)))
            && r.0.flags == if op.NEG? then s.flags else s.flags.(cf := GetCF(s))
  {
    hide And, Xor, GetCF, Lo, Trunc, SetLo;
    Fits(w, a);
    Fits(w, Unary(op, w, s, a).1);
  }

  /** INC and DEC set every flag of the sum or difference with one except the carry, which they keep. */
  lemma UnaryFlags(op: Op, w: Width, s: Alu, a: nat)
    requires (op.INC? || op.DEC?) && a < Modulus(w)
    ensures var r := Unary(op, w, s, a); Getters(r.0) == Arithmetic(op, w, a, 1, false, r.1).(cf := GetCF(s))
  {
    hide And, Xor, Ones, Lo, Trunc, ParityLookup, Unary, Size;
    RecordsUnary(op, w, s, a);
    ResultBits(Unary(op, w, s, a).0);
    StepRange(w, a);
    NibbleStep(w, a);
  }

  /** NEG sets the flags of the difference of zero and its operand. */
  lemma NegFlags(w: Width, s: Alu, a: nat)
    requires a < Modulus(w)
    ensures var r := Unary(NEG, w, s, a); Getters(r.0) == Arithmetic(NEG, w, 0, a, false, r.1)
  {
    hide And, Xor, Ones, Lo, Trunc, ParityLookup, Unary, Size;
    RecordsUnary(NEG, w, s, a);
    ResultBits(Unary(NEG, w, s, a).0);
    StepRange(w, a);
  }

  lemma StepRange(w: Width, a: nat)
    requires a < Modulus(w)
    ensures Trunc(w, a + 1) == if a + 1 == Modulus(w) then 0 else a + 1
    ensures Trunc(w, a - 1) == if a == 0 then Modulus(w) - 1 else a - 1
    ensures Trunc(w, 0 - a) == if a == 0 then 0 else Modulus(w) - a
  {
  }

  lemma NibbleStep(w: Width, a: nat)
    requires a < Modulus(w)
    ensures Trunc(w, a + 1) % 16 == 0 <==> a % 16 == 15
    ensures Trunc(w, a - 1) % 16 == 15 <==> a % 16 == 0
  {
    StepRange(w, a);
  }

  // ----- runs

  datatype Instruction =
    | Two(op: Op, w: Width, a: nat, b: nat)
    | One(op: Op, w: Width, a: nat)
    | Shifts(op: Op, w: Width, a: nat, count: nat)
    | Doubles(op: Op, w: Width, a: nat, b: nat, count: nat)
    | Fill
  {
    predicate Valid() {
      match this
      case Two(op, w, a, b) => (IsSum(op) || IsDifference(op) || IsLogic(op)) && a < Modulus(w) && b < Modulus(w)
      case One(op, w, a) => (op.INC? || op.DEC? || op.NEG?) && a < Modulus(w)
      case Shifts(op, w, a, count) => (op.SHL? || op.SHR? || op.SAR?) && a < Modulus(w) && count < 32
      case Doubles(op, w, a, b, count) =>
        (op.DSHL? || op.DSHR?) && w != Byte && a < Modulus(w) && b < Modulus(w) && count < 32
      case Fill => true
    }
  }

  function Execute(s: Alu, i: Instruction): Alu
    requires i.Valid()
  {
    match i
    case Two(op, w, a, b) => Binary(op, w, s, a, b).0
    case One(op, w, a) => Unary(op, w, s, a).0
    case Shifts(op, w, a, count) => Shift(op, w, s, a, count).0
    case Doubles(op, w, a, b, count) => DoubleShift(op, w, s, a, b, count).0
    case Fill => FillFlags(s)
  }

  function Run(s: Alu, program: seq<Instruction>): Alu
    requires forall i :: i in program ==> i.Valid()
  {
    if program == [] then s
    else Execute(Run(s, program[..|program| - 1]), program[|program| - 1])
  }

  lemma ExecuteProduces(s: Alu, i: Instruction)
    requires i.Valid() && Produced(s)
    ensures Produced(Execute(s, i))
  {
    hide And, Xor, Lo, GetCF, Trunc, Shl, Shr, FillWord;
    if i.One? {
      RecordsUnary(i.op, i.w, s, i.a);
    }
  }

  /** Over any program, FillFlags agrees with the getters outside the two excluded families. */
  lemma {:induction false} EagerOverRuns(s: Alu, program: seq<Instruction>)
    requires Produced(s) && forall i :: i in program ==> i.Valid()
    ensures var t := Run(s, program);
            Produced(t) && (FillFlags(t) == SimpleFillFlags(t) <==> !ShiftsOutSign(t) && !KeepsStaleAux(t))
  {
    hide Execute;
    if program != [] {
      var before := program[..|program| - 1];
      EagerOverRuns(s, before);
      ExecuteProduces(Run(s, before), program[|program| - 1]);
    }
    LazyEqualsEagerIff(Run(s, program));
  }

  // ----- branch conditions

  predicate TFLG_B(f: Flags) { f.cf }
  predicate TFLG_NB(f: Flags) { !f.cf }
  predicate TFLG_BE(f: Flags) { f.cf || f.zf }
  predicate TFLG_NBE(f: Flags) { !f.cf && !f.zf }
  predicate TFLG_L(f: Flags) { f.sf != f.of }
  predicate TFLG_NL(f: Flags) { f.sf == f.of }
  predicate TFLG_LE(f: Flags) { f.zf || f.sf != f.of }
  predicate TFLG_NLE(f: Flags) { !f.zf && f.sf == f.of }

  /** The flags a condition sees: lazily through the getters, or from the register after FillFlags. */
  predicate SeenAfter(f: Flags, s: Alu) {
    f == Getters(s) || f == FillFlags(s).flags
  }

  /** After CMP a,b the eight conditions are the unsigned and the signed comparisons of a and b. */
  lemma ConditionsCompare(w: Width, s: Alu, a: nat, b: nat, f: Flags)
    requires a < Modulus(w) && b < Modulus(w) && SeenAfter(f, Binary(CMP, w, s, a, b).0)
    ensures TFLG_B(f) <==> a < b
    ensures TFLG_NB(f) <==> a >= b
    ensures TFLG_BE(f) <==> a <= b
    ensures TFLG_NBE(f) <==> a > b
    ensures TFLG_L(f) <==> Signed(w, a) < Signed(w, b)
    ensures TFLG_NL(f) <==> Signed(w, a) >= Signed(w, b)
    ensures TFLG_LE(f) <==> Signed(w, a) <= Signed(w, b)
    ensures TFLG_NLE(f) <==> Signed(w, a) > Signed(w, b)
  {
    hide And, Xor, Ones, Lo, Trunc, ParityLookup, Binary, FillWord, GetCF, GetAF, GetOF;
    var (t, r) := Binary(CMP, w, s, a, b);
    RecordsBinary(CMP, w, s, a, b);
    ReadAfterFill(t);
    FillIsIdempotent(t);
    DifferenceFlags(CMP, w, s, a, b);
    Difference(w, a, b);
  }

  lemma Difference(w: Width, a: nat, b: nat)
    requires a < Modulus(w) && b < Modulus(w)
    ensures Trunc(w, a - b) == if a < b then a - b + Modulus(w) else a - b
  {
  }
}
