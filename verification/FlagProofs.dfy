/**
 What the lazy flags mean: the hand-unrolled FillFlags against the getters, the getters against
 the IA-32 definitions (Intel SDM volume 1, section 3.4.3.1), and the branch conditions.
 */
module FlagProofs {
  import opened Bits
  import opened LazyFlags

  // ----- single bits

  /** The number of the sign bit. */
  function Top(w: Width): nat { Size(w) - 1 }

  lemma SignIsPower(w: Width)
    ensures SignBit(w) == Pow2(Top(w)) && Modulus(w) == Pow2(Top(w) + 1)
  {
    Powers();
  }

  lemma SignTest(w: Width, x: nat)
    requires x < Modulus(w)
    ensures And(x, SignBit(w)) != 0 <==> x >= SignBit(w)
  {
    SignIsPower(w);
    MaskTestsBit(x, Top(w));
    TopBit(x, Top(w));
  }

  /** The sign bit of an exclusive or. */
  lemma XorSign(w: Width, x: nat, y: nat)
    requires x < Modulus(w) && y < Modulus(w)
    ensures Bit(Xor(x, y), Top(w)) <==> (x >= SignBit(w)) != (y >= SignBit(w))
  {
    SignIsPower(w);
    XorBit(x, y, Top(w));
    TopBit(x, Top(w));
    TopBit(y, Top(w));
  }

  lemma AddOverflowMask(w: Width, v1: nat, v2: nat, r: nat, u: nat)
    requires v1 < Modulus(w) && v2 < Modulus(w) && r < Modulus(w) && u < Modulus(w)
    ensures And(And(Xor(Xor(v1, v2), SignBit(w)), Xor(r, u)), SignBit(w)) != 0
            <==> ((v1 >= SignBit(w)) == (v2 >= SignBit(w)) && (r >= SignBit(w)) != (u >= SignBit(w)))
  {
    var k, m := Top(w), SignBit(w);
    SignIsPower(w);
    MaskTestsBit(And(Xor(Xor(v1, v2), m), Xor(r, u)), k);
    AndBit(Xor(Xor(v1, v2), m), Xor(r, u), k);
    XorBit(Xor(v1, v2), m, k);
    PowerBit(k, k);
    XorSign(w, v1, v2);
    XorSign(w, r, u);
  }

  lemma SubOverflowMask(w: Width, v1: nat, v2: nat, r: nat)
    requires v1 < Modulus(w) && v2 < Modulus(w) && r < Modulus(w)
    ensures And(And(Xor(v1, v2), Xor(v1, r)), SignBit(w)) != 0
            <==> ((v1 >= SignBit(w)) != (v2 >= SignBit(w)) && (v1 >= SignBit(w)) != (r >= SignBit(w)))
  {
    SignIsPower(w);
    MaskTestsBit(And(Xor(v1, v2), Xor(v1, r)), Top(w));
    AndBit(Xor(v1, v2), Xor(v1, r), Top(w));
    XorSign(w, v1, v2);
    XorSign(w, v1, r);
  }

  lemma AuxMask(x: nat, y: nat, z: nat)
    ensures And(Xor(Xor(x, y), z), 0x10) != 0 <==> (((x / 16 % 2 == 1) != (y / 16 % 2 == 1)) != (z / 16 % 2 == 1))
  {
    Powers();
    MaskTestsBit(Xor(Xor(x, y), z), 4);
    XorBit(Xor(x, y), z, 4);
    XorBit(x, y, 4);
    BitFour(x);
    BitFour(y);
    BitFour(z);
  }

  lemma WordByte(x: int)
    ensures x % 0x1_0000 % 0x100 == x % 0x100
  {
    var r := x % 0x1_0000;
    RestOfByte(0x100 * (x / 0x1_0000) + r / 0x100, r % 0x100);
  }

  lemma DWordByte(x: int)
    ensures x % 0x1_0000_0000 % 0x100 == x % 0x100
  {
    var r := x % 0x1_0000_0000;
    RestOfByte(0x100_0000 * (x / 0x1_0000_0000) + r / 0x100, r % 0x100);
  }

  /** A byte boundary is a boundary of every width. */
  lemma TruncByte(w: Width, x: int)
    ensures Trunc(w, x) % 0x100 == x % 0x100
  {
    match w
    case Byte =>
    case Word => WordByte(x);
    case DWord => DWordByte(x);
  }

  lemma ByteParts(x: int)
    ensures x % 0x100 % 16 == x % 16 && x % 0x100 % 32 == x % 32 && x % 0x100 / 16 % 2 == x / 16 % 2
  {
    var q, r := x / 0x100, x % 0x100;
    assert r == 16 * (r / 16) + r % 16;
    assert x == 16 * (16 * q + r / 16) + r % 16;
    assert r == 32 * (r / 32) + r % 32;
    assert x == 32 * (8 * q + r / 32) + r % 32;
    assert x / 16 == 2 * (8 * q + r / 16 / 2) + r / 16 % 2;
  }

  /** The low nibble, the shift count and bit four of a register are those of its low byte. */
  lemma LowByte(w: Width, x: nat)
    ensures Lo(w, x) % 0x100 == x % 0x100
    ensures Lo(w, x) / 16 % 2 == x % 0x100 / 16 % 2
    ensures Lo(w, x) % 32 == x % 0x100 % 32 && Lo(w, x) % 16 == x % 16
  {
    TruncByte(w, x);
    ByteParts(x);
    ByteParts(Lo(w, x));
  }

  // ----- parity

  function Ones(x: nat): nat {
    if x == 0 then 0 else x % 2 + Ones(x / 2)
  }

  lemma OnesStep(x: nat, b: nat)
    requires b < 2
    ensures Ones(2 * x + b) == Ones(x) + b
  {
    assert (2 * x + b) / 2 == x && (2 * x + b) % 2 == b;
  }

  lemma OnesByNibble(hi: nat, lo: nat)
    requires lo < 16
    ensures Ones(16 * hi + lo) == Ones(hi) + lo % 2 + lo / 2 % 2 + lo / 4 % 2 + lo / 8
    ensures Ones(lo) == lo % 2 + lo / 2 % 2 + lo / 4 % 2 + lo / 8
  {
    hide Ones;
    NibbleSteps(hi, lo / 8, lo / 4 % 2, lo / 2 % 2, lo % 2);
    NibbleSteps(0, lo / 8, lo / 4 % 2, lo / 2 % 2, lo % 2);
    NoOnes();
  }

  lemma NoOnes()
    ensures Ones(0) == 0
  {
  }

  lemma NibbleSteps(hi: nat, b3: nat, b2: nat, b1: nat, b0: nat)
    requires b3 < 2 && b2 < 2 && b1 < 2 && b0 < 2
    ensures Ones(16 * hi + 8 * b3 + 4 * b2 + 2 * b1 + b0) == Ones(hi) + b3 + b2 + b1 + b0
  {
    hide Ones;
    OnesStep(hi, b3);
    OnesStep(2 * hi + b3, b2);
    OnesStep(4 * hi + 2 * b3 + b2, b1);
    OnesStep(8 * hi + 4 * b3 + 2 * b2 + b1, b0);
    assert 2 * (2 * hi + b3) + b2 == 4 * hi + 2 * b3 + b2;
    assert 2 * (4 * hi + 2 * b3 + b2) + b1 == 8 * hi + 4 * b3 + 2 * b2 + b1;
    assert 2 * (8 * hi + 4 * b3 + 2 * b2 + b1) + b0 == 16 * hi + 8 * b3 + 4 * b2 + 2 * b1 + b0;
  }

  lemma EvenRow(x: nat)
    requires x < 16
    ensures EVEN_ROW[x] <==> Ones(x) % 2 == 0
  {
    hide Ones;
    OnesByNibble(0, x);
  }

  lemma OddRow(x: nat)
    requires x < 16
    ensures ODD_ROW[x] <==> Ones(x) % 2 == 1
  {
    hide Ones;
    OnesByNibble(0, x);
  }

  lemma RowParity(x: nat)
    requires x < 16
    ensures ParityRow(x) == if Ones(x) % 2 == 0 then EVEN_ROW else ODD_ROW
  {
    hide Ones;
    OnesByNibble(0, x);
  }

  /** The table's entry says whether a byte has an even number of one bits. */
  lemma ParityTable(b: nat)
    requires b < 256
    ensures ParityLookup(b) <==> Ones(b) % 2 == 0
  {
    hide Ones, ParityRow;
    OnesByNibble(b / 16, b % 16);
    RowParity(b / 16);
    EvenRow(b % 16);
    OddRow(b % 16);
    ParityOfSum(Ones(b / 16), Ones(b % 16));
  }

  lemma ParityOfSum(x: nat, y: nat)
    ensures (x + y) % 2 == 0 <==> (x % 2 == 0) == (y % 2 == 0)
  {
  }

  // ----- lazy against eager

  /** What every operation leaves: the result recorded for NEG is the negated operand. */
  predicate Produced(s: Alu) {
    s.lf.ftype.T? && s.lf.ftype.op.NEG? ==> Res(s) == Trunc(s.lf.ftype.w, 0 - Var1(s))
  }

  /** Shifting right by one drops a bit the getter's OF looks at and FillFlags' does not. */
  predicate ShiftsOutSign(s: Alu) {
    s.lf.ftype.T? && s.lf.ftype.op.SHR? && Count(s) % 32 == 1 && Var1(s) == SignBit(s.lf.ftype.w)
  }

  predicate KeepsStaleAux(s: Alu) {
    s.lf.ftype.T? && (s.lf.ftype.op.DSHL? || s.lf.ftype.op.DSHR?) && s.flags.af
  }

  lemma AddFormsAgree(s: Alu)
    requires s.lf.ftype.T?
    ensures var w, v1, v2, r := s.lf.ftype.w, Var1(s), Var2(s), Res(s);
            And(And(Xor(Xor(v1, v2), SignBit(w)), Xor(r, v1)), SignBit(w)) != 0
            <==> And(And(Xor(Xor(v1, v2), SignBit(w)), Xor(r, v2)), SignBit(w)) != 0
  {
    var w, v1, v2, r := s.lf.ftype.w, Var1(s), Var2(s), Res(s);
    AddOverflowMask(w, v1, v2, r, v1);
    AddOverflowMask(w, v1, v2, r, v2);
  }

  lemma AuxFormsAgree(s: Alu)
    requires s.lf.ftype.T?
    ensures DoAF(s) <==> And(Xor(Xor(Var1(s), Var2(s)), Res(s)), 0x10) != 0
  {
    var w := s.lf.ftype.w;
    LowByte(w, s.lf.var1);
    LowByte(w, s.lf.var2);
    LowByte(w, s.lf.res);
    AuxMask(Var1(s), Var2(s), Res(s));
    AuxMask(s.lf.var1 % 0x100, s.lf.var2 % 0x100, s.lf.res % 0x100);
  }

  /** A nibble and the nibble of its negation are zero together. */
  lemma NegNibble(w: Width, x: nat)
    ensures Trunc(w, 0 - x) % 16 != 0 <==> x % 16 != 0
  {
    hide Trunc;
    TruncByte(w, 0 - x);
    ByteParts(0 - x);
    ByteParts(Trunc(w, 0 - x));
    NegatedNibble(x);
  }

  lemma NegatedNibble(x: int)
    ensures (0 - x) % 16 == 0 <==> x % 16 == 0
  {
  }

  lemma EagerAux(s: Alu)
    requires Produced(s) && s.lf.ftype.T?
    ensures FillWord(s).af == GetAF(s) <==> !KeepsStaleAux(s)
  {
    hide And, Xor, Sar, ParityRow, ParityLookup, Lo, Trunc, DoAF, Shr;
    AuxFormsAgree(s);
    NegNibble(s.lf.ftype.w, Var1(s));
  }

  lemma EagerOverflow(s: Alu)
    requires s.lf.ftype.T?
    ensures FillWord(s).of == GetOF(s) <==> !ShiftsOutSign(s)
  {
    hide And, Xor, Sar, DoPF, DoZF, DoSF, Lo, DoAF, Shr, SignBit;
    AddFormsAgree(s);
    LowByte(s.lf.ftype.w, s.lf.var2);
  }

  /**
   FillFlags writes exactly what the getters report, except in two families: the overflow of a
   right shift by one of exactly the sign bit, and the adjust flag of a double shift that the
   register still has set.
   */
  lemma LazyEqualsEagerIff(s: Alu)
    requires Produced(s)
    ensures FillFlags(s) == SimpleFillFlags(s) <==> !ShiftsOutSign(s) && !KeepsStaleAux(s)
  {
    if s.lf.ftype.T? {
      EagerAux(s);
      EagerOverflow(s);
    }
  }

  /** FillFlagsNoCFOF agrees with FillFlags on the other four bits and leaves the two it skips. */
  lemma NoCFOFMatchesGetters(s: Alu)
    requires Produced(s) && !KeepsStaleAux(s)
    ensures FillFlagsNoCFOF(s) == Alu(s.lf.(ftype := Unknown), Getters(s).(cf := s.flags.cf, of := s.flags.of))
  {
    if s.lf.ftype.T? {
      EagerAux(s);
      EagerOverflow(s);
    }
  }

  /** Filling makes the flags explicit: the getters then report the register, so filling again is idle. */
  lemma FillIsIdempotent(s: Alu)
    ensures FillFlags(FillFlags(s)) == FillFlags(s)
    ensures Getters(FillFlags(s)) == FillFlags(s).flags
  {
  }

  /** Reading a flag after filling is the same as reading it lazily. */
  lemma ReadAfterFill(s: Alu)
    requires Produced(s) && !ShiftsOutSign(s) && !KeepsStaleAux(s)
    ensures Getters(FillFlags(s)) == Getters(s)
  {
    LazyEqualsEagerIff(s);
    FillIsIdempotent(s);
  }

  lemma RecordsShift(op: Op, w: Width, s: Alu, a: nat, count: nat)
    requires (op.SHL? || op.SHR?) && a < Modulus(w) && 0 < count < 32
    ensures var r := Shift(op, w, s, a, count).0; r.lf.ftype == T(op, w) && Var1(r) == a && Count(r) == count
  {
    hide And, Xor, Sar, Shl, Shr, Lo;
    assert Lo(Byte, SetLo(Byte, s.lf.var2, count)) == count;
    CountIsLowByte(Shift(op, w, s, a, count).0);
  }

  lemma CountIsLowByte(s: Alu)
    ensures Count(s) == Lo(Byte, s.lf.var2)
  {
  }

  /** Every width has a shift on which the two disagree. */
  lemma SignShiftedOut(w: Width, s: Alu)
    ensures var r := Shift(SHR, w, s, SignBit(w), 1).0;
            !GetOF(r) && FillFlags(r).flags.of
  {
    RecordsShift(SHR, w, s, SignBit(w), 1);
    EagerOverflow(Shift(SHR, w, s, SignBit(w), 1).0);
  }
}
