/** What the shift macros compute: multiplication, and division rounded down, by powers of two. */
module ShiftProofs {
  import opened Bits
  import opened LazyFlags
  import opened FlagProofs

  lemma {:induction false} ShlMultiplies(x: nat, k: nat)
    ensures Shl(x, k) == x * Pow2(k)
    decreases k
  {
    if k > 0 {
      ShlMultiplies(2 * x, k - 1);
      assert 2 * x * Pow2(k - 1) == x * (2 * Pow2(k - 1));
    }
  }

  /** q is x divided by 2^k, rounded towards minus infinity. */
  ghost predicate Floor(q: int, x: int, k: nat) {
    q * Pow2(k) <= x < q * Pow2(k) + Pow2(k)
  }

  lemma {:induction false} SarFloors(x: int, k: nat)
    ensures Floor(Sar(x, k), x, k)
    decreases k
  {
    if k > 0 {
      var q, p := Sar(x / 2, k - 1), Pow2(k - 1);
      SarFloors(x / 2, k - 1);
      assert q * (2 * p) == 2 * (q * p);
    }
  }

  lemma {:induction false} SarBit(x: nat, k: nat)
    ensures Sar(x, k) % 2 == 1 <==> Bit(x, k)
    decreases k
  {
    if k > 0 {
      SarBit(x / 2, k - 1);
    }
  }

  lemma {:induction false} SarTwice(x: int, j: nat, k: nat)
    ensures Sar(x, j + k) == Sar(Sar(x, j), k)
    decreases j
  {
    if j > 0 {
      SarTwice(x / 2, j - 1, k);
    }
  }

  /** Shifting the borrowed modulus out along with the value. */
  lemma {:induction false} SarBorrow(x: int, n: nat, k: nat)
    requires k <= n
    ensures Sar(x - Pow2(n), k) == Sar(x, k) - Pow2(n - k)
    decreases k
  {
    if k > 0 {
      assert (x - Pow2(n)) / 2 == x / 2 - Pow2(n - 1);
      SarBorrow(x / 2, n - 1, k - 1);
    }
  }

  lemma {:induction false} SarShrinks(x: int, k: nat)
    ensures x >= 0 ==> 0 <= Sar(x, k) <= x
    ensures x < 0 ==> x <= Sar(x, k) < 0
    decreases k
  {
    if k > 0 {
      SarShrinks(x / 2, k - 1);
    }
  }

  /** Beyond the operand's width nothing but the sign is left, so clamping the count changes nothing. */
  lemma {:induction false} SarFixed(x: int, k: nat)
    requires x == 0 || x == -1
    ensures Sar(x, k) == x
    decreases k
  {
    if k > 0 {
      SarFixed(x, k - 1);
    }
  }

  lemma {:induction false} SarExhausts(x: int, n: nat)
    requires 0 - Pow2(n) <= x < Pow2(n)
    ensures Sar(x, n) == if x < 0 then -1 else 0
    decreases n
  {
    if n > 0 {
      SarExhausts(x / 2, n - 1);
    }
  }

  lemma ClampIsHarmless(w: Width, x: int, count: nat)
    requires 0 - Modulus(w) <= x < Modulus(w) && count > Size(w)
    ensures Sar(x, count) == Sar(x, Size(w))
  {
    Powers();
    SarExhausts(x, Size(w));
    SarTwice(x, Size(w), count - Size(w));
    SarFixed(Sar(x, Size(w)), count - Size(w));
  }

  lemma ByteMultiple(x: int, p: int)
    ensures (x + 0x100 * p) % 0x100 == x % 0x100
  {
    assert x + 0x100 * p == 0x100 * (x / 0x100 + p) + x % 0x100;
  }

  lemma WordMultiple(x: int, p: int)
    ensures (x + 0x1_0000 * p) % 0x1_0000 == x % 0x1_0000
  {
    assert x + 0x1_0000 * p == 0x1_0000 * (x / 0x1_0000 + p) + x % 0x1_0000;
  }

  lemma DWordMultiple(x: int, p: int)
    ensures (x + 0x1_0000_0000 * p) % 0x1_0000_0000 == x % 0x1_0000_0000
  {
    assert x + 0x1_0000_0000 * p == 0x1_0000_0000 * (x / 0x1_0000_0000 + p) + x % 0x1_0000_0000;
  }

  lemma TruncDropsModulus(w: Width, x: int, p: nat)
    ensures Trunc(w, x + Modulus(w) * p) == Trunc(w, x)
  {
    match w
    case Byte => ByteMultiple(x, p);
    case Word => WordMultiple(x, p);
    case DWord => DWordMultiple(x, p);
  }

  /** The ones or-ed in above a shifted negative operand make it the two's complement quotient. */
  lemma NegativeSar(w: Width, a: nat, k: nat)
    requires SignBit(w) <= a < Modulus(w) && k <= Size(w)
    ensures Signed(w, Trunc(w, Shr(a, k) + Shl(Modulus(w) - 1, Size(w) - k))) == Sar(Signed(w, a), k)
  {
    hide Shl, Sar, Trunc, Pow2;
    var p := Pow2(Size(w) - k);
    SignIsPower(w);
    ShlMultiplies(Modulus(w) - 1, Size(w) - k);
    assert (Modulus(w) - 1) * p == Modulus(w) * p - p;
    SarBorrow(a, Size(w), k);
    SarShrinks(Signed(w, a), k);
    TruncDropsModulus(w, Sar(a, k) - p, p);
    assert Shr(a, k) + Shl(Modulus(w) - 1, Size(w) - k) == (Sar(a, k) - p) + Modulus(w) * p;
    SignedTrunc(w, Sar(Signed(w, a), k));
  }

  lemma SignedTrunc(w: Width, x: int)
    requires 0 - SignBit(w) <= x < SignBit(w)
    ensures Signed(w, Trunc(w, x)) == x
  {
  }

  /** SAR divides the signed operand, rounding down, at every count; the carry is the last bit out. */
  lemma SarDivides(w: Width, s: Alu, a: nat, count: nat)
    requires a < Modulus(w) && 0 < count < 32
    ensures var (t, v) := Shift(SAR, w, s, a, count);
            && Floor(Signed(w, v), Signed(w, a), count)
            && (GetCF(t) <==> Sar(Signed(w, a), count - 1) % 2 == 1)
  {
    hide Sar, Shl, Trunc, Floor, Lo, SetLo;
    var k := if count > Size(w) then Size(w) else count;
    SarFloors(Signed(w, a), count);
    if count > Size(w) {
      ClampIsHarmless(w, Signed(w, a), count);
      ClampedCarry(w, Signed(w, a), count);
    }
    RecordsSar(w, s, a, count);
    if a >= SignBit(w) {
      NegativeSar(w, a, k);
    } else {
      SarShrinks(a, k);
      SignedTrunc(w, Sar(a, k));
    }
  }

  lemma ClampedCarry(w: Width, x: int, count: nat)
    requires 0 - SignBit(w) <= x < SignBit(w) && count > Size(w)
    ensures Sar(x, count - 1) == Sar(x, Size(w) - 1)
  {
    var n := Size(w) - 1;
    SignIsPower(w);
    SarExhausts(x, n);
    SarTwice(x, n, count - 1 - n);
    SarFixed(Sar(x, n), count - 1 - n);
  }

  lemma RecordsSar(w: Width, s: Alu, a: nat, count: nat)
    requires a < Modulus(w) && 0 < count < 32
    ensures var (t, v) := Shift(SAR, w, s, a, count);
            && t.lf.ftype == T(SAR, w) && Var1(t) == a && Res(t) == v
            && Count(t) == if count > Size(w) then Size(w) else count
  {
    hide Sar, Shl, Lo, SetLo;
    CountIsLowByte(Shift(SAR, w, s, a, count).0);
  }

  /** SHR divides and SHL multiplies modulo the width; the carry is the last bit out. */
  lemma ShrDivides(w: Width, s: Alu, a: nat, count: nat)
    requires a < Modulus(w) && 0 < count < 32
    ensures var (t, v) := Shift(SHR, w, s, a, count); Floor(v, a, count) && (GetCF(t) <==> Bit(a, count - 1))
  {
    hide Sar, Shl, Floor, Lo, SetLo, Trunc;
    RecordsShift(SHR, w, s, a, count);
    SarShrinks(a, count);
    SarFloors(a, count);
    SarBit(a, count - 1);
    InRange(w, Sar(a, count));
  }

  lemma InRange(w: Width, x: nat)
    requires x < Modulus(w)
    ensures Trunc(w, x) == x
  {
  }

  lemma ShlTimes(w: Width, s: Alu, a: nat, count: nat)
    requires a < Modulus(w) && 0 < count < 32
    ensures var (t, v) := Shift(SHL, w, s, a, count);
            v == Trunc(w, a * Pow2(count)) && (GetCF(t) <==> count <= Size(w) && Bit(a, Size(w) - count))
  {
    hide Sar, Shl, Lo, SetLo, Trunc;
    RecordsShift(SHL, w, s, a, count);
    ShlMultiplies(a, count);
    if count <= Size(w) {
      SarBit(a, Size(w) - count);
    }
  }

  // ----- double shifts

  /** Shifting a number made of a high part and n low bits. */
  lemma {:induction false} SarJoined(x: nat, y: nat, n: nat, k: nat)
    requires k <= n
    ensures Sar(x * Pow2(n) + y, k) == x * Pow2(n - k) + Sar(y, k)
    decreases k
  {
    if k > 0 {
      assert x * Pow2(n) == 2 * (x * Pow2(n - 1));
      assert (2 * (x * Pow2(n - 1)) + y) / 2 == x * Pow2(n - 1) + y / 2;
      SarJoined(x, y / 2, n - 1, k - 1);
    }
  }

  /** The upper half of a product by a power of two is the number shifted the other way. */
  lemma ShlUpper(x: nat, k: nat)
    requires k <= 16
    ensures Shl(x, k) / 0x1_0000 == Sar(x, 16 - k)
  {
    hide Shl, Sar;
    Powers();
    ShlMultiplies(x, k);
    SarFloors(x, 16 - k);
    PowersMultiply(k, 16 - k);
    Bracketed(x, Pow2(k), Sar(x, 16 - k), Pow2(16 - k));
  }

  lemma Bracketed(x: nat, p: nat, q: int, r: nat)
    requires p > 0 && p * r == 0x1_0000 && q * r <= x < q * r + r
    ensures x * p / 0x1_0000 == q
  {
    assert q * r * p == q * 0x1_0000 by {
      assert q * r * p == q * (p * r);
    }
    var d := x - q * r;
    assert x * p == q * r * p + d * p;
    assert 0 <= d * p <= (r - 1) * p < 0x1_0000;
    Quotient(q, d * p, x * p);
  }

  lemma Quotient(q: int, low: nat, x: nat)
    requires low < 0x1_0000 && x == q * 0x1_0000 + low
    ensures x / 0x1_0000 == q
  {
  }

  lemma {:induction false} PowersMultiply(j: nat, k: nat)
    ensures Pow2(j) * Pow2(k) == Pow2(j + k)
    decreases j
  {
    if j > 0 {
      PowersMultiply(j - 1, k);
    }
  }

  /**
   What a double-precision shift moves along: the two operands end to end. At word width the operand
   shifted in stands there twice, and is reached a second time by counts above sixteen.
   */
  function Joined(op: Op, w: Width, a: nat, b: nat): nat
    requires op.DSHL? || op.DSHR?
  {
    if w.DWord? then if op.DSHL? then a * 0x1_0000_0000 + b else b * 0x1_0000_0000 + a
    else if op.DSHL? then (a * 0x1_0000 + b) * 0x1_0000 + b
    else b * 0x1_0000_0000 + (b * 0x1_0000 + a)
  }

  /** The double-precision shifts take their result, and the last bit shifted out, from the operands put end to end. */
  lemma DoubleShiftJoins(op: Op, w: Width, s: Alu, a: nat, b: nat, count: nat)
    requires (op.DSHL? || op.DSHR?) && w != Byte && a < Modulus(w) && b < Modulus(w) && 0 < count < 32
    ensures var (t, v), all := DoubleShift(op, w, s, a, b, count), Joined(op, w, a, b);
            && v == Trunc(w, Sar(all, if op.DSHL? then 32 - count else count))
            && (GetCF(t) <==> Bit(all, if op.DSHL? then 32 - count + Size(w) else count - 1))
  {
    hide Sar, Shl, Trunc, Bit, DoubleShift, Joined;
    RecordsDouble(op, w, s, a, b, count);
    if op.DSHL? {
      LeftCarry(w, a, b, count);
      LeftJoins(w, a, b, count);
    } else {
      RightCarry(w, a, b, count);
      RightJoins(w, a, b, count);
    }
  }

  function DoubleOperand(op: Op, w: Width, a: nat, b: nat): nat {
    if w.DWord? then a else if op.DSHL? then a * 0x1_0000 + b else b * 0x1_0000 + a
  }

  lemma RecordsDouble(op: Op, w: Width, s: Alu, a: nat, b: nat, count: nat)
    requires (op.DSHL? || op.DSHR?) && w != Byte && a < Modulus(w) && b < Modulus(w) && 0 < count < 32
    ensures var (t, v), x := DoubleShift(op, w, s, a, b, count), DoubleOperand(op, w, a, b);
            && (GetCF(t) <==> Shr(x, if op.DSHL? then 32 - count else count - 1) % 2 == 1)
            && v == (if op.DSHL? then LeftValue(w, x, b, count) else RightValue(w, x, b, count))
  {
    hide Sar, Shl, Lo, SetLo, Trunc;
    InRange(Byte, count);
    CountIsLowByte(DoubleShift(op, w, s, a, b, count).0);
  }

  /** The two sums the macros make. */
  function LeftValue(w: Width, x: nat, b: nat, count: nat): nat
    requires 0 < count < 32
  {
    Trunc(w,
      if w.DWord? then Shl(x, count) + Shr(b, 32 - count)
      else Shl(x, count) % 0x1_0000_0000 / 0x1_0000 + (if count > 16 then Shl(b, count - 16) / 0x1_0000 else 0))
  }

  function RightValue(w: Width, x: nat, b: nat, count: nat): nat
    requires 0 < count < 32
  {
    Trunc(w, Shr(x, count) + (if w.DWord? || count > 16 then Shl(b, 32 - count) else 0))
  }

  lemma LeftJoins(w: Width, a: nat, b: nat, count: nat)
    requires w != Byte && b < Modulus(w) && 0 < count < 32
    ensures LeftValue(w, DoubleOperand(DSHL, w, a, b), b, count) == Trunc(w, Sar(Joined(DSHL, w, a, b), 32 - count))
  {
    hide Sar, Shl, Trunc;
    if w.DWord? {
      Powers();
      SarJoined(a, b, 32, 32 - count);
      ShlMultiplies(a, count);
    } else if count <= 16 {
      WordLeftNear(a, b, count);
    } else {
      WordLeftFar(a, b, count);
    }
  }

  lemma RightJoins(w: Width, a: nat, b: nat, count: nat)
    requires w != Byte && 0 < count < 32
    ensures RightValue(w, DoubleOperand(DSHR, w, a, b), b, count) == Trunc(w, Sar(Joined(DSHR, w, a, b), count))
  {
    hide Sar, Shl, Trunc, Pow2;
    var x := DoubleOperand(DSHR, w, a, b);
    Powers();
    SarJoined(b, x, 32, count);
    if w.DWord? || count > 16 {
      ShlMultiplies(b, 32 - count);
    } else {
      PowersMultiply(16, 16 - count);
      Regrouped(b, 0x1_0000, Pow2(16 - count));
      TruncDropsModulus(Word, Sar(x, count), b * Pow2(16 - count));
    }
  }

  lemma Regrouped(x: nat, y: nat, z: nat)
    ensures x * (y * z) == y * (x * z)
  {
  }

  lemma WordLeftNear(a: nat, b: nat, count: nat)
    requires b < 0x1_0000 && 0 < count <= 16
    ensures var x := a * 0x1_0000 + b;
            Trunc(Word, Shl(x, count) % 0x1_0000_0000 / 0x1_0000) == Trunc(Word, Sar(Joined(DSHL, Word, a, b), 32 - count))
  {
    hide Sar, Shl, Pow2;
    Powers();
    PowerZero();
    var x := a * 0x1_0000 + b;
    SarJoined(x, b, 16, 16);
    SarExhausts(b, 16);
    SarTwice(x * 0x1_0000 + b, 16, 16 - count);
    ShlUpper(x, count);
    UpperHalf(Shl(x, count));
  }

  lemma WordLeftFar(a: nat, b: nat, count: nat)
    requires 16 < count < 32
    ensures var x := a * 0x1_0000 + b;
            Trunc(Word, Shl(x, count) % 0x1_0000_0000 / 0x1_0000 + Shl(b, count - 16) / 0x1_0000)
            == Trunc(Word, Sar(Joined(DSHL, Word, a, b), 32 - count))
  {
    hide Sar, Shl, Pow2, Trunc;
    Powers();
    var x, high, p := a * 0x1_0000 + b, Shl(a * 0x1_0000 + b, count), Pow2(count - 16);
    SarJoined(x, b, 16, 32 - count);
    ShlMultiplies(x, count);
    PowersMultiply(16, count - 16);
    Regrouped(x, 0x1_0000, p);
    Quotient(x * p, 0, high);
    UpperHalf(high);
    ShlUpper(b, count - 16);
    SameSum(high % 0x1_0000_0000 / 0x1_0000, x * p, Sar(b, 32 - count));
  }

  lemma SameSum(x: int, y: int, z: int)
    requires x % 0x1_0000 == y % 0x1_0000
    ensures Trunc(Word, x + z) == Trunc(Word, y + z)
  {
    WordMultiple(y + z, x / 0x1_0000 - y / 0x1_0000);
  }

  /** What is shifted out on the left is above the operand that is shifted in. */
  lemma LeftCarry(w: Width, a: nat, b: nat, count: nat)
    requires w != Byte && b < Modulus(w) && 0 < count < 32
    ensures Bit(Joined(DSHL, w, a, b), 32 - count + Size(w)) <==> Shr(DoubleOperand(DSHL, w, a, b), 32 - count) % 2 == 1
  {
    hide Sar, Bit;
    Powers();
    var x, all := DoubleOperand(DSHL, w, a, b), Joined(DSHL, w, a, b);
    SarBit(all, 32 - count + Size(w));
    SarTwice(all, Size(w), 32 - count);
    SarJoined(x, b, Size(w), Size(w));
    SarExhausts(b, Size(w));
  }

  lemma RightCarry(w: Width, a: nat, b: nat, count: nat)
    requires w != Byte && 0 < count < 32
    ensures Bit(Joined(DSHR, w, a, b), count - 1) <==> Shr(DoubleOperand(DSHR, w, a, b), count - 1) % 2 == 1
  {
    hide Sar, Bit, Pow2;
    Powers();
    var x, all := DoubleOperand(DSHR, w, a, b), Joined(DSHR, w, a, b);
    SarBit(all, count - 1);
    SarJoined(b, x, 32, count - 1);
    PowersMultiply(1, 32 - count);
    PowerOne();
    Regrouped(b, 2, Pow2(32 - count));
    EvenPart(b * Pow2(32 - count), Sar(x, count - 1));
  }

  lemma PowerOne()
    ensures Pow2(1) == 2
  {
  }

  lemma PowerZero()
    ensures Pow2(0) == 1
  {
  }

  lemma EvenPart(x: int, y: int)
    ensures (2 * x + y) % 2 == y % 2
  {
  }

  lemma UpperHalf(x: nat)
    ensures x % 0x1_0000_0000 / 0x1_0000 % 0x1_0000 == x / 0x1_0000 % 0x1_0000
  {
    var r := x % 0x1_0000_0000;
    assert x == 0x1_0000 * (0x1_0000 * (x / 0x1_0000_0000) + r / 0x1_0000) + r % 0x1_0000;
    assert x / 0x1_0000 == 0x1_0000 * (x / 0x1_0000_0000) + r / 0x1_0000;
  }
}
