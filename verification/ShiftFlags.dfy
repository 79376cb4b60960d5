/** What the flags say after the shifts: the result, and for a count of one the change of sign. */
module ShiftFlags {
  import opened Bits
  import opened LazyFlags
  import opened FlagProofs
  import opened ShiftProofs
  import opened Ia32Flags

  predicate IsDouble(op: Op) { op.DSHL? || op.DSHR? }

  predicate IsShift(op: Op, w: Width) {
    op.SHL? || op.SHR? || op.SAR? || (IsDouble(op) && w != Byte)
  }

  /** A shift of a by count; a double shift takes its other bits from b. */
  function AnyShift(op: Op, w: Width, s: Alu, a: nat, b: nat, count: nat): (Alu, nat)
    requires IsShift(op, w) && a < Modulus(w) && b < Modulus(w) && count < 32
  {
    if IsDouble(op) then DoubleShift(op, w, s, a, b, count) else Shift(op, w, s, a, count)
  }

  lemma RecordsAnyShift(op: Op, w: Width, s: Alu, a: nat, b: nat, count: nat)
    requires IsShift(op, w) && a < Modulus(w) && b < Modulus(w) && 0 < count < 32
    ensures var (t, v) := AnyShift(op, w, s, a, b, count);
            && v < Modulus(w) && t.lf.ftype == T(op, w) && Res(t) == v && t.flags == s.flags
            && Count(t) == (if op.SAR? && count > Size(w) then Size(w) else count)
            && Var1(t) == if op.DSHL? && w.Word? then b else a
  {
    hide Sar, Shl, Lo, SetLo, Trunc;
    var (t, v) := AnyShift(op, w, s, a, b, count);
    CountIsLowByte(t);
    InRange(Byte, count);
    InRange(Byte, Size(w));
    InRange(w, v);
    InRange(w, a);
    if op.DSHL? && w.Word? {
      LowOperand(a, b);
    } else if op.DSHR? && w.Word? {
      LowOperand(b, a);
    } else if w.DWord? {
      LowIsTrunc(w, a);
    }
  }

  lemma LowIsTrunc(w: Width, x: nat)
    ensures Lo(w, x) == Trunc(w, x)
  {
  }

  lemma LowOperand(a: nat, b: nat)
    requires b < 0x1_0000
    ensures Lo(Word, a * 0x1_0000 + b) == b
  {
    RestOfWord(a, b);
  }

  /**
   A zero count leaves operand and flags alone; after any other count the zero, sign and parity flags
   are those of the result.
   */
  lemma ShiftResultFlags(op: Op, w: Width, s: Alu, a: nat, b: nat, count: nat)
    requires IsShift(op, w) && a < Modulus(w) && b < Modulus(w) && count < 32
    ensures var (t, v) := AnyShift(op, w, s, a, b, count);
            if count == 0 then v == a && Getters(t) == Getters(s)
            else
              && v < Modulus(w) && (GetZF(t) <==> v == 0) && (GetSF(t) <==> Signed(w, v) < 0)
              && (GetPF(t) <==> Ones(v % 0x100) % 2 == 0) && (GetAF(t) <==> !IsDouble(op))
  {
    hide Lo, SetLo, Trunc, Getters, Ones, GetPF, GetZF, GetSF, And, Xor;
    if count > 0 {
      hide Shift, DoubleShift;
      var (t, v) := AnyShift(op, w, s, a, b, count);
      RecordsAnyShift(op, w, s, a, b, count);
      ResultBits(t);
      CountInVar2(t);
    }
  }

  /** The count is the low byte of the second operand's register at every width. */
  lemma CountInVar2(s: Alu)
    requires s.lf.ftype.T?
    ensures Var2(s) % 32 == Count(s) % 32
  {
    hide Lo;
    LowByte(s.lf.ftype.w, s.lf.var2);
    ThirtyTwo(Var2(s));
    ThirtyTwo(s.lf.var2);
  }

  lemma ThirtyTwo(x: nat)
    ensures x % 0x100 % 32 == x % 32
  {
    ByteParts(x);
  }

  /**
   IA-32 sets the overflow flag of a shift by one exactly when the sign changes.  So does the getter, but
   for SHR of the sign bit alone, and for SHLD of a word whose two operands differ in sign: there it looks
   at the sign of the operand that is shifted in.
   */
  lemma OneBitOverflowIff(op: Op, w: Width, s: Alu, a: nat, b: nat)
    requires IsShift(op, w) && a < Modulus(w) && b < Modulus(w)
    ensures var (t, v) := AnyShift(op, w, s, a, b, 1);
            (GetOF(t) <==> (Signed(w, v) < 0) != (Signed(w, a) < 0))
            <==> !(op.SHR? && a == SignBit(w)) && !(op.DSHL? && w.Word? && (Signed(w, a) < 0) != (Signed(w, b) < 0))
  {
    hide Lo, SetLo, Trunc, And, Xor, Shift, DoubleShift;
    var (t, v) := AnyShift(op, w, s, a, b, 1);
    RecordsAnyShift(op, w, s, a, b, 1);
    SignOfXor(w, v, Var1(t));
    if op.SHR? {
      HalfHasNoSign(w, s, a);
    } else if op.SAR? {
      SarKeepsSign(w, s, a);
    }
  }

  lemma SignOfXor(w: Width, x: nat, y: nat)
    requires x < Modulus(w) && y < Modulus(w)
    ensures And(Xor(x, y), SignBit(w)) != 0 <==> (Signed(w, x) < 0) != (Signed(w, y) < 0)
  {
    hide And, Xor, Bit;
    SignIsPower(w);
    MaskTestsBit(Xor(x, y), Top(w));
    XorSign(w, x, y);
  }

  lemma HalfHasNoSign(w: Width, s: Alu, a: nat)
    requires a < Modulus(w)
    ensures var v := Shift(SHR, w, s, a, 1).1; v < SignBit(w)
  {
    hide Lo, SetLo, Trunc, Bit;
    ShrDivides(w, s, a, 1);
    PowerOne();
  }

  lemma SarKeepsSign(w: Width, s: Alu, a: nat)
    requires a < Modulus(w)
    ensures Signed(w, Shift(SAR, w, s, a, 1).1) < 0 <==> Signed(w, a) < 0
  {
    hide Lo, SetLo, Trunc, Shift;
    SarDivides(w, s, a, 1);
    PowerOne();
  }
}
