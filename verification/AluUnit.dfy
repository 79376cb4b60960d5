/**
 The ALU macros and the flag functions as they run: each assigns the lazy record, the result and
 the register's flag bits one after the other.
 */
module AluUnit {
  import opened Bits
  import opened LazyFlags
  import Lazy = LazyFlags
  import opened FlagProofs
  import opened Ia32Flags
  import opened LimbChains

  /** The lines of a branch do not read the bits the lines before them wrote. */
  lemma RegisterBitsUnused(s: Alu, t: Alu)
    requires s.lf == t.lf && s.lf.ftype.T?
    ensures s.flags.af == t.flags.af ==> FillAF(s) == FillAF(t)
    ensures FillOF(s) == FillOF(t) && DoPF(s) == DoPF(t) && DoZF(s) == DoZF(t) && DoSF(s) == DoSF(t)
  {
    hide Lo, And, Xor, ParityLookup;
  }

  lemma TwoSteps(x: int, q: int)
    ensures (x % 0x100 + q) % 0x100 == (x + q) % 0x100
  {
  }

  class LazyCpu {
    var var1: nat
    var var2: nat
    var res: nat
    var ftype: FlagType
    var oldcf: bool
    /** The condition bits of reg_flags. */
    var cf: bool
    var pf: bool
    var af: bool
    var zf: bool
    var sf: bool
    var of: bool
    var al: nat

    ghost predicate Valid()
      reads this
    {
      al < 256 && Produced(View())
    }

    function View(): Alu
      reads this
    {
      Alu(LazyFlags(var1, var2, res, ftype, oldcf), Flags(cf, pf, af, zf, sf, of))
    }

    constructor ()
      ensures Valid() && ftype == Unknown
    {
      var1, var2, res, ftype, oldcf := 0, 0, 0, Unknown, false;
      cf, pf, af, zf, sf, of := false, false, false, false, false, false;
      al := 0;
    }

    /** ADD to TEST at any width on the operand's loaded value; the caller saves the result where the macro does. */
    method TwoOperands(op: Op, w: Width, a: nat, b: nat) returns (v: nat)
      requires Valid() && (IsSum(op) || IsDifference(op) || IsLogic(op)) && a < Modulus(w) && b < Modulus(w)
      modifies this
      ensures Valid() && al == old(al)
      ensures (View(), v) == Binary(op, w, old(View()), a, b)
      ensures Getters(View()) == if IsLogic(op) then Logical(w, v)
                                 else Arithmetic(op, w, a, b, GetCF(old(View())), v)
      ensures IsLogic(op) ==> forall k: nat :: Bit(v, k) <==> LogicBit(op, Bit(a, k), Bit(b, k))
      ensures !IsLogic(op) ==> v == Trunc(w, Exact(op, a, b, GetCF(old(View()))))
    {
      hide Lo, And, Xor, Trunc, SetLo, Ones, ParityLookup, Arithmetic, Logical, Bit;
      BinaryFlags(op, w, View(), a, b);
      RecordsBinary(op, w, View(), a, b);
      if IsLogic(op) {
        forall k: nat
          ensures Bit(Binary(op, w, View(), a, b).1, k) <==> LogicBit(op, Bit(a, k), Bit(b, k))
        {
          LogicResults(op, w, View(), a, b, k);
        }
      }
      if op.ADC? || op.SBB? {
        oldcf := GetCF(View());
      }
      var1 := SetLo(w, var1, a);
      var2 := SetLo(w, var2, b);
      var c := if oldcf then 1 else 0;
      match op {
        case ADD => v := Trunc(w, a + b);
        case ADC => v := Trunc(w, a + b + c);
        case SBB => v := Trunc(w, a - (b + c));
        case SUB | CMP => v := Trunc(w, a - b);
        case AND | TEST => v := Trunc(w, And(a, b));
        case XOR => v := Trunc(w, Xor(a, b));
        case _ => v := Trunc(w, And(a, b) + Xor(a, b));
      }
      res := SetLo(w, res, v);
      ftype := T(op, w);
    }

    method LoadCF()
      requires Valid()
      modifies this`cf
      ensures Valid() && cf == GetCF(old(View()))
    {
      cf := GetCF(View());
    }

    method OneOperand(op: Op, w: Width, a: nat) returns (v: nat)
      requires Valid() && (op.INC? || op.DEC?) && a < Modulus(w)
      modifies this
      ensures Valid() && al == old(al)
      ensures (View(), v) == Unary(op, w, old(View()), a)
      ensures GetCF(View()) == GetCF(old(View()))
    {
      hide Lo, And, Xor, Trunc, SetLo;
      ExecuteProduces(View(), One(op, w, a));
      LoadCF();
      var1 := SetLo(w, var1, a);
      v := Trunc(w, if op.INC? then a + 1 else a - 1);
      res := SetLo(w, res, v);
      ftype := T(op, w);
    }

    /** NEG, which the decoder has in line. */
    method Negate(w: Width, a: nat) returns (v: nat)
      requires Valid() && a < Modulus(w)
      modifies this
      ensures Valid() && al == old(al)
      ensures (View(), v) == Unary(NEG, w, old(View()), a)
    {
      hide Lo, And, Xor, Trunc, SetLo;
      ExecuteProduces(View(), One(NEG, w, a));
      ftype := T(NEG, w);
      var1 := SetLo(w, var1, a);
      v := Trunc(w, 0 - a);
      res := SetLo(w, res, v);
    }

    method ShiftOperand(op: Op, w: Width, a: nat, count: nat) returns (v: nat)
      requires Valid() && (op.SHL? || op.SHR? || op.SAR?) && a < Modulus(w) && count < 32
      modifies this
      ensures Valid() && al == old(al)
      ensures (View(), v) == Shift(op, w, old(View()), a, count)
    {
      hide Lo, And, Xor, Trunc, SetLo, Shl, Shr;
      if count == 0 {
        return a;
      }
      var1 := SetLo(w, var1, a);
      var k := count;
      if op.SAR? && k > Size(w) {
        k := Size(w);
      }
      var2 := SetLo(Byte, var2, k);
      if op.SHL? {
        v := Trunc(w, Shl(a, k));
      } else if op.SAR? && a >= SignBit(w) {
        v := Trunc(w, Shr(a, k) + Shl(Modulus(w) - 1, Size(w) - k));
      } else {
        v := Trunc(w, Shr(a, k));
      }
      res := SetLo(w, res, v);
      ftype := T(op, w);
    }

    method DoubleShiftOperand(op: Op, w: Width, a: nat, b: nat, count: nat) returns (v: nat)
      requires Valid() && (op.DSHL? || op.DSHR?) && w != Byte && a < Modulus(w) && b < Modulus(w) && count < 32
      modifies this
      ensures Valid() && al == old(al)
      ensures (View(), v) == DoubleShift(op, w, old(View()), a, b, count)
    {
      hide Lo, And, Xor, Trunc, SetLo, Shl, Shr;
      if count == 0 {
        return a;
      }
      var2 := SetLo(Byte, var2, count);
      if w.DWord? {
        var1 := a;
        v := Trunc(w, if op.DSHL? then Shl(a, count) + Shr(b, 32 - count) else Shr(a, count) + Shl(b, 32 - count));
      } else if op.DSHL? {
        var1 := a * 0x1_0000 + b;
        v := Shl(var1, count) % 0x1_0000_0000 / 0x1_0000;
        if count > 16 {
          v := v + Shl(b, count - 16) / 0x1_0000;
        }
        v := Trunc(w, v);
      } else {
        var1 := b * 0x1_0000 + a;
        v := Shr(var1, count);
        if count > 16 {
          v := v + Shl(b, 32 - count);
        }
        v := Trunc(w, v);
      }
      res := SetLo(w, res, v);
      ftype := T(op, w);
    }

    /** DOFLAG_PF, DOFLAG_ZF and DOFLAG_SF, which end every branch. */
    method DoResultFlags()
      requires ftype.T?
      modifies this`pf, this`zf, this`sf
      ensures pf == DoPF(old(View())) && zf == DoZF(old(View())) && sf == DoSF(old(View()))
    {
      zf := Res(View()) == 0;
      sf := And(Res(View()), SignBit(ftype.w)) != 0;
      pf := ParityLookup(res % 0x100);
    }

    method DoAuxFlag()
      requires ftype.T?
      modifies this`af
      ensures af == FillAF(old(View()))
    {
      match ftype.op {
        case ADD | ADC | SBB | SUB | CMP => af := DoAF(View());
        case OR | AND | XOR | TEST => af := false;
        case SHL | SHR | SAR => af := Var2(View()) % 32 != 0;
        case DSHL | DSHR =>
        case INC => af := Res(View()) % 16 == 0;
        case DEC => af := Res(View()) % 16 == 15;
        case NEG => af := Res(View()) % 16 != 0;
      }
    }

    /** The carry line of the branch for the last operation. */
    method DoCarryFlag()
      requires ftype.T?
      modifies this`cf
      ensures cf == FillCF(old(View()))
    {
      hide Lo, Shr, Sar;
      var w, v1, v2, r := ftype.w, Var1(View()), Var2(View()), Res(View());
      var count := Count(View());
      match ftype.op {
        case ADD => cf := r < v1;
        case ADC => cf := r < v1 || (oldcf && r == v1);
        case SBB => cf := v1 < r || (oldcf && v2 == Modulus(w) - 1);
        case SUB | CMP => cf := v1 < v2;
        case OR | AND | XOR | TEST => cf := false;
        case SHL =>
          if w != DWord && count > Size(w) {
            cf := false;
          } else {
            cf := Shr(v1, Size(w) - count) % 2 == 1;
          }
        case DSHL => cf := Shr(var1, 32 - count) % 2 == 1;
        case SHR => cf := Shr(v1, count - 1) % 2 == 1;
        case DSHR => cf := Shr(var1, count - 1) % 2 == 1;
        case SAR => cf := count > 0 && Sar(Signed(w, v1), count - 1) % 2 == 1;
        case INC | DEC =>
        case NEG => cf := v1 != 0;
      }
    }

    /** The overflow line. */
    method DoOverflowFlag()
      requires ftype.T?
      modifies this`of
      ensures of == FillOF(old(View()))
    {
      hide Lo, And, Xor;
      var v1, v2, r, m := Var1(View()), Var2(View()), Res(View()), SignBit(ftype.w);
      match ftype.op {
        case ADD | ADC => of := And(And(Xor(Xor(v1, v2), m), Xor(r, v1)), m) != 0;
        case SBB | SUB | CMP => of := And(And(Xor(v1, v2), Xor(v1, r)), m) != 0;
        case OR | AND | XOR | TEST | SAR => of := false;
        case SHL | DSHL | DSHR => of := And(Xor(r, v1), m) != 0;
        case SHR =>
          if v2 % 32 == 1 {
            of := v1 >= m;
          } else {
            of := false;
          }
        case INC => of := r == m;
        case DEC => of := r == m - 1;
        case NEG => of := v1 == m;
      }
    }

    method FillFlags()
      requires Valid()
      modifies this
      ensures Valid() && al == old(al)
      ensures View() == Lazy.FillFlags(old(View()))
      ensures View() == SimpleFillFlags(old(View())) <==> !ShiftsOutSign(old(View())) && !KeepsStaleAux(old(View()))
    {
      hide FillCF, FillAF, FillOF, DoPF, DoZF, DoSF, Getters, ShiftsOutSign, KeepsStaleAux;
      ghost var s := View();
      LazyEqualsEagerIff(s);
      if ftype.Unknown? {
        return;
      }
      DoCarryFlag();
      RegisterBitsUnused(s, View());
      DoAuxFlag();
      RegisterBitsUnused(s, View());
      DoResultFlags();
      RegisterBitsUnused(s, View());
      DoOverflowFlag();
      ftype := Unknown;
    }

    method FillFlagsNoCFOF()
      requires Valid()
      modifies this
      ensures Valid() && al == old(al)
      ensures View() == Lazy.FillFlagsNoCFOF(old(View()))
    {
      if ftype.Unknown? {
        return;
      }
      DoAuxFlag();
      DoResultFlags();
      ftype := Unknown;
    }

    /** The lines that end DAA and DAS. */
    method DecimalResultFlags()
      requires al < 256
      modifies this`sf, this`zf, this`pf, this`ftype
      ensures ftype == Unknown && sf == (al / 0x80 == 1) && zf == (al == 0) && pf == ParityLookup(al)
    {
      sf := al / 0x80 == 1;
      zf := al == 0;
      pf := ParityLookup(al);
      ftype := Unknown;
    }

    /** The branches of DAA, whose tests read the flags of the state they start in. */
    method CorrectSum()
      requires al < 256
      modifies this`al, this`cf, this`af
      ensures var low, high, x: int := old(al % 16 > 9 || GetAF(View())), old(al > 0x99 || GetCF(View())), old(al);
              al == (x + (if high then 0x60 else 0) + (if low then 6 else 0)) % 0x100 && cf == high && af == low
    {
      hide GetAF, GetCF;
      TwoSteps(al + 0x60, 6);
      if al % 16 > 9 || GetAF(View()) {
        if al > 0x99 || GetCF(View()) {
          al := (al + 0x60) % 0x100;
          cf := true;
        } else {
          cf := false;
        }
        al := (al + 0x06) % 0x100;
        af := true;
      } else {
        if al > 0x99 || GetCF(View()) {
          al := (al + 0x60) % 0x100;
          cf := true;
        } else {
          cf := false;
        }
        af := false;
      }
    }

    method DecimalAdjustAdd()
      requires Valid()
      modifies this
      ensures Valid() && (View(), al) == Daa(old(View()), old(al))
    {
      hide GetAF, GetCF, Getters, ParityLookup;
      CorrectSum();
      DecimalResultFlags();
    }

    /** The branches of DAS, whose tests read the flags of the state they start in. */
    method CorrectDifference()
      requires al < 256
      modifies this`al, this`cf, this`af
      ensures var low, high, x: int := old(al % 16 > 9 || GetAF(View())), old(al > 0x99 || GetCF(View())), old(al);
              && al == (x - (if high then 0x60 else 0) - (if low then 6 else 0)) % 0x100
              && cf == (high || (low && x <= 5)) && af == low
    {
      hide GetAF, GetCF;
      TwoSteps(al - 0x60, -6);
      if al % 16 > 9 || GetAF(View()) {
        if al > 0x99 || GetCF(View()) {
          al := (al - 0x60) % 0x100;
          cf := true;
        } else {
          cf := al <= 0x05;
        }
        al := (al - 6) % 0x100;
        af := true;
      } else {
        if al > 0x99 || GetCF(View()) {
          al := (al - 0x60) % 0x100;
          cf := true;
        } else {
          cf := false;
        }
        af := false;
      }
    }

    method DecimalAdjustSubtract()
      requires Valid()
      modifies this
      ensures Valid() && (View(), al) == Das(old(View()), old(al))
    {
      hide GetAF, GetCF, Getters, ParityLookup;
      var osigned := al >= 0x80;
      CorrectDifference();
      of := osigned && al < 0x80;
      DecimalResultFlags();
    }
  }
}
