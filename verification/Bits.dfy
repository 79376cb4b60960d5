/** Bitwise operators on natural numbers, and what single-bit tests on them mean. */
module Bits {
  function Pow2(k: nat): (r: nat)
    ensures r > 0
  {
    if k == 0 then 1 else 2 * Pow2(k - 1)
  }

  function Bit(x: nat, k: nat): bool {
    if k == 0 then x % 2 == 1 else Bit(x / 2, k - 1)
  }

  function Xor(a: nat, b: nat): nat
    decreases a + b
  {
    if a == 0 && b == 0 then 0
    else (if a % 2 != b % 2 then 1 else 0) + 2 * Xor(a / 2, b / 2)
  }

  function And(a: nat, b: nat): nat
    decreases a + b
  {
    if a == 0 && b == 0 then 0
    else (if a % 2 == 1 && b % 2 == 1 then 1 else 0) + 2 * And(a / 2, b / 2)
  }

  lemma {:induction false} XorBit(a: nat, b: nat, k: nat)
    ensures Bit(Xor(a, b), k) == (Bit(a, k) != Bit(b, k))
  {
    assert Xor(a, b) % 2 == (if a % 2 != b % 2 then 1 else 0) && Xor(a, b) / 2 == Xor(a / 2, b / 2);
    if k > 0 {
      XorBit(a / 2, b / 2, k - 1);
    }
  }

  lemma {:induction false} AndBit(a: nat, b: nat, k: nat)
    ensures Bit(And(a, b), k) == (Bit(a, k) && Bit(b, k))
  {
    assert And(a, b) % 2 == (if a % 2 == 1 && b % 2 == 1 then 1 else 0) && And(a, b) / 2 == And(a / 2, b / 2);
    if k > 0 {
      AndBit(a / 2, b / 2, k - 1);
    }
  }

  lemma AndStep(a: nat, b: nat)
    ensures And(a, b) == (if a % 2 == 1 && b % 2 == 1 then 1 else 0) + 2 * And(a / 2, b / 2)
  {
  }

  lemma XorStep(a: nat, b: nat)
    ensures Xor(a, b) == (if a % 2 != b % 2 then 1 else 0) + 2 * Xor(a / 2, b / 2)
  {
  }

  lemma OrStep(a: nat, b: nat)
    ensures And(a, b) + Xor(a, b) == (if a % 2 == 1 || b % 2 == 1 then 1 else 0) + 2 * (And(a / 2, b / 2) + Xor(a / 2, b / 2))
  {
    hide And, Xor;
    AndStep(a, b);
    XorStep(a, b);
  }

  lemma LowAndRest(x: nat, low: nat, rest: nat)
    requires low < 2 && x == low + 2 * rest
    ensures x % 2 == low && x / 2 == rest
  {
  }

  /** The disjunction is the sum of the common bits and the different ones. */
  lemma {:induction false} OrBit(a: nat, b: nat, k: nat)
    ensures Bit(And(a, b) + Xor(a, b), k) == (Bit(a, k) || Bit(b, k))
  {
    hide And, Xor;
    OrStep(a, b);
    LowAndRest(And(a, b) + Xor(a, b), if a % 2 == 1 || b % 2 == 1 then 1 else 0, And(a / 2, b / 2) + Xor(a / 2, b / 2));
    if k > 0 {
      OrBit(a / 2, b / 2, k - 1);
    }
  }

  lemma {:induction false} LogicRange(a: nat, b: nat, n: nat)
    requires a < Pow2(n) && b < Pow2(n)
    ensures And(a, b) + Xor(a, b) < Pow2(n)
    decreases n
  {
    hide And, Xor;
    OrStep(a, b);
    if n > 0 {
      LogicRange(a / 2, b / 2, n - 1);
    } else {
      NoBits();
    }
  }

  lemma NoBits()
    ensures And(0, 0) == 0 && Xor(0, 0) == 0
  {
  }

  lemma {:induction false} AndZero(a: nat)
    ensures And(a, 0) == 0
    decreases a
  {
    if a > 0 {
      AndZero(a / 2);
    }
  }

  /** Masking with a single bit tests that bit. */
  lemma {:induction false} MaskTestsBit(a: nat, k: nat)
    ensures And(a, Pow2(k)) != 0 <==> Bit(a, k)
    decreases k
  {
    if k == 0 {
      AndZero(a / 2);
    } else {
      MaskTestsBit(a / 2, k - 1);
    }
  }

  lemma {:induction false} PowerBit(k: nat, j: nat)
    ensures Bit(Pow2(k), j) <==> j == k
    decreases k
  {
    if k == 0 {
      if j > 0 {
        ZeroBit(j - 1);
      }
    } else if j > 0 {
      PowerBit(k - 1, j - 1);
    }
  }

  lemma {:induction false} ZeroBit(j: nat)
    ensures !Bit(0, j)
  {
    if j > 0 {
      ZeroBit(j - 1);
    }
  }

  /** The top bit of a number of k + 1 bits says whether the number is in the upper half. */
  lemma {:induction false} TopBit(x: nat, k: nat)
    requires x < Pow2(k + 1)
    ensures Bit(x, k) <==> x >= Pow2(k)
    decreases k
  {
    if k > 0 {
      assert Pow2(k + 1) == 2 * Pow2(k) == 4 * Pow2(k - 1);
      TopBit(x / 2, k - 1);
    }
  }

  lemma {:induction false} NoBitAbove(x: nat, k: nat)
    requires x < Pow2(k)
    ensures !Bit(x, k)
    decreases k
  {
    if k > 0 {
      NoBitAbove(x / 2, k - 1);
    }
  }

  lemma TwiceProduct(y: nat, p: nat, q: nat)
    requires q == 2 * p
    ensures y * q == 2 * (y * p)
  {
  }

  /** A number below and another above bit n. */
  lemma {:induction false} JoinedBits(x: nat, y: nat, n: nat, k: nat)
    requires x < Pow2(n)
    ensures Bit(x + y * Pow2(n), k) == if k < n then Bit(x, k) else Bit(y, k - n)
    decreases n
  {
    if n > 0 {
      var high := y * Pow2(n - 1);
      TwiceProduct(y, Pow2(n - 1), Pow2(n));
      LowAndRest(x + 2 * high, x % 2, x / 2 + high);
      if k > 0 {
        JoinedBits(x / 2, y, n - 1, k - 1);
      }
    } else {
      Alone(y);
    }
  }

  lemma Alone(y: nat)
    ensures y * Pow2(0) == y
  {
  }

  lemma BitFour(x: nat)
    ensures Bit(x, 4) <==> x / 16 % 2 == 1
  {
    assert Bit(x, 4) == Bit(x / 2, 3) == Bit(x / 2 / 2, 2) == Bit(x / 2 / 2 / 2, 1) == Bit(x / 2 / 2 / 2 / 2, 0);
  }

  lemma Powers()
    ensures Pow2(4) == 0x10 && Pow2(5) == 0x20
    ensures Pow2(7) == 0x80 && Pow2(8) == 0x100
    ensures Pow2(15) == 0x8000 && Pow2(16) == 0x1_0000
    ensures Pow2(31) == 0x8000_0000 && Pow2(32) == 0x1_0000_0000
  {
    assert Pow2(4) == 0x10;
    assert Pow2(8) == 16 * Pow2(4);
    assert Pow2(12) == 16 * Pow2(8);
    assert Pow2(16) == 16 * Pow2(12);
    assert Pow2(20) == 16 * Pow2(16);
    assert Pow2(24) == 16 * Pow2(20);
    assert Pow2(28) == 16 * Pow2(24);
    assert Pow2(32) == 16 * Pow2(28);
  }
}
