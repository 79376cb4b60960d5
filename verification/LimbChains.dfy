/**
 Arithmetic on numbers of any length: chains of ADD/ADC and SUB/SBB over limbs, and of ADC;DAA and
 SBB;DAS over packed-BCD bytes, with loop-counter INCs and DECs in between.
 */
module LimbChains {
  import opened Bits
  import opened LazyFlags
  import opened FlagProofs
  import opened Ia32Flags

  function Carry(s: Alu): nat {
    if GetCF(s) then 1 else 0
  }

  // ----- loop counters between the limbs

  /** INC or DEC of some register or memory operand. */
  datatype Counter = Counter(op: Op, w: Width, value: nat)

  predicate Counts(ticks: seq<Counter>) {
    forall i :: 0 <= i < |ticks| ==> (ticks[i].op.INC? || ticks[i].op.DEC?) && ticks[i].value < Modulus(ticks[i].w)
  }

  function CountAll(s: Alu, ticks: seq<Counter>): Alu
    requires Counts(ticks)
    decreases ticks
  {
    if ticks == [] then s
    else CountAll(Unary(ticks[0].op, ticks[0].w, s, ticks[0].value).0, ticks[1..])
  }

  /** INC and DEC save the carry before they overwrite the record, so it survives any number of them. */
  lemma {:induction false} CountingKeepsCarry(s: Alu, ticks: seq<Counter>)
    requires Counts(ticks)
    ensures GetCF(CountAll(s, ticks)) == GetCF(s)
    decreases ticks
  {
    hide Unary, GetCF;
    if ticks != [] {
      var t := ticks[0];
      UnaryFlags(t.op, t.w, s, t.value);
      CarryOfGetters(Unary(t.op, t.w, s, t.value).0);
      CountingKeepsCarry(Unary(t.op, t.w, s, t.value).0, ticks[1..]);
    }
  }

  lemma CarryOfGetters(s: Alu)
    ensures Getters(s).cf == GetCF(s)
  {
  }

  // ----- binary limbs

  predicate Limbs(w: Width, xs: seq<nat>) {
    forall i :: 0 <= i < |xs| ==> xs[i] < Modulus(w)
  }

  /** x times the modulus of a limb. */
  function Scale(w: Width, x: int): int {
    match w case Byte => 0x100 * x case Word => 0x1_0000 * x case DWord => 0x1_0000_0000 * x
  }

  /** The number that little-endian limbs stand for. */
  function Value(w: Width, xs: seq<nat>): int {
    if xs == [] then 0 else xs[0] + Scale(w, Value(w, xs[1..]))
  }

  /** What a carry out of n limbs weighs: c times the modulus to the n. */
  function Weight(w: Width, n: nat, c: nat): int {
    if n == 0 then c else Scale(w, Weight(w, n - 1, c))
  }

  datatype Step = Step(a: nat, b: nat, gap: seq<Counter>)

  predicate Steps(w: Width, steps: seq<Step>) {
    forall i :: 0 <= i < |steps| ==> steps[i].a < Modulus(w) && steps[i].b < Modulus(w) && Counts(steps[i].gap)
  }

  function As(steps: seq<Step>): (r: seq<nat>)
    ensures |r| == |steps|
  {
    if steps == [] then [] else [steps[0].a] + As(steps[1..])
  }

  function Bs(steps: seq<Step>): (r: seq<nat>)
    ensures |r| == |steps|
  {
    if steps == [] then [] else [steps[0].b] + Bs(steps[1..])
  }

  /** A loop of ADC or SBB over limbs, lowest first. */
  function Chain(op: Op, w: Width, s: Alu, steps: seq<Step>): (r: (Alu, seq<nat>))
    requires UsesCarry(op) && Steps(w, steps)
    ensures |r.1| == |steps|
    decreases steps
  {
    if steps == [] then (s, [])
    else
      var (t, v) := Binary(op, w, s, steps[0].a, steps[0].b);
      var rest := Chain(op, w, CountAll(t, steps[0].gap), steps[1..]);
      (rest.0, [v] + rest.1)
  }

  lemma LimbArithmetic(op: Op, w: Width, s: Alu, a: nat, b: nat)
    requires (IsSum(op) || IsDifference(op)) && a < Modulus(w) && b < Modulus(w)
    ensures var (t, v) := Binary(op, w, s, a, b);
            v + (if IsSum(op) then Scale(w, Carry(t)) else 0 - Scale(w, Carry(t))) == Exact(op, a, b, GetCF(s))
  {
    hide Binary, GetCF, Trunc, Ones, GetPF, GetAF, GetZF, GetSF, GetOF;
    var (t, v) := Binary(op, w, s, a, b);
    BinaryFlags(op, w, s, a, b);
    CarryOfGetters(t);
    RecordsBinary(op, w, s, a, b);
    OneWrap(w, Exact(op, a, b, GetCF(s)));
  }

  lemma OneWrap(w: Width, x: int)
    requires 0 - Modulus(w) <= x < 2 * Modulus(w)
    ensures Trunc(w, x) == if x < 0 then x + Modulus(w) else if x < Modulus(w) then x else x - Modulus(w)
  {
  }

  /** The invariant of the loop: limbs so far, plus the carry at their end, make the exact sum. */
  lemma {:induction false} AdcChain(w: Width, s: Alu, steps: seq<Step>)
    requires Steps(w, steps)
    ensures var r := Chain(ADC, w, s, steps);
            Value(w, r.1) + Weight(w, |steps|, Carry(r.0)) == Value(w, As(steps)) + Value(w, Bs(steps)) + Carry(s)
    decreases steps
  {
    hide Binary, GetCF, CountAll;
    if steps != [] {
      var (t, v) := Binary(ADC, w, s, steps[0].a, steps[0].b);
      var u := CountAll(t, steps[0].gap);
      var rest := Chain(ADC, w, u, steps[1..]);
      LimbArithmetic(ADC, w, s, steps[0].a, steps[0].b);
      CountingKeepsCarry(t, steps[0].gap);
      AdcChain(w, u, steps[1..]);
      assert Chain(ADC, w, s, steps).1[1..] == rest.1;
    }
  }

  lemma {:induction false} SbbChain(w: Width, s: Alu, steps: seq<Step>)
    requires Steps(w, steps)
    ensures var r := Chain(SBB, w, s, steps);
            Value(w, r.1) - Weight(w, |steps|, Carry(r.0)) == Value(w, As(steps)) - Value(w, Bs(steps)) - Carry(s)
    decreases steps
  {
    hide Binary, GetCF, CountAll;
    if steps != [] {
      var (t, v) := Binary(SBB, w, s, steps[0].a, steps[0].b);
      var u := CountAll(t, steps[0].gap);
      var rest := Chain(SBB, w, u, steps[1..]);
      LimbArithmetic(SBB, w, s, steps[0].a, steps[0].b);
      CountingKeepsCarry(t, steps[0].gap);
      SbbChain(w, u, steps[1..]);
      assert Chain(SBB, w, s, steps).1[1..] == rest.1;
    }
  }

  /** ADD (or SUB) for the lowest limb, then ADC (or SBB) for the others. */
  function BigOperation(sub: bool, w: Width, s: Alu, steps: seq<Step>): (r: (Alu, seq<nat>))
    requires steps != [] && Steps(w, steps)
    ensures |r.1| == |steps|
  {
    var (t, v) := Binary(if sub then SUB else ADD, w, s, steps[0].a, steps[0].b);
    var rest := Chain(if sub then SBB else ADC, w, CountAll(t, steps[0].gap), steps[1..]);
    (rest.0, [v] + rest.1)
  }

  /** The sum of two numbers of any length, exactly, with the final carry as its top bit. */
  lemma MultiLimbAdd(w: Width, s: Alu, steps: seq<Step>)
    requires steps != [] && Steps(w, steps)
    ensures var r := BigOperation(false, w, s, steps);
            Value(w, r.1) + Weight(w, |steps|, Carry(r.0)) == Value(w, As(steps)) + Value(w, Bs(steps))
  {
    hide Binary, GetCF, CountAll, Chain;
    var (t, v) := Binary(ADD, w, s, steps[0].a, steps[0].b);
    LimbArithmetic(ADD, w, s, steps[0].a, steps[0].b);
    CountingKeepsCarry(t, steps[0].gap);
    AdcChain(w, CountAll(t, steps[0].gap), steps[1..]);
    assert BigOperation(false, w, s, steps).1[1..] == Chain(ADC, w, CountAll(t, steps[0].gap), steps[1..]).1;
  }

  /** The difference of two numbers of any length, exactly, with the final carry as the borrow. */
  lemma MultiLimbSubtract(w: Width, s: Alu, steps: seq<Step>)
    requires steps != [] && Steps(w, steps)
    ensures var r := BigOperation(true, w, s, steps);
            Value(w, r.1) - Weight(w, |steps|, Carry(r.0)) == Value(w, As(steps)) - Value(w, Bs(steps))
  {
    hide Binary, GetCF, CountAll, Chain;
    var (t, v) := Binary(SUB, w, s, steps[0].a, steps[0].b);
    LimbArithmetic(SUB, w, s, steps[0].a, steps[0].b);
    CountingKeepsCarry(t, steps[0].gap);
    SbbChain(w, CountAll(t, steps[0].gap), steps[1..]);
    assert BigOperation(true, w, s, steps).1[1..] == Chain(SBB, w, CountAll(t, steps[0].gap), steps[1..]).1;
  }

  /** So the final borrow says which number is larger. */
  lemma BorrowCompares(w: Width, s: Alu, steps: seq<Step>)
    requires steps != [] && Steps(w, steps)
    ensures GetCF(BigOperation(true, w, s, steps).0) <==> Value(w, As(steps)) < Value(w, Bs(steps))
  {
    hide Binary, GetCF, CountAll, Chain, BigOperation;
    var r := BigOperation(true, w, s, steps);
    MultiLimbSubtract(w, s, steps);
    ResultsAreLimbs(true, w, s, steps);
    ValueBound(w, r.1);
    WeightOfZero(w, |steps|);
  }

  lemma {:induction false} ChainLimbs(op: Op, w: Width, s: Alu, steps: seq<Step>)
    requires UsesCarry(op) && Steps(w, steps)
    ensures Limbs(w, Chain(op, w, s, steps).1)
    decreases steps
  {
    if steps != [] {
      var (t, v) := Binary(op, w, s, steps[0].a, steps[0].b);
      ChainLimbs(op, w, CountAll(t, steps[0].gap), steps[1..]);
    }
  }

  lemma ResultsAreLimbs(sub: bool, w: Width, s: Alu, steps: seq<Step>)
    requires steps != [] && Steps(w, steps)
    ensures Limbs(w, BigOperation(sub, w, s, steps).1)
  {
    var (t, v) := Binary(if sub then SUB else ADD, w, s, steps[0].a, steps[0].b);
    ChainLimbs(if sub then SBB else ADC, w, CountAll(t, steps[0].gap), steps[1..]);
  }

  lemma {:induction false} ValueBound(w: Width, xs: seq<nat>)
    requires Limbs(w, xs)
    ensures 0 <= Value(w, xs) < Weight(w, |xs|, 1)
  {
    if xs != [] {
      ValueBound(w, xs[1..]);
    }
  }

  lemma {:induction false} WeightOfZero(w: Width, n: nat)
    ensures Weight(w, n, 0) == 0
  {
    if n > 0 {
      WeightOfZero(w, n - 1);
    }
  }

  // ----- packed decimals

  /** DAA: the adjusted AL and the flags. */
  function Daa(s: Alu, al: nat): (r: (Alu, nat))
    requires al < 256
    ensures r.1 < 256
  {
    var low := al % 16 > 9 || GetAF(s);
    var high := al > 0x99 || GetCF(s);
    var v := (al + (if high then 0x60 else 0) + (if low then 6 else 0)) % 0x100;
    (Alu(s.lf.(ftype := Unknown),
         Flags(high, ParityLookup(v), low, v == 0, v / 0x80 == 1, s.flags.of)), v)
  }

  /** DAS; without a high correction, a borrow out of the low one sets the carry. */
  function Das(s: Alu, al: nat): (r: (Alu, nat))
    requires al < 256
    ensures r.1 < 256
  {
    var low := al % 16 > 9 || GetAF(s);
    var high := al > 0x99 || GetCF(s);
    var v := (al - (if high then 0x60 else 0) - (if low then 6 else 0)) % 0x100;
    (Alu(s.lf.(ftype := Unknown),
         Flags(high || (low && al <= 5), ParityLookup(v), low, v == 0, v / 0x80 == 1, al >= 0x80 && v < 0x80)), v)
  }

  /** Two decimal digits in a byte. */
  predicate IsBcd(x: nat) { x / 16 < 10 && x % 16 < 10 }

  function Digits(x: nat): nat { x / 16 * 10 + x % 16 }

  function DecimalValue(xs: seq<nat>): int {
    if xs == [] then 0 else Digits(xs[0]) + 100 * DecimalValue(xs[1..])
  }

  function DecimalWeight(n: nat, c: nat): int {
    if n == 0 then c else 100 * DecimalWeight(n - 1, c)
  }

  lemma AddDigits(s: Alu, a: nat, b: nat)
    requires IsBcd(a) && IsBcd(b)
    ensures a < 256 && b < 256
    ensures var (t, v) := Binary(ADC, Byte, s, a, b); var (u, x) := Daa(t, v);
            && IsBcd(x) && Digits(x) + 100 * Carry(u) == Digits(a) + Digits(b) + Carry(s)
            && (GetAF(u) <==> a % 16 + b % 16 + Carry(s) >= 10)
  {
    hide Binary, Ones, ParityLookup, Trunc, GetCF, GetAF;
    assert a < 256 && b < 256;
    var (t, v) := Binary(ADC, Byte, s, a, b);
    BinaryFlags(ADC, Byte, s, a, b);
    RecordsBinary(ADC, Byte, s, a, b);
    AuxOfGetters(t);
    OneWrap(Byte, a + b + Carry(s));
    AddAdjust(a / 16, a % 16, b / 16, b % 16, Carry(s), v, GetCF(t), GetAF(t));
    CarryAfterAdjust(t, v);
  }

  lemma AuxOfGetters(s: Alu)
    ensures Getters(s).cf == GetCF(s) && Getters(s).af == GetAF(s)
  {
  }

  lemma CarryAfterAdjust(s: Alu, al: nat)
    requires al < 256
    ensures GetCF(Daa(s, al).0) == (al > 0x99 || GetCF(s))
    ensures GetCF(Das(s, al).0) == (al > 0x99 || GetCF(s) || ((al % 16 > 9 || GetAF(s)) && al <= 5))
    ensures GetAF(Daa(s, al).0) == GetAF(Das(s, al).0) == (al % 16 > 9 || GetAF(s))
  {
  }

  /** The other flags are those of the adjusted AL; DAS sets overflow when the adjustment clears the sign. */
  lemma AdjustedFlags(s: Alu, al: nat)
    requires al < 256
    ensures var (t, v) := Daa(s, al);
            && (GetZF(t) <==> v == 0) && (GetSF(t) <==> Signed(Byte, v) < 0) && (GetPF(t) <==> Ones(v) % 2 == 0)
            && GetOF(t) == s.flags.of
    ensures var (t, v) := Das(s, al);
            && (GetZF(t) <==> v == 0) && (GetSF(t) <==> Signed(Byte, v) < 0) && (GetPF(t) <==> Ones(v) % 2 == 0)
            && (GetOF(t) <==> Signed(Byte, al) < 0 <= Signed(Byte, v))
  {
    hide Ones, ParityLookup, GetAF, GetCF;
    ParityTable(Daa(s, al).1);
    ParityTable(Das(s, al).1);
  }

  /** The digits of the adjusted sum, for operands with tens p, q and units m, n. */
  lemma AddAdjust(p: nat, m: nat, q: nat, n: nat, c: nat, al: nat, cf: bool, af: bool)
    requires p < 10 && m < 10 && q < 10 && n < 10 && c < 2
    requires var x := 16 * p + m + 16 * q + n + c;
             al == (if x < 256 then x else x - 256) && cf == (x >= 256) && af == (m + n + c >= 16)
    ensures var low, high := al % 16 > 9 || af, al > 0x99 || cf;
            var v := (al + (if high then 0x60 else 0) + (if low then 6 else 0)) % 0x100;
            && IsBcd(v) && Digits(v) + (if high then 100 else 0) == 10 * (p + q) + m + n + c
            && (low <==> m + n + c >= 10)
  {
    hide IsBcd, Digits;
    var unit := if m + n + c >= 10 then m + n + c - 10 else m + n + c;
    var ten := p + q + if m + n + c >= 10 then 1 else 0;
    var low, high := al % 16 > 9 || af, al > 0x99 || cf;
    assert low <==> m + n + c >= 10 by {
      LowNibble(al, p + q + (if m + n + c >= 16 then 1 else 0) - (if cf then 16 else 0),
                if m + n + c >= 16 then m + n + c - 16 else m + n + c);
    }
    assert high <==> ten >= 10;
    var v := (al + (if high then 0x60 else 0) + (if low then 6 else 0)) % 0x100;
    assert v == 16 * (if ten >= 10 then ten - 10 else ten) + unit by {
      assert low ==> al + 6 == (if cf then 16 * ten + unit - 256 else 16 * ten + unit);
      assert !low ==> al == (if cf then 16 * ten + unit - 256 else 16 * ten + unit);
    }
    TwoDigits(if ten >= 10 then ten - 10 else ten, unit);
  }

  lemma LowNibble(x: nat, high: int, low: nat)
    requires x == 16 * high + low && low < 16
    ensures x % 16 == low
  {
  }

  lemma TwoDigits(ten: nat, unit: nat)
    requires ten < 10 && unit < 10
    ensures IsBcd(16 * ten + unit) && Digits(16 * ten + unit) == 10 * ten + unit
  {
  }

  lemma SubtractDigits(s: Alu, a: nat, b: nat)
    requires IsBcd(a) && IsBcd(b)
    ensures a < 256 && b < 256
    ensures var (t, v) := Binary(SBB, Byte, s, a, b); var (u, x) := Das(t, v);
            && IsBcd(x) && Digits(x) - 100 * Carry(u) == Digits(a) - Digits(b) - Carry(s)
            && (GetAF(u) <==> a % 16 < b % 16 + Carry(s))
  {
    hide Binary, Ones, ParityLookup, Trunc, GetCF, GetAF;
    assert a < 256 && b < 256;
    var (t, v) := Binary(SBB, Byte, s, a, b);
    BinaryFlags(SBB, Byte, s, a, b);
    RecordsBinary(SBB, Byte, s, a, b);
    AuxOfGetters(t);
    OneWrap(Byte, a - b - Carry(s));
    SubtractAdjust(a / 16, a % 16, b / 16, b % 16, Carry(s), v, GetCF(t), GetAF(t));
    CarryAfterAdjust(t, v);
  }

  lemma SubtractAdjust(p: nat, m: nat, q: nat, n: nat, c: nat, al: nat, cf: bool, af: bool)
    requires p < 10 && m < 10 && q < 10 && n < 10 && c < 2
    requires var x := 16 * p + m - 16 * q - n - c;
             al == (if x < 0 then x + 256 else x) && cf == (x < 0) && af == (m < n + c)
    ensures var low, high := al % 16 > 9 || af, al > 0x99 || cf;
            var v := (al - (if high then 0x60 else 0) - (if low then 6 else 0)) % 0x100;
            && IsBcd(v) && Digits(v) - (if high || (low && al <= 5) then 100 else 0) == 10 * (p - q) + m - n - c
            && (low <==> m < n + c)
  {
    hide IsBcd, Digits;
    var unit := if m < n + c then m - n - c + 10 else m - n - c;
    var ten := p - q - if m < n + c then 1 else 0;
    var low, high := al % 16 > 9 || af, al > 0x99 || cf;
    assert low <==> m < n + c by {
      LowNibble(al, p - q - (if m < n + c then 1 else 0) + (if cf then 16 else 0),
                if m < n + c then m - n - c + 16 else m - n - c);
    }
    assert high <==> ten < 0;
    var v := (al - (if high then 0x60 else 0) - (if low then 6 else 0)) % 0x100;
    assert v == 16 * (if ten < 0 then ten + 10 else ten) + unit by {
      assert low ==> al - 6 == (if cf then 16 * ten + unit + 256 else 16 * ten + unit);
      assert !low ==> al == (if cf then 16 * ten + unit + 256 else 16 * ten + unit);
    }
    TwoDigits(if ten < 0 then ten + 10 else ten, unit);
  }

  predicate Decimal(steps: seq<Step>) {
    forall i :: 0 <= i < |steps| ==> IsBcd(steps[i].a) && IsBcd(steps[i].b) && Counts(steps[i].gap)
  }

  /** A loop of ADC;DAA, or of SBB;DAS, over packed-BCD bytes. */
  function DecimalChain(sub: bool, s: Alu, steps: seq<Step>): (r: (Alu, seq<nat>))
    requires Decimal(steps)
    ensures |r.1| == |steps|
    decreases steps
  {
    if steps == [] then (s, [])
    else
      var (t, v) := Binary(if sub then SBB else ADC, Byte, s, steps[0].a, steps[0].b);
      var (u, x) := if sub then Das(t, v) else Daa(t, v);
      var rest := DecimalChain(sub, CountAll(u, steps[0].gap), steps[1..]);
      (rest.0, [x] + rest.1)
  }

  /** The decimal sum of two numbers of any length, in valid digits, with CF as the last carry. */
  lemma {:induction false} DecimalAdd(s: Alu, steps: seq<Step>)
    requires Decimal(steps)
    ensures var r := DecimalChain(false, s, steps);
            && (forall i :: 0 <= i < |steps| ==> IsBcd(r.1[i]))
            && DecimalValue(r.1) + DecimalWeight(|steps|, Carry(r.0))
               == DecimalValue(As(steps)) + DecimalValue(Bs(steps)) + Carry(s)
    decreases steps
  {
    hide Binary, GetCF, CountAll, Daa, Das, IsBcd, Digits;
    if steps != [] {
      AddDigits(s, steps[0].a, steps[0].b);
      var (t, v) := Binary(ADC, Byte, s, steps[0].a, steps[0].b);
      var (u, x) := Daa(t, v);
      CountingKeepsCarry(u, steps[0].gap);
      DecimalAdd(CountAll(u, steps[0].gap), steps[1..]);
      assert DecimalChain(false, s, steps).1[1..] == DecimalChain(false, CountAll(u, steps[0].gap), steps[1..]).1;
    }
  }

  /** The decimal difference, with CF as the last borrow. */
  lemma {:induction false} DecimalSubtract(s: Alu, steps: seq<Step>)
    requires Decimal(steps)
    ensures var r := DecimalChain(true, s, steps);
            && (forall i :: 0 <= i < |steps| ==> IsBcd(r.1[i]))
            && DecimalValue(r.1) - DecimalWeight(|steps|, Carry(r.0))
               == DecimalValue(As(steps)) - DecimalValue(Bs(steps)) - Carry(s)
    decreases steps
  {
    hide Binary, GetCF, CountAll, Daa, Das, IsBcd, Digits;
    if steps != [] {
      SubtractDigits(s, steps[0].a, steps[0].b);
      var (t, v) := Binary(SBB, Byte, s, steps[0].a, steps[0].b);
      var (u, x) := Das(t, v);
      CountingKeepsCarry(u, steps[0].gap);
      DecimalSubtract(CountAll(u, steps[0].gap), steps[1..]);
      assert DecimalChain(true, s, steps).1[1..] == DecimalChain(true, CountAll(u, steps[0].gap), steps[1..]).1;
    }
  }
}
