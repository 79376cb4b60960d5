/**
 Words on a stack of either size, pushed and popped at either width: what is pushed is found again, in
 order, and memory elsewhere is untouched, even where the pointer wraps around a 16-bit stack.
 */
module StackWords {
  import opened Bits
  import opened CpuState
  import opened FarTransfers
  import opened PrivilegeProofs
  import opened GateProofs
  import opened Words

  /** What a push of a value leaves. */
  function Kept(use32: bool, v: dword): dword { if use32 then v else v % 0x1_0000 }

  /** The words from the stack pointer up. */
  ghost predicate Frame(t: Cpu, use32: bool, words: seq<dword>) {
    forall i: nat :: i < |words| ==> PeekAt(t, use32, i) == words[i]
  }

  /** The i-th word above the stack pointer. */
  function PeekAt(t: Cpu, use32: bool, i: nat): dword { Peek(t, use32, Moved(t, t.esp, i * Width(use32))) }

  /** The byte is not one of the n from a on. */
  predicate Off(a: int, n: int, b: int) { (b - a) % 0x1_0000_0000 >= n }

  // ----- pointers

  lemma SplitEsp(e: dword)
    ensures e == e / 0x1_0000 * 0x1_0000 + e % 0x1_0000
  {
  }

  lemma MovedSmall(s: Cpu, e: dword, a: int)
    requires !s.stackBig
    ensures Moved(s, e, a) / 0x1_0000 == e / 0x1_0000 && Moved(s, e, a) % 0x1_0000 == (e + a) % 0x1_0000
  {
    LowPart(e / 0x1_0000, (e + a) % 0x1_0000);
  }

  lemma SumSmall(x: int, a: int)
    ensures (x % 0x1_0000 + a) % 0x1_0000 == (x + a) % 0x1_0000
  {
  }

  lemma SumBig(x: int, a: int)
    ensures (x % 0x1_0000_0000 + a) % 0x1_0000_0000 == (x + a) % 0x1_0000_0000
  {
  }

  /** Moves of the pointer add up. */
  lemma MovedSum(s: Cpu, e: dword, a: int, b: int)
    ensures Moved(s, Moved(s, e, a), b) == Moved(s, e, a + b)
  {
    if s.stackBig {
      SumBig(e + a, b);
    } else {
      var x := Moved(s, e, a);
      MovedSmall(s, e, a);
      SplitEsp(x);
      SumSmall(e + a, b);
      assert (x + b) % 0x1_0000 == (e + a + b) % 0x1_0000 by {
        SumSmall(x, b);
      }
    }
  }

  lemma MovedNowhere(s: Cpu, e: dword)
    ensures Moved(s, e, 0) == e
  {
  }

  /** The addresses of two words, k words apart on one stack, are apart in memory. */
  lemma WordsApart(s: Cpu, e: dword, d: int)
    requires 2 <= d < 0x8000
    ensures var x, y := StackAddress(s, e), StackAddress(s, Moved(s, e, d));
            d <= (y - x) % 0x1_0000_0000 <= 0x1_0000_0000 - 0x8000
  {
    if s.stackBig {
      BigDistance(s, e, d);
    } else {
      MovedSmall(s, e, d);
      SmallWrap(e % 0x1_0000, d);
      var diff := (e + d) % 0x1_0000 - e % 0x1_0000;
      assert (e + d) % 0x1_0000 == (e % 0x1_0000 + d) % 0x1_0000 by {
        SumSmall(e, d);
      }
      NegativeDistance(diff);
    }
  }

  lemma SmallWrap(x: nat, d: int)
    requires x < 0x1_0000 && 2 <= d < 0x8000
    ensures (x + d) % 0x1_0000 - x == d || (x + d) % 0x1_0000 - x == d - 0x1_0000
  {
  }

  lemma NegativeDistance(d: int)
    requires -0x1_0000 < d < 0x8000
    ensures d % 0x1_0000_0000 == if d >= 0 then d else d + 0x1_0000_0000
  {
  }

  lemma BigDistance(s: Cpu, e: dword, d: int)
    requires s.stackBig && 2 <= d < 0x8000
    ensures (StackAddress(s, Moved(s, e, d)) - StackAddress(s, e)) % 0x1_0000_0000 == d
  {
    var y := (e + d) % 0x1_0000_0000;
    assert y == e + d || y == e + d - 0x1_0000_0000;
  }

  // ----- words in memory

  lemma WrittenW(m: Memory, a: int, v: word)
    ensures ReadW(WriteW(m, a, v), a) == v
  {
    DistinctBytes(a, 0, 1);
  }

  lemma OtherByteW(m: Memory, a: int, v: word, b: int)
    requires Off(a, 2, b)
    ensures ReadB(WriteW(m, a, v), b) == ReadB(m, b)
  {
    NotNearW(a, b, 0);
    NotNearW(a, b, 1);
  }

  lemma NotNearW(a: int, b: int, i: nat)
    requires Off(a, 2, b) && i < 2
    ensures Address(b) != Address(a + i)
  {
    if Address(b) == Address(a + i) {
      Nearby(a, b, i);
    }
  }

  lemma FarWord(m: Memory, a: int, v: word, b: int)
    requires 2 <= (b - a) % 0x1_0000_0000 <= 0x1_0000_0000 - 2
    ensures ReadW(WriteW(m, a, v), b) == ReadW(m, b)
  {
    hide WriteW, ReadB;
    NextByte(b - a);
    OtherByteW(m, a, v, b);
    OtherByteW(m, a, v, b + 1);
  }

  lemma NextByte(d: int)
    requires 2 <= d % 0x1_0000_0000 <= 0x1_0000_0000 - 2
    ensures (d + 1) % 0x1_0000_0000 == d % 0x1_0000_0000 + 1
  {
  }

  // ----- pushes

  /** What one push does. */
  lemma PushIs(s: Cpu, use32: bool, v: dword)
    ensures var t, a := Push(s, use32, v), StackAddress(s, Moved(s, s.esp, -Width(use32)));
            && t == s.(mem := t.mem, esp := Moved(s, s.esp, -Width(use32)))
            && t.mem == if use32 then WriteD(s.mem, a, v) else WriteW(s.mem, a, v % 0x1_0000)
  {
    hide WriteD, WriteW, Moved, StackAddress;
  }

  lemma PushedWord(s: Cpu, use32: bool, v: dword)
    ensures var t := Push(s, use32, v); PeekAt(t, use32, 0) == Kept(use32, v)
  {
    hide WriteD, WriteW, ReadD, ReadW, Moved, StackAddress, Push;
    PushIs(s, use32, v);
    var t, a := Push(s, use32, v), StackAddress(s, Moved(s, s.esp, -Width(use32)));
    MovedNowhere(t, t.esp);
    SamePointers(s, t, t.esp, 0);
    if use32 {
      WrittenD(s.mem, a, v);
    } else {
      WrittenW(s.mem, a, v % 0x1_0000);
    }
  }

  /** Pointers depend on the stack segment only. */
  lemma SamePointers(s: Cpu, t: Cpu, e: dword, d: int)
    requires t.stackBig == s.stackBig && t.ss == s.ss
    ensures Moved(t, e, d) == Moved(s, e, d) && StackAddress(t, e) == StackAddress(s, e)
  {
  }

  /** The words above are still there, one further up. */
  lemma PushKeepsWord(s: Cpu, use32: bool, v: dword, i: nat)
    requires i < 0x1000
    ensures PeekAt(Push(s, use32, v), use32, i + 1) == PeekAt(s, use32, i)
  {
    hide WriteD, WriteW, ReadD, ReadW, Moved, StackAddress, Push;
    PushIs(s, use32, v);
    var t, w := Push(s, use32, v), Width(use32);
    var e := Moved(s, s.esp, -w);
    MovedSum(s, s.esp, -w, (i + 1) * w);
    assert -w + (i + 1) * w == i * w;
    WordsApart(s, e, (i + 1) * w);
    SamePointers(s, t, t.esp, (i + 1) * w);
    SamePointers(s, t, Moved(s, s.esp, i * w), 0);
    if use32 {
      FarDword(s.mem, StackAddress(s, e), v, StackAddress(s, Moved(s, s.esp, i * w)));
    } else {
      FarWord(s.mem, StackAddress(s, e), v % 0x1_0000, StackAddress(s, Moved(s, s.esp, i * w)));
    }
  }

  lemma PushKeepsByte(s: Cpu, use32: bool, v: dword, b: int)
    requires Off(StackAddress(s, Moved(s, s.esp, -Width(use32))), Width(use32), b)
    ensures ReadB(Push(s, use32, v).mem, b) == ReadB(s.mem, b)
  {
    hide WriteD, WriteW, ReadB, Moved, StackAddress, Push;
    PushIs(s, use32, v);
    var a := StackAddress(s, Moved(s, s.esp, -Width(use32)));
    if use32 {
      OtherByte(s.mem, a, v, b);
    } else {
      OtherByteW(s.mem, a, v % 0x1_0000, b);
    }
  }

  function PushAll(s: Cpu, use32: bool, vs: seq<dword>): Cpu
    decreases vs
  {
    if vs == [] then s else PushAll(Push(s, use32, vs[0]), use32, vs[1..])
  }

  /** The values as they stand from the stack pointer up, the last pushed first. */
  function OnStack(use32: bool, vs: seq<dword>): (r: seq<dword>)
    ensures |r| == |vs|
  {
    if vs == [] then [] else OnStack(use32, vs[1..]) + [Kept(use32, vs[0])]
  }

  /** The byte belongs to one of the n words below the stack pointer. */
  predicate InWords(s: Cpu, use32: bool, n: nat, b: int) {
    n > 0 && (!Off(StackAddress(s, Moved(s, s.esp, -(n * Width(use32)))), Width(use32), b) || InWords(s, use32, n - 1, b))
  }

  ghost predicate Untouched(m: Memory, s: Cpu, use32: bool, n: nat) {
    forall b: int :: !InWords(s, use32, n, b) ==> ReadB(m, b) == ReadB(s.mem, b)
  }

  /** The words below a pointer are the word below it and those below the pointer that has pushed it. */
  lemma {:induction false} InWordsBelow(s: Cpu, t: Cpu, use32: bool, n: nat, b: int)
    requires t.stackBig == s.stackBig && t.ss == s.ss && t.esp == Moved(s, s.esp, -Width(use32))
    requires !InWords(s, use32, n + 1, b)
    ensures !InWords(t, use32, n, b) && Off(StackAddress(s, Moved(s, s.esp, -Width(use32))), Width(use32), b)
    decreases n
  {
    hide Moved, StackAddress, Off;
    var w := Width(use32);
    if n > 0 {
      InWordsBelow(s, t, use32, n - 1, b);
      MovedSum(s, s.esp, -w, -(n * w));
      assert -w + -(n * w) == -((n + 1) * w);
      SamePointers(s, t, t.esp, -(n * w));
      SamePointers(s, t, Moved(s, s.esp, -((n + 1) * w)), 0);
    } else {
      assert InWords(s, use32, 1, b) == (!Off(StackAddress(s, Moved(s, s.esp, -(1 * w))), w, b) || InWords(s, use32, 0, b));
    }
  }

  /** Any number of pushes: the words stand in order above the new pointer, on top of those that were there. */
  lemma {:induction false} PushesBuild(s: Cpu, use32: bool, vs: seq<dword>, words: seq<dword>)
    requires Frame(s, use32, words) && |vs| + |words| < 0x1000
    ensures var t := PushAll(s, use32, vs);
            && t == s.(mem := t.mem, esp := Moved(s, s.esp, -(|vs| * Width(use32))))
            && Frame(t, use32, OnStack(use32, vs) + words) && Untouched(t.mem, s, use32, |vs|)
    decreases vs
  {
    hide Push, PeekAt, ReadB, StackAddress, Moved, Off;
    if vs == [] {
      MovedNowhere(s, s.esp);
      assert OnStack(use32, vs) + words == words;
    } else {
      var s1, w := Push(s, use32, vs[0]), Width(use32);
      var words1 := [Kept(use32, vs[0])] + words;
      PushIs(s, use32, vs[0]);
      PushedWord(s, use32, vs[0]);
      forall i: nat | i < |words1|
        ensures PeekAt(s1, use32, i) == words1[i]
      {
        if i > 0 {
          PushKeepsWord(s, use32, vs[0], i - 1);
        }
      }
      PushesBuild(s1, use32, vs[1..], words1);
      assert OnStack(use32, vs[1..]) + words1 == OnStack(use32, vs) + words;
      MovedSum(s, s.esp, -w, -(|vs[1..]| * w));
      assert -w + -(|vs[1..]| * w) == -(|vs| * w);
      SamePointers(s, s1, s1.esp, -(|vs[1..]| * w));
      var t := PushAll(s, use32, vs);
      forall b: int | !InWords(s, use32, |vs|, b)
        ensures ReadB(t.mem, b) == ReadB(s.mem, b)
      {
        InWordsBelow(s, s1, use32, |vs| - 1, b);
        PushKeepsByte(s, use32, vs[0], b);
      }
    }
  }

  // ----- pops

  /** Popping moves up one word. */
  lemma PopIs(t: Cpu, use32: bool, i: nat)
    ensures var u := Popped(t, use32);
            PeekAt(u, use32, i) == PeekAt(t, use32, i + 1) && Top(t, use32) == PeekAt(t, use32, 0)
  {
    hide Moved, ReadD, ReadW, StackAddress;
    var u, w := Popped(t, use32), Width(use32);
    MovedSum(t, t.esp, w, i * w);
    assert w + i * w == (i + 1) * w;
    MovedNowhere(t, t.esp);
    SamePointers(t, u, u.esp, i * w);
    SamePointers(t, u, Moved(t, t.esp, (i + 1) * w), 0);
  }
}
