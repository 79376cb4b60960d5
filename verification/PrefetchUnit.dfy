/** The prefetch core's fetches, which shift and refill the buffer in place. */
module PrefetchUnit {
  import opened CpuState
  import opened PrefetchQueue
  import opened Words

  class Prefetcher {
    const prefetchBuffer: array<byte>
    const queueSize: nat
    /** The bytes of the emulator that lie behind the buffer. */
    const stray: nat -> byte
    var valid: bool
    var pqStart: dword
    var cseip: dword
    var mem: Memory

    constructor (size: nat, memory: Memory, ip: dword, behind: nat -> byte)
      requires IsSize(size)
      ensures Valid() && View().ip == ip && mem == memory && fresh(prefetchBuffer)
    {
      prefetchBuffer := new byte[CAPACITY](_ => 0);
      queueSize, stray := size, behind;
      valid, pqStart, cseip, mem := false, 0, ip, memory;
    }

    ghost predicate Valid()
      reads this, prefetchBuffer
    {
      prefetchBuffer.Length == CAPACITY && IsSize(queueSize) && Window(View(), queueSize, mem)
    }

    ghost function View(): (q: Queue)
      reads this, prefetchBuffer
    {
      Queue(prefetchBuffer[..], valid, pqStart, cseip)
    }

    method Shift(from: nat, left: nat)
      requires prefetchBuffer.Length == CAPACITY && 0 < from && from + left <= CAPACITY
      modifies prefetchBuffer
      ensures var was := old(prefetchBuffer[..]); prefetchBuffer[..] == was[from..from + left] + was[left..]
    {
      var i: nat := 0;
      while i < left
        invariant i <= left
        invariant forall j: nat :: j < i ==> prefetchBuffer[j] == old(prefetchBuffer[from + j])
        invariant forall j: nat :: i <= j < CAPACITY ==> prefetchBuffer[j] == old(prefetchBuffer[j])
      {
        prefetchBuffer[i] := prefetchBuffer[from + i];
        i := i + 1;
      }
    }

    method Load(left: nat, at: dword)
      requires prefetchBuffer.Length == CAPACITY && IsSize(queueSize) && left <= queueSize
      modifies prefetchBuffer
      ensures var was := old(prefetchBuffer[..]);
              prefetchBuffer[..] == was[..left] + Code(mem, at + left, queueSize - left) + was[queueSize..]
    {
      hide ReadB;
      var i := left;
      while i < queueSize
        invariant left <= i <= queueSize
        invariant prefetchBuffer[..i] == old(prefetchBuffer[..left]) + Code(mem, at + left, i - left)
        invariant forall j: nat :: i <= j < CAPACITY ==> prefetchBuffer[j] == old(prefetchBuffer[j])
      {
        prefetchBuffer[i] := ReadB(mem, at + i);
        i := i + 1;
      }
    }

    method Rotate(from: nat, left: nat, at: dword)
      requires prefetchBuffer.Length == CAPACITY && IsSize(queueSize)
      requires 0 < from && from + left <= CAPACITY && left <= queueSize
      modifies prefetchBuffer
      ensures var was := old(prefetchBuffer[..]);
              prefetchBuffer[..] == was[from..from + left] + Code(mem, at + left, queueSize - left) + was[queueSize..]
    {
      hide Code;
      ghost var was := prefetchBuffer[..];
      Shift(from, left);
      ShiftedParts(was, prefetchBuffer[..], from, left, queueSize);
      Load(left, at);
    }

    /** The shift to the front and the refill behind it, when the fetched bytes leave at most four. */
    method Slide(n: nat)
      requires Valid() && (n == 1 || n == 2 || n == 4)
      requires Hit(View(), queueSize, n) && RunsLow(View(), queueSize, n)
      modifies prefetchBuffer, this`valid, this`pqStart
      ensures View() == Slid(old(View()), queueSize, mem, Address(old(cseip) + n))
    {
      hide Address, Code, Hit, RunsLow, Window, Slid, IsSize;
      ghost var q := View();
      SlidParts(q, queueSize, mem, n);
      var at := Address(cseip + n);
      ghost var buffer := Slid(q, queueSize, mem, at).buffer;
      Rotate(Address(at - pqStart), Address(pqStart + queueSize - at), at);
      assert prefetchBuffer[..] == buffer;
      pqStart := at;
      valid := true;
    }

    /** A byte of the buffer, or of what lies behind it. */
    method ByteAt(i: nat) returns (b: byte)
      requires prefetchBuffer.Length == CAPACITY
      ensures b == At(View(), stray, i)
    {
      if i < CAPACITY {
        b := prefetchBuffer[i];
      } else {
        b := stray(i);
      }
    }

    method Refill(at: dword)
      requires prefetchBuffer.Length == CAPACITY && IsSize(queueSize)
      modifies prefetchBuffer, this`valid, this`pqStart
      ensures View() == Filled(old(View()), queueSize, mem, at)
    {
      hide Code;
      Load(0, at);
      pqStart := at;
      valid := true;
    }

    /** What the three fetches share once the bytes of a hit are taken. */
    method Proceed(n: nat)
      requires Valid() && (n == 1 || n == 2 || n == 4) && Hit(View(), queueSize, n)
      modifies prefetchBuffer, this`valid, this`pqStart, this`cseip
      ensures View() == Fetch(old(View()), queueSize, mem, stray, n).0
    {
      hide RunsLow, Address, Window, Slid;
      var limit, next := Address(pqStart + queueSize), Address(cseip + n);
      LowTest(View(), queueSize, n);
      if Address(pqStart + queueSize - 4) <= next && next < limit {
        Slide(n);
      }
      cseip := next;
    }

    method Fetchb() returns (v: byte)
      requires Valid()
      modifies prefetchBuffer, this`valid, this`pqStart, this`cseip
      ensures Valid() && View() == Fetch(old(View()), queueSize, mem, stray, 1).0
      ensures v == Little(Fetch(old(View()), queueSize, mem, stray, 1).1)
      ensures v == ReadB(mem, old(cseip))
    {
      hide Address, Window, RunsLow, Slid, Filled, ReadB;
      FetchReadsMemory(View(), queueSize, mem, stray, 1);
      ByteNeverOverruns(View(), queueSize);
      LittleReads(mem, cseip);
      ghost var q := View();
      if valid && cseip >= pqStart && cseip < Address(pqStart + queueSize) {
        v := ByteAt(cseip - pqStart);
        TakenBytes(q, stray, cseip - pqStart);
        Proceed(1);
      } else {
        Refill(cseip);
        v := ByteAt(0);
        FirstBytes(View(), stray);
        cseip := Address(cseip + 1);
      }
      LittleOf(v, 0, 0, 0);
    }

    method Fetchw() returns (v: word)
      requires Valid()
      modifies prefetchBuffer, this`valid, this`pqStart, this`cseip
      ensures Valid() && View() == Fetch(old(View()), queueSize, mem, stray, 2).0
      ensures v == Little(Fetch(old(View()), queueSize, mem, stray, 2).1)
      ensures !Overruns(old(View()), queueSize, 2) ==> v == ReadW(mem, old(cseip))
    {
      hide Address, Window, Slid, Filled, ReadB, ReadW, Fetch, Code, Little, At, Taken;
      FetchReadsMemory(View(), queueSize, mem, stray, 2);
      FetchParts(View(), queueSize, mem, stray, 2);
      LittleReads(mem, cseip);
      ghost var q := View();
      var b0, b1: byte;
      if valid && cseip >= pqStart && Address(cseip + 2) < Address(pqStart + queueSize) {
        b0 := ByteAt(cseip - pqStart);
        b1 := ByteAt(cseip - pqStart + 1);
        TakenBytes(q, stray, cseip - pqStart);
        Proceed(2);
      } else {
        Refill(cseip);
        b0 := ByteAt(0);
        b1 := ByteAt(1);
        FirstBytes(View(), stray);
        cseip := Address(cseip + 2);
      }
      LittleOf(b0, b1, 0, 0);
      v := b0 + 0x100 * b1;
    }

    method Fetchd() returns (v: dword)
      requires Valid()
      modifies prefetchBuffer, this`valid, this`pqStart, this`cseip
      ensures Valid() && View() == Fetch(old(View()), queueSize, mem, stray, 4).0
      ensures v == Little(Fetch(old(View()), queueSize, mem, stray, 4).1)
      ensures !Overruns(old(View()), queueSize, 4) ==> v == ReadD(mem, old(cseip))
    {
      hide Address, Window, Slid, Filled, ReadB, ReadD, Fetch, Code, Little, At, Taken;
      FetchReadsMemory(View(), queueSize, mem, stray, 4);
      FetchParts(View(), queueSize, mem, stray, 4);
      LittleReads(mem, cseip);
      ghost var q := View();
      var b0, b1, b2, b3: byte;
      if valid && cseip >= pqStart && Address(cseip + 4) < Address(pqStart + queueSize) {
        b0 := ByteAt(cseip - pqStart);
        b1 := ByteAt(cseip - pqStart + 1);
        b2 := ByteAt(cseip - pqStart + 2);
        b3 := ByteAt(cseip - pqStart + 3);
        TakenBytes(q, stray, cseip - pqStart);
        Proceed(4);
      } else {
        Refill(cseip);
        b0 := ByteAt(0);
        b1 := ByteAt(1);
        b2 := ByteAt(2);
        b3 := ByteAt(3);
        FirstBytes(View(), stray);
        cseip := Address(cseip + 4);
      }
      LittleOf(b0, b1, b2, b3);
      v := b0 + 0x100 * b1 + 0x1_0000 * b2 + 0x100_0000 * b3;
    }

    /** After a branch the decoder drops the window. */
    method Invalidate()
      requires Valid()
      modifies this`valid
      ensures Valid() && View() == old(View()).(valid := false)
    {
      valid := false;
    }
  }

  lemma ShiftedParts(was: seq<byte>, now: seq<byte>, from: nat, left: nat, size: nat)
    requires from + left <= |was| && left <= size <= |was| && now == was[from..from + left] + was[left..]
    ensures now[..left] == was[from..from + left] && now[size..] == was[size..]
  {
  }

  lemma SlidParts(q: Queue, size: nat, m: Memory, n: nat)
    requires |q.buffer| == CAPACITY && IsSize(size) && (n == 1 || n == 2 || n == 4) && Hit(q, size, n) && RunsLow(q, size, n)
    ensures var at := Address(q.ip + n);
            var from, left := Address(at - q.start), Address(q.start + size - at);
            && 0 < from && from + left <= CAPACITY && left <= size <= CAPACITY
            && Slid(q, size, m, at) == Queue(q.buffer[from..from + left] + Code(m, at + left, size - left) + q.buffer[size..], true, at, q.ip)
  {
    hide Address, Code, RunsLow, Hit;
    SlideIsShort(q, size, n);
    AtLeastOne(q, size, n);
  }

  lemma AtLeastOne(q: Queue, size: nat, n: nat)
    requires Hit(q, size, n) && n > 0
    ensures q.ip + n - q.start > 0
  {
  }

  lemma LowTest(q: Queue, size: nat, n: nat)
    ensures RunsLow(q, size, n)
            <==> Address(q.start + size - 4) <= Address(q.ip + n) && Address(q.ip + n) < Address(q.start + size)
  {
  }

  lemma ByteNeverOverruns(q: Queue, size: nat)
    requires IsSize(size)
    ensures !Overruns(q, size, 1)
  {
    if Overruns(q, size, 1) {
      OverrunsAtTheTop(q, size, 1);
    }
  }

  lemma TakenBytes(q: Queue, stray: nat -> byte, i: nat)
    ensures Taken(q, stray, i, 1) == [At(q, stray, i)]
    ensures Taken(q, stray, i, 2) == [At(q, stray, i), At(q, stray, i + 1)]
    ensures Taken(q, stray, i, 4) == [At(q, stray, i), At(q, stray, i + 1), At(q, stray, i + 2), At(q, stray, i + 3)]
  {
    hide At;
    assert Taken(q, stray, i, 1) == [At(q, stray, i)];
    assert Taken(q, stray, i, 2) == [At(q, stray, i), At(q, stray, i + 1)];
    assert Taken(q, stray, i, 3) == [At(q, stray, i), At(q, stray, i + 1), At(q, stray, i + 2)];
  }

  lemma FirstBytes(q: Queue, stray: nat -> byte)
    requires |q.buffer| == CAPACITY
    ensures q.buffer[..1] == [At(q, stray, 0)] && q.buffer[..2] == [At(q, stray, 0), At(q, stray, 1)]
    ensures q.buffer[..4] == [At(q, stray, 0), At(q, stray, 1), At(q, stray, 2), At(q, stray, 3)]
  {
  }

  lemma FetchParts(q: Queue, size: nat, m: Memory, stray: nat -> byte, n: nat)
    requires |q.buffer| == CAPACITY && IsSize(size) && (n == 1 || n == 2 || n == 4)
    ensures Hit(q, size, n) ==> Fetch(q, size, m, stray, n).1 == Taken(q, stray, q.ip - q.start, n)
    ensures !Hit(q, size, n) ==>
              Fetch(q, size, m, stray, n) == (Filled(q, size, m, q.ip).(ip := Address(q.ip + n)), Filled(q, size, m, q.ip).buffer[..n])
  {
    hide Taken, Code, RunsLow, Within;
  }
}
