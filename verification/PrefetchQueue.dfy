/**
 The prefetch queue as a value: a window of code memory from pq_start on, read through a hit test,
 slid forward in place when it runs low, and refilled on a miss. All addresses are 32-bit.
 */
module PrefetchQueue {
  import opened CpuState
  import opened Words

  /** MAX_PQ_SIZE */
  const CAPACITY: nat := 32

  datatype Queue = Queue(buffer: seq<byte>, valid: bool, start: dword, ip: dword)

  /** CPU_PrefetchQueueSize: 16 for the 386, 32 for the 486. */
  predicate IsSize(size: nat) { size == 16 || size == 32 }

  /** n bytes of memory. */
  function Code(m: Memory, a: int, n: nat): (r: seq<byte>)
    ensures |r| == n
  {
    if n == 0 then [] else Code(m, a, n - 1) + [ReadB(m, a + n - 1)]
  }

  /** The number little-endian bytes stand for. */
  function Little(bytes: seq<byte>): nat {
    if bytes == [] then 0 else bytes[0] + 0x100 * Little(bytes[1..])
  }

  /** A valid queue is the memory from its start on. */
  ghost predicate Window(q: Queue, size: nat, m: Memory) {
    && |q.buffer| == CAPACITY && IsSize(size)
    && (q.valid ==> forall i: nat :: i < size ==> q.buffer[i] == ReadB(m, q.start + i))
  }

  /** The hit test for n bytes, whose sums wrap; the byte fetch compares the address itself. */
  predicate Hit(q: Queue, size: nat, n: nat) {
    q.valid && Within(q.start, q.ip, size, n)
  }

  predicate Within(start: dword, ip: dword, size: nat, n: nat) {
    ip >= start && (if n == 1 then ip else Address(ip + n)) < Address(start + size)
  }

  /** At most four bytes are left behind the n fetched. */
  predicate RunsLow(q: Queue, size: nat, n: nat) {
    Address(q.start + size - 4) <= Address(q.ip + n) < Address(q.start + size)
  }

  /** What an index finds; past the buffer lies some other memory of the emulator. */
  function At(q: Queue, stray: nat -> byte, i: nat): byte {
    if i < |q.buffer| then q.buffer[i] else stray(i)
  }

  function Taken(q: Queue, stray: nat -> byte, i: nat, n: nat): (r: seq<byte>)
    ensures |r| == n
  {
    if n == 0 then [] else Taken(q, stray, i, n - 1) + [At(q, stray, i + n - 1)]
  }

  /** The buffer with its first size bytes loaded from memory. */
  function Filled(q: Queue, size: nat, m: Memory, at: dword): Queue
    requires |q.buffer| == CAPACITY && size <= CAPACITY
  {
    Queue(Code(m, at, size) + q.buffer[size..], true, at, q.ip)
  }

  /** One fetch of n bytes: the new queue and the bytes. */
  function Fetch(q: Queue, size: nat, m: Memory, stray: nat -> byte, n: nat): (r: (Queue, seq<byte>))
    requires |q.buffer| == CAPACITY && IsSize(size) && (n == 1 || n == 2 || n == 4)
    ensures |r.0.buffer| == CAPACITY && r.0.ip == Address(q.ip + n) && |r.1| == n
  {
    var next := Address(q.ip + n);
    if Hit(q, size, n) then
      var bytes := Taken(q, stray, q.ip - q.start, n);
      (if RunsLow(q, size, n) then Slid(q, size, m, next).(ip := next) else q.(ip := next), bytes)
    else
      var r := Filled(q, size, m, q.ip);
      (r.(ip := next), r.buffer[..n])
  }

  /** The bytes from `at` on moved to the front of the buffer and the rest loaded behind them. */
  function Slid(q: Queue, size: nat, m: Memory, at: dword): (r: Queue)
    requires |q.buffer| == CAPACITY && size <= CAPACITY
    ensures |r.buffer| == CAPACITY && r.start == at
  {
    var from, left := Address(at - q.start), Address(q.start + size - at);
    if left <= size && from + left <= CAPACITY then
      Queue(q.buffer[from..from + left] + Code(m, at + left, size - left) + q.buffer[size..], true, at, q.ip)
    else q.(start := at)
  }

  // ----- fetches are memory reads

  lemma {:induction false} CodeAt(m: Memory, a: int, n: nat, i: nat)
    requires i < n
    ensures Code(m, a, n)[i] == ReadB(m, a + i)
  {
    if i < n - 1 {
      CodeAt(m, a, n - 1, i);
    }
  }

  /** The test passes but the bytes reach past the window: only a sum that wrapped can do this. */
  predicate Overruns(q: Queue, size: nat, n: nat) {
    q.valid && PassesBeyond(q.start, q.ip, size, n)
  }

  predicate PassesBeyond(start: dword, ip: dword, size: nat, n: nat) {
    Within(start, ip, size, n) && ip - start + n > size
  }

  lemma OverrunsAtTheTop(q: Queue, size: nat, n: nat)
    requires IsSize(size) && (n == 1 || n == 2 || n == 4) && Overruns(q, size, n)
    ensures n > 1 && q.ip + n >= 0x1_0000_0000
  {
  }

  /** When the window slides, what Slid moves is its last one to four bytes. */
  lemma SlideIsShort(q: Queue, size: nat, n: nat)
    requires IsSize(size) && (n == 1 || n == 2 || n == 4) && Hit(q, size, n) && RunsLow(q, size, n)
    ensures var at := Address(q.ip + n);
            var from, left := Address(at - q.start), Address(q.start + size - at);
            from == q.ip + n - q.start && from + left == size && 0 < left <= 4
  {
    hide Address;
    var at := Address(q.ip + n);
    Wraps(q.start + size);
    Wraps(q.start + size - 4);
    Wraps(q.ip);
    Wraps(q.ip + n);
    Wraps(at - q.start);
    Wraps(q.start + size - at);
  }

  /** A sum or difference of two addresses wraps at most once. */
  lemma Wraps(a: int)
    requires -0x1_0000_0000 <= a < 0x2_0000_0000
    ensures Address(a) == if a < 0 then a + 0x1_0000_0000 else if a < 0x1_0000_0000 then a else a - 0x1_0000_0000
  {
  }

  lemma SameByte(m: Memory, a: int, b: int, i: int)
    requires Address(a) == b
    ensures ReadB(m, a + i) == ReadB(m, b + i)
  {
  }

  lemma {:induction false} TakenFromWindow(q: Queue, size: nat, m: Memory, stray: nat -> byte, i: nat, n: nat)
    requires Window(q, size, m) && q.valid && i + n <= size
    ensures Taken(q, stray, i, n) == Code(m, q.start + i, n)
  {
    if n > 0 {
      TakenFromWindow(q, size, m, stray, i, n - 1);
      assert q.buffer[i + n - 1] == ReadB(m, q.start + (i + n - 1));
    }
  }

  lemma FilledIsWindow(q: Queue, size: nat, m: Memory, at: dword)
    requires |q.buffer| == CAPACITY && IsSize(size)
    ensures Window(Filled(q, size, m, at), size, m)
  {
    var r := Filled(q, size, m, at);
    forall i: nat | i < size
      ensures r.buffer[i] == ReadB(m, r.start + i)
    {
      CodeAt(m, at, size, i);
    }
  }

  lemma {:induction false} CodeSplit(m: Memory, a: int, k: nat, n: nat)
    ensures Code(m, a, k + n) == Code(m, a, k) + Code(m, a + k, n)
    decreases n
  {
    if n > 0 {
      CodeSplit(m, a, k, n - 1);
    }
  }

  lemma MovedIsCode(q: Queue, size: nat, m: Memory, from: nat, left: nat, at: dword)
    requires Window(q, size, m) && q.valid && from + left <= size && Address(q.start + from) == at
    ensures q.buffer[from..from + left] == Code(m, at, left)
  {
    hide Address, ReadB, Code;
    forall i: nat | i < left
      ensures q.buffer[from + i] == Code(m, at, left)[i]
    {
      CodeAt(m, at, left, i);
      SameByte(m, q.start + from, at, i);
      assert q.buffer[from + i] == ReadB(m, q.start + (from + i));
    }
  }

  /** Sliding the window is filling it anew at its new start. */
  lemma SlidIsFilled(q: Queue, size: nat, m: Memory, n: nat)
    requires Window(q, size, m) && (n == 1 || n == 2 || n == 4) && Hit(q, size, n) && RunsLow(q, size, n)
    ensures Slid(q, size, m, Address(q.ip + n)) == Filled(q, size, m, Address(q.ip + n))
  {
    hide Address, Code, Window, RunsLow;
    BufferSize(q, size, m);
    SlideIsShort(q, size, n);
    var at := Address(q.ip + n);
    var from, left := Address(at - q.start), Address(q.start + size - at);
    MovedIsCode(q, size, m, from, left, at);
    CodeSplit(m, at, left, size - left);
  }

  lemma BufferSize(q: Queue, size: nat, m: Memory)
    requires Window(q, size, m)
    ensures |q.buffer| == CAPACITY && IsSize(size)
  {
  }

  lemma MissReadsMemory(q: Queue, size: nat, m: Memory, stray: nat -> byte, n: nat)
    requires Window(q, size, m) && (n == 1 || n == 2 || n == 4) && !Hit(q, size, n)
    ensures var r := Fetch(q, size, m, stray, n); Window(r.0, size, m) && r.1 == Code(m, q.ip, n)
  {
    hide Address, ReadB, Hit, Code;
    FilledIsWindow(q, size, m, q.ip);
    CodePrefix(m, q.ip, size, n);
    assert Filled(q, size, m, q.ip).buffer[..n] == Code(m, q.ip, size)[..n];
  }

  lemma HitReadsMemory(q: Queue, size: nat, m: Memory, stray: nat -> byte, n: nat)
    requires Window(q, size, m) && (n == 1 || n == 2 || n == 4) && Hit(q, size, n)
    ensures var r := Fetch(q, size, m, stray, n);
            Window(r.0, size, m) && (!Overruns(q, size, n) ==> r.1 == Code(m, q.ip, n))
  {
    hide Address, ReadB, Code, Slid, Filled, RunsLow;
    if q.ip - q.start + n <= size {
      TakenFromWindow(q, size, m, stray, q.ip - q.start, n);
    }
    if RunsLow(q, size, n) {
      SlidIsFilled(q, size, m, n);
      FilledIsWindow(q, size, m, Address(q.ip + n));
    }
  }

  /** Every fetch keeps the window, and returns the memory at the instruction pointer unless it overruns. */
  lemma FetchReadsMemory(q: Queue, size: nat, m: Memory, stray: nat -> byte, n: nat)
    requires Window(q, size, m) && (n == 1 || n == 2 || n == 4)
    ensures var r := Fetch(q, size, m, stray, n);
            Window(r.0, size, m) && (!Overruns(q, size, n) ==> r.1 == Code(m, q.ip, n))
  {
    hide Fetch, Window, Code;
    if Hit(q, size, n) {
      HitReadsMemory(q, size, m, stray, n);
    } else {
      MissReadsMemory(q, size, m, stray, n);
    }
  }

  lemma {:induction false} CodePrefix(m: Memory, a: int, size: nat, n: nat)
    requires n <= size
    ensures Code(m, a, size)[..n] == Code(m, a, n)
  {
    forall i: nat | i < n
      ensures Code(m, a, size)[i] == Code(m, a, n)[i]
    {
      CodeAt(m, a, size, i);
      CodeAt(m, a, n, i);
    }
  }

  // ----- the fetch that overruns

  function Repeat(b: byte, n: nat): (r: seq<byte>)
    ensures |r| == n && forall i :: 0 <= i < n ==> r[i] == b
  {
    if n == 0 then [] else Repeat(b, n - 1) + [b]
  }

  /** A queue in the given position over zero memory, whose bytes past the window are ones. */
  function OnesBehind(size: nat, at: Position): Queue
    requires size <= CAPACITY
  {
    Queue(Repeat(0, size) + Repeat(1, CAPACITY - size), at.valid, at.start, at.ip)
  }

  ghost predicate HasOnesBehind(q: Queue, size: nat) {
    Window(q, size, map[]) && forall i: nat :: size <= i < CAPACITY ==> q.buffer[i] == 1
  }

  lemma OverrunReadsBehind(q: Queue, size: nat, n: nat)
    requires HasOnesBehind(q, size) && (n == 1 || n == 2 || n == 4) && Overruns(q, size, n)
    ensures Fetch(q, size, map[], i => 1, n).1 != Code(map[], q.ip, n)
  {
    hide Address;
    var last := q.ip - q.start + n - 1;
    assert At(q, i => 1, last) == 1;
    CodeAt(map[], q.ip, n, n - 1);
    assert Taken(q, i => 1, q.ip - q.start, n)[n - 1] == 1;
  }

  /**
   At a given position of a valid queue, a fetch returns the memory, whatever memory and the rest of
   the buffer hold, if and only if the hit test does not pass beyond the window.
   */
  lemma FetchReadsMemoryIff(size: nat, start: dword, ip: dword, n: nat)
    requires IsSize(size) && (n == 1 || n == 2 || n == 4)
    ensures (forall q: Queue, m: Memory, stray: nat -> byte
               | Window(q, size, m) && q.valid && q.start == start && q.ip == ip
               :: Fetch(q, size, m, stray, n).1 == Code(m, ip, n))
            <==> !PassesBeyond(start, ip, size, n)
  {
    hide Fetch, Code;
    if PassesBeyond(start, ip, size, n) {
      OverrunReadsBehind(OnesBehind(size, Position(true, start, ip)), size, n);
    } else {
      forall q: Queue, m: Memory, stray: nat -> byte
        | Window(q, size, m) && q.valid && q.start == start && q.ip == ip
        ensures Fetch(q, size, m, stray, n).1 == Code(m, ip, n)
      {
        FetchReadsMemory(q, size, m, stray, n);
      }
    }
  }

  /** Such a position: the last word below 4 GB behind a window that ends just short of it. */
  lemma TopOfMemoryOverruns()
    ensures PassesBeyond(0xffff_ffef, 0xffff_fffe, 16, 2)
  {
  }

  // ----- runs

  /** What the decoder does between fetches: move the pointer, and invalidate the queue after a branch. */
  datatype Access = Fetches(n: nat) | Moves(ip: dword) | Invalidates

  predicate ValidAccess(a: Access) { a.Fetches? ==> a.n == 1 || a.n == 2 || a.n == 4 }

  function Step(q: Queue, size: nat, m: Memory, stray: nat -> byte, a: Access): (r: (Queue, seq<byte>))
    requires |q.buffer| == CAPACITY && IsSize(size) && ValidAccess(a)
    ensures |r.0.buffer| == CAPACITY
  {
    match a
    case Fetches(n) => Fetch(q, size, m, stray, n)
    case Moves(ip) => (q.(ip := ip), [])
    case Invalidates => (q.(valid := false), [])
  }

  /** The bytes of each access of a run through the queue. */
  function Run(q: Queue, size: nat, m: Memory, stray: nat -> byte, accesses: seq<Access>): seq<seq<byte>>
    requires |q.buffer| == CAPACITY && IsSize(size) && forall i :: 0 <= i < |accesses| ==> ValidAccess(accesses[i])
    decreases accesses
  {
    if accesses == [] then []
    else
      var r := Step(q, size, m, stray, accesses[0]);
      [r.1] + Run(r.0, size, m, stray, accesses[1..])
  }

  /** The same accesses as plain memory reads. */
  function Direct(ip: dword, m: Memory, accesses: seq<Access>): seq<seq<byte>>
    decreases accesses
  {
    if accesses == [] then []
    else
      match accesses[0]
      case Fetches(n) => [Code(m, ip, n)] + Direct(Address(ip + n), m, accesses[1..])
      case Moves(to) => [[]] + Direct(to, m, accesses[1..])
      case Invalidates => [[]] + Direct(ip, m, accesses[1..])
  }

  /** Where a queue stands in memory; the bytes it holds play no part in how it moves. */
  datatype Position = Position(valid: bool, start: dword, ip: dword)

  function PositionOf(q: Queue): Position { Position(q.valid, q.start, q.ip) }

  function Next(at: Position, size: nat, a: Access): Position {
    match a
    case Moves(ip) => at.(ip := ip)
    case Invalidates => at.(valid := false)
    case Fetches(n) =>
      var next := Address(at.ip + n);
      var q := Queue([], at.valid, at.start, at.ip);
      if !Hit(q, size, n) then Position(true, at.ip, next)
      else if RunsLow(q, size, n) then Position(true, next, next)
      else at.(ip := next)
  }

  lemma StepMoves(q: Queue, size: nat, m: Memory, stray: nat -> byte, a: Access)
    requires |q.buffer| == CAPACITY && IsSize(size) && ValidAccess(a)
    ensures PositionOf(Step(q, size, m, stray, a).0) == Next(PositionOf(q), size, a)
  {
    hide Address, Code, Taken;
  }

  /** No fetch of the run passes beyond the window it finds. */
  predicate NoneOverruns(at: Position, size: nat, accesses: seq<Access>)
    decreases accesses
  {
    accesses == []
    || ((at.valid && accesses[0].Fetches? ==> !PassesBeyond(at.start, at.ip, size, accesses[0].n))
        && NoneOverruns(Next(at, size, accesses[0]), size, accesses[1..]))
  }

  lemma StepReadsMemory(q: Queue, size: nat, m: Memory, stray: nat -> byte, a: Access)
    requires Window(q, size, m) && ValidAccess(a)
    ensures Window(Step(q, size, m, stray, a).0, size, m)
    ensures a.Fetches? && !Overruns(q, size, a.n) ==> Step(q, size, m, stray, a).1 == Code(m, q.ip, a.n)
  {
    hide Fetch, Code, ReadB;
    if a.Fetches? {
      FetchReadsMemory(q, size, m, stray, a.n);
    }
  }

  lemma {:induction false} RunsReadMemory(q: Queue, size: nat, m: Memory, stray: nat -> byte, accesses: seq<Access>)
    requires Window(q, size, m) && NoneOverruns(PositionOf(q), size, accesses)
    requires forall i :: 0 <= i < |accesses| ==> ValidAccess(accesses[i])
    ensures Run(q, size, m, stray, accesses) == Direct(q.ip, m, accesses)
    decreases accesses
  {
    hide Fetch, Code, Window, Next, PassesBeyond;
    BufferSize(q, size, m);
    if accesses != [] {
      var r := Step(q, size, m, stray, accesses[0]);
      StepMoves(q, size, m, stray, accesses[0]);
      StepReadsMemory(q, size, m, stray, accesses[0]);
      RunsReadMemory(r.0, size, m, stray, accesses[1..]);
    }
  }

  lemma StepKeepsOnes(q: Queue, size: nat, a: Access)
    requires HasOnesBehind(q, size) && ValidAccess(a)
    ensures HasOnesBehind(Step(q, size, map[], i => 1, a).0, size)
  {
    hide Address, ReadB, Window, Code, Taken, Hit, RunsLow;
    BufferSize(q, size, map[]);
    StepReadsMemory(q, size, map[], i => 1, a);
    var r := Step(q, size, map[], i => 1, a).0;
    BufferSize(r, size, map[]);
  }

  lemma {:induction false} OverrunShows(q: Queue, size: nat, accesses: seq<Access>)
    requires HasOnesBehind(q, size) && !NoneOverruns(PositionOf(q), size, accesses)
    requires forall i :: 0 <= i < |accesses| ==> ValidAccess(accesses[i])
    ensures Run(q, size, map[], i => 1, accesses) != Direct(q.ip, map[], accesses)
    decreases accesses
  {
    hide Fetch, Code, Window, Next, PassesBeyond;
    BufferSize(q, size, map[]);
    var a, rest := accesses[0], accesses[1..];
    var r := Step(q, size, map[], i => 1, a);
    var run, direct := Run(q, size, map[], i => 1, accesses), Direct(q.ip, map[], accesses);
    assert run == [r.1] + Run(r.0, size, map[], i => 1, rest);
    if a.Fetches? && Overruns(q, size, a.n) {
      OverrunReadsBehind(q, size, a.n);
      assert run[0] != direct[0];
    } else {
      StepMoves(q, size, map[], i => 1, a);
      StepKeepsOnes(q, size, a);
      OverrunShows(r.0, size, rest);
      assert run[1..] != direct[1..];
    }
  }

  /**
   Over unmodified code, any run of fetches, jumps and invalidations sees exactly the memory, whatever
   that and the rest of the buffer hold, if and only if none of its fetches passes beyond the window.
   */
  lemma RunsReadMemoryIff(size: nat, at: Position, accesses: seq<Access>)
    requires IsSize(size) && forall i :: 0 <= i < |accesses| ==> ValidAccess(accesses[i])
    ensures (forall q: Queue, m: Memory, stray: nat -> byte | Window(q, size, m) && PositionOf(q) == at
               :: Run(q, size, m, stray, accesses) == Direct(at.ip, m, accesses))
            <==> NoneOverruns(at, size, accesses)
  {
    hide Run, Direct, NoneOverruns;
    if NoneOverruns(at, size, accesses) {
      forall q: Queue, m: Memory, stray: nat -> byte | Window(q, size, m) && PositionOf(q) == at
        ensures Run(q, size, m, stray, accesses) == Direct(at.ip, m, accesses)
      {
        RunsReadMemory(q, size, m, stray, accesses);
      }
    } else {
      OverrunShows(OnesBehind(size, at), size, accesses);
    }
  }

  /** No fetch of the run goes over the top of the address space. */
  predicate StaysBelowTop(ip: dword, accesses: seq<Access>)
    decreases accesses
  {
    accesses == []
    || match accesses[0]
       case Fetches(n) => ip + n < 0x1_0000_0000 && StaysBelowTop(ip + n, accesses[1..])
       case Moves(to) => StaysBelowTop(to, accesses[1..])
       case Invalidates => StaysBelowTop(ip, accesses[1..])
  }

  /** In particular when the run stays below 4 GB. */
  lemma {:induction false} BelowTopNoneOverruns(at: Position, size: nat, accesses: seq<Access>)
    requires IsSize(size) && StaysBelowTop(at.ip, accesses)
    requires forall i :: 0 <= i < |accesses| ==> ValidAccess(accesses[i])
    ensures NoneOverruns(at, size, accesses)
    decreases accesses
  {
    hide PassesBeyond, Within, RunsLow;
    if accesses != [] {
      if accesses[0].Fetches? {
        BelowTop(Queue([], at.valid, at.start, at.ip), size, accesses[0].n);
      }
      BelowTopNoneOverruns(Next(at, size, accesses[0]), size, accesses[1..]);
    }
  }

  lemma BelowTop(q: Queue, size: nat, n: nat)
    requires IsSize(size) && (n == 1 || n == 2 || n == 4) && q.ip + n < 0x1_0000_0000
    ensures !Overruns(q, size, n)
  {
    if Overruns(q, size, n) {
      OverrunsAtTheTop(q, size, n);
    }
  }

  lemma CodeBytes(m: Memory, a: int)
    ensures Code(m, a, 1) == [ReadB(m, a)]
    ensures Code(m, a, 2) == [ReadB(m, a), ReadB(m, a + 1)]
    ensures Code(m, a, 4) == [ReadB(m, a), ReadB(m, a + 1), ReadB(m, a + 2), ReadB(m, a + 3)]
  {
    hide ReadB;
    assert Code(m, a, 1) == [ReadB(m, a)];
    assert Code(m, a, 2) == [ReadB(m, a), ReadB(m, a + 1)];
    assert Code(m, a, 3) == [ReadB(m, a), ReadB(m, a + 1), ReadB(m, a + 2)];
  }

  /** The bytes put together are the word and the double word in memory. */
  lemma LittleReads(m: Memory, a: int)
    ensures Little(Code(m, a, 1)) == ReadB(m, a)
    ensures Little(Code(m, a, 2)) == ReadW(m, a)
    ensures Little(Code(m, a, 4)) == ReadD(m, a)
  {
    hide ReadB, Code, Little;
    CodeBytes(m, a);
    LittleOf(ReadB(m, a), ReadB(m, a + 1), ReadB(m, a + 2), ReadB(m, a + 3));
  }

  lemma LittleOf(b0: byte, b1: byte, b2: byte, b3: byte)
    ensures Little([b0]) == b0
    ensures Little([b0, b1]) == b0 + 0x100 * b1
    ensures Little([b0, b1, b2, b3]) == b0 + 0x100 * b1 + 0x1_0000 * b2 + 0x100_0000 * b3
  {
    assert Little([b3]) == b3;
    assert [b2, b3][1..] == [b3] && Little([b2, b3]) == b2 + 0x100 * b3;
    assert [b1, b2, b3][1..] == [b2, b3] && Little([b1, b2, b3]) == b1 + 0x100 * Little([b2, b3]);
    assert [b0, b1, b2, b3][1..] == [b1, b2, b3];
    assert [b0, b1][1..] == [b1] && Little([b1]) == b1;
  }
}
