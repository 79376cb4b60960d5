/**
 What the allocator's writes do to the heap of chains, and what its copies do to memory.
 */
module HeapUpdates {
  import opened PageHeap
  import opened Words

  /** Forward copy, one byte at a time; source and destination may overlap. */
  function CopyForward(m: seq<byte>, dest: nat, src: nat, size: nat): (r: seq<byte>)
    requires dest + size <= |m| && src + size <= |m|
    ensures |r| == |m|
    decreases size
  {
    if size == 0 then m else CopyForward(m[dest := m[src]], dest + 1, src + 1, size - 1)
  }

  /** n pages of memory copied to the pages from newHandle on, whatever pages the blocks hold. */
  ghost predicate PagesCopied(m: seq<byte>, m1: seq<byte>, handle: int, newHandle: int, n: nat) {
    && 0 <= handle && 0 <= newHandle && newHandle * 4096 + n * 4096 <= |m| && handle * 4096 + n * 4096 <= |m|
    && m1 == CopyForward(m, newHandle * 4096, handle * 4096, n * 4096)
  }

  lemma {:induction false} CopyForwardDisjoint(m: seq<byte>, dest: nat, src: nat, size: nat)
    requires dest + size <= |m| && src + size <= |m|
    requires dest + size <= src || src + size <= dest
    ensures CopyForward(m, dest, src, size)[dest..dest + size] == m[src..src + size]
    ensures forall i :: 0 <= i < |m| && !(dest <= i < dest + size) ==> CopyForward(m, dest, src, size)[i] == m[i]
    decreases size
  {
    if size > 0 {
      var m1 := m[dest := m[src]];
      CopyForwardDisjoint(m1, dest + 1, src + 1, size - 1);
      var r := CopyForward(m, dest, src, size);
      assert r[dest] == m[src];
      assert r[dest..dest + size] == [r[dest]] + r[dest + 1..dest + size];
      assert m[src..src + size] == [m[src]] + m1[src + 1..src + size];
    }
  }

  /** The bytes of one page. */
  function PageBytes(m: seq<byte>, page: int): seq<byte>
    requires 0 <= page && (page + 1) * 4096 <= |m|
  {
    m[page * 4096..(page + 1) * 4096]
  }

  /** Page i of the block keeps its bytes for every i below the smaller of the two lengths. */
  ghost predicate KeepsBytes(m: seq<byte>, c: seq<int>, m1: seq<byte>, c1: seq<int>) {
    forall i :: 0 <= i < |c| && i < |c1| ==>
      && 0 <= c[i] && (c[i] + 1) * 4096 <= |m|
      && 0 <= c1[i] && (c1[i] + 1) * 4096 <= |m1|
      && PageBytes(m1, c1[i]) == PageBytes(m, c[i])
  }

  ghost predicate LargestSoFar(h: seq<int>, pages: nat, index: int, largest: nat) {
    && (forall a, b :: IsRun(h, pages, a, b) && b < index ==> b - a <= largest)
    && (largest > 0 ==> exists a, b :: IsRun(h, pages, a, b) && b - a == largest)
  }

  lemma LargestStart(h: seq<int>, pages: nat)
    ensures LargestSoFar(h, pages, XMS_START, 0)
  {
  }

  lemma StepOverFree(h: seq<int>, pages: nat, a: int, b: int, largest: nat)
    requires ScanPoint(h, pages, a, b) && LargestSoFar(h, pages, b, largest) && b < pages && h[b] == 0
    ensures ScanPoint(h, pages, a, b + 1) && LargestSoFar(h, pages, b + 1, largest)
  {
    EndOfRun(h, pages, a, b);
  }

  lemma StepOverUsed(h: seq<int>, pages: nat, a: int, b: int, largest: nat)
    requires ScanPoint(h, pages, a, b) && LargestSoFar(h, pages, b, largest) && b < pages && h[b] != 0
    ensures ScanPoint(h, pages, b + 1, b + 1)
    ensures b - a > largest ==> LargestSoFar(h, pages, b + 1, b - a)
    ensures b - a <= largest ==> LargestSoFar(h, pages, b + 1, largest)
  {
    EndOfRun(h, pages, a, b);
  }

  lemma LargestAtEnd(h: seq<int>, pages: nat, a: int, largest: nat)
    requires ScanPoint(h, pages, a, pages) && LargestSoFar(h, pages, pages, largest)
    ensures IsLargest(h, pages, if pages - a > largest then pages - a else largest)
  {
    EndOfRun(h, pages, a, pages);
    RunsEndByPages(h, pages);
  }

  /** Where runs can end. */
  lemma RunsEndByPages(h: seq<int>, pages: nat)
    ensures forall a, b :: IsRun(h, pages, a, b) ==> XMS_START < b <= pages
  {
  }

  /** `best` is the least length above `size` of the runs that end before `index`; none has length `size`. */
  ghost predicate BestSoFar(h: seq<int>, pages: nat, size: nat, index: int, best: nat, bestFirst: nat) {
    && (bestFirst == 0 ==> best == NO_BEST)
    && (bestFirst != 0 ==> best > size && IsRun(h, pages, bestFirst, bestFirst + best))
    && (forall a, b :: IsRun(h, pages, a, b) && b < index && size <= b - a ==>
          size < b - a && bestFirst != 0 && best <= b - a)
  }

  /** The new chain consists of `count` pages that were free; nothing else changes. */
  ghost predicate Allocated(h: seq<int>, chains: Chains, h1: seq<int>, chains1: Chains, handle: int, count: nat) {
    && handle > 0 && handle !in chains && handle in chains1 && chains1 == chains[handle := chains1[handle]]
    && |chains1[handle]| == count
    && (forall j :: 0 <= j < count ==> 0 <= chains1[handle][j] < |h| && h[chains1[handle][j]] == 0)
    && SameOutside(h, h1, chains1[handle])
  }

  /** A block needs a long enough run; scattered pages need only enough of them. */
  ghost predicate CanAllocate(h: seq<int>, pages: nat, count: nat, sequence: bool)
    requires pages <= |h|
  {
    if sequence then exists a, b :: IsRun(h, pages, a, b) && count <= b - a
    else count <= CountFree(h, pages)
  }

  lemma ShapeBounds(h: seq<int>, pages: nat, chains: Chains)
    requires Shape(h, pages, chains)
    ensures |h| == pages + 1 && h[pages] != 0 && XMS_START <= pages < NO_BEST
    ensures forall k :: k in chains ==> k > 0 && Linked(h, pages, chains[k]) && chains[k][0] == k
  {
  }

  lemma BlockFits(h: seq<int>, pages: nat, count: nat, r: nat)
    requires pages < |h| && count > 0 && IsBestFit(h, pages, count, r)
    ensures r != 0 <==> CanAllocate(h, pages, count, true)
    ensures r != 0 ==> XMS_START <= r && r + count <= pages && forall j :: 0 <= j < count ==> h[Block(r, count)[j]] == 0
  {
    if r != 0 {
      var e :| IsRun(h, pages, r, e) && IsShortestFit(h, pages, count, e - r);
    }
  }

  /** The array after the first `n` pages of a block have been linked; the last link is still missing. */
  ghost function Threaded(h: seq<int>, handle: nat, n: nat): (r: seq<int>)
    requires handle + n <= |h|
    ensures |r| == |h|
    ensures forall i :: 0 <= i < |h| ==> r[i] == if handle <= i < handle + n - 1 then i + 1 else h[i]
  {
    if n <= 1 then h else Threaded(h, handle, n - 1)[handle + n - 2 := handle + n - 1]
  }

  lemma BlockLinked(h: seq<int>, pages: nat, handle: nat, n: nat)
    requires n > 0 && XMS_START <= handle && handle + n <= pages < |h|
    ensures var h1 := Threaded(h, handle, n)[handle + n - 1 := -1];
            var c := Block(handle, n);
            Linked(h1, pages, c) && NoRepeats(c) && SameOutside(h, h1, c)
  {
    var h1 := Threaded(h, handle, n)[handle + n - 1 := -1];
    var c := Block(handle, n);
    forall i | handle <= i < handle + n ensures i in c {
      assert c[i - handle] == i;
    }
  }

  /** `c` lists pages free in `h`, linked in `cur` except that the last one carries `mark`. */
  predicate Partial(h: seq<int>, cur: seq<int>, pages: nat, c: seq<int>, mark: int) {
    && pages < |h| && SameOutside(h, cur, c) && NoRepeats(c)
    && (forall j :: 0 <= j < |c| ==> IsPage(pages, c[j]) && h[c[j]] == 0)
    && (forall j :: 0 <= j < |c| - 1 ==> cur[c[j]] == c[j + 1])
    && (c != [] ==> cur[c[|c| - 1]] == mark)
  }

  lemma ExtendPartial(h: seq<int>, cur: seq<int>, pages: nat, c: seq<int>, mark: int, index: int)
    requires Partial(h, cur, pages, c, mark) && IsPage(pages, index) && cur[index] == 0
    requires c != [] && mark == 0 ==> index == c[|c| - 1] + 1
    ensures Partial(h, if c == [] then cur else cur[c[|c| - 1] := index], pages, c + [index], 0)
  {
    forall j | 0 <= j < |c| ensures c[j] != index {
      if j < |c| - 1 {
        assert cur[c[j]] == c[j + 1] && IsPage(pages, c[j + 1]);
      }
    }
  }

  lemma SealPartial(h: seq<int>, cur: seq<int>, pages: nat, c: seq<int>, mark: int)
    requires Partial(h, cur, pages, c, mark) && c != []
    ensures Partial(h, cur[c[|c| - 1] := -1], pages, c, -1)
    ensures Linked(cur[c[|c| - 1] := -1], pages, c)
  {
  }

  ghost predicate Released(h: seq<int>, chains: Chains, h1: seq<int>, chains1: Chains, handle: int) {
    && handle in chains && chains1 == chains - {handle}
    && SameOutside(h, h1, chains[handle])
    && (forall j :: 0 <= j < |chains[handle]| ==> 0 <= chains[handle][j] < |h1| && h1[chains[handle][j]] == 0)
  }

  /** The live handle `handle` has become `handle1` with `count` pages; no other chain and no other page changed. */
  ghost predicate Resized(h: seq<int>, chains: Chains, h1: seq<int>, chains1: Chains, handle: int, handle1: int, count: nat) {
    && handle in chains && handle1 in chains1 && |chains1[handle1]| == count
    && chains1 - {handle1} == chains - {handle}
    && SameOutside(h, h1, chains[handle] + chains1[handle1])
  }

  /** When a live block of pages `c` can be given `count` pages. */
  ghost predicate CanResize(h: seq<int>, pages: nat, c: seq<int>, count: nat, sequence: bool)
    requires pages <= |h| && c != [] && 0 <= c[|c| - 1]
  {
    || count <= |c|
    || (if sequence then FitsInPlace(h, pages, c, count) || CanAllocate(h, pages, count, true)
        else CanAllocate(h, pages, count - |c|, false))
  }

  ghost predicate FitsInPlace(h: seq<int>, pages: nat, c: seq<int>, count: nat)
    requires pages <= |h| && c != [] && 0 <= c[|c| - 1]
  {
    count - |c| <= FreeFrom(h, pages, c[|c| - 1] + 1)
  }

  lemma ShrinkResult(h: seq<int>, h1: seq<int>, pages: nat, live: Chains, handle: int, count: nat)
    requires Shape(h, pages, live) && handle in live && 0 < count < |live[handle]|
    requires h1 == Cleared(h[live[handle][count - 1] := -1], live[handle][count..])
    ensures Shape(h1, pages, live[handle := live[handle][..count]])
    ensures Resized(h, live, h1, live[handle := live[handle][..count]], handle, handle, count)
  {
    hide Shape, NoRepeats, Resized, Cleared;
    var c := live[handle];
    ShapeBounds(h, pages, live);
    ChainNoRepeats(h, pages, live, handle);
    Truncated(h, h[c[count - 1] := -1], h1, pages, c, count);
    ReplaceChain(h, h1, pages, live, handle, c[..count]);
    Replaced(h, h1, live, handle, c[..count]);
  }

  lemma Replaced(h: seq<int>, h1: seq<int>, live: Chains, k: int, c1: seq<int>)
    requires k in live && |h1| == |h|
    requires forall i :: 0 <= i < |h| && i !in c1 ==> h1[i] == if i in live[k] then 0 else h[i]
    ensures Resized(h, live, h1, live[k := c1], k, k, |c1|)
  {
    assert live[k := c1] - {k} == live - {k};
  }

  /** `rest` is threaded through the array from `index` on. */
  ghost predicate RestOf(h: seq<int>, rest: seq<int>, index: int) {
    && rest != [] && index == rest[0] && NoRepeats(rest)
    && (forall j :: 0 <= j < |rest| ==> 0 <= rest[j] < |h|)
    && (forall j :: 0 <= j < |rest| - 1 ==> h[rest[j]] == rest[j + 1])
  }

  lemma TruncatedElsewhere(h: seq<int>, h0: seq<int>, h1: seq<int>, c: seq<int>, count: nat, i: nat)
    requires 0 < count < |c| && (forall j :: 0 <= j < |c| ==> 0 <= c[j] < |h|)
    requires h0 == h[c[count - 1] := -1] && h1 == Cleared(h0, c[count..]) && i < |h| && i !in c[..count]
    ensures h1[i] == if i in c then 0 else h[i]
  {
    hide Cleared;
    if i in c {
      var j :| 0 <= j < |c| && c[j] == i;
      assert j >= count && c[count..][j - count] == i;
    } else {
      assert i !in c[count..];
      assert i != c[count - 1];
    }
  }

  lemma Truncated(h: seq<int>, h0: seq<int>, h1: seq<int>, pages: nat, c: seq<int>, count: nat)
    requires Linked(h, pages, c) && NoRepeats(c) && 0 < count < |c|
    requires h0 == h[c[count - 1] := -1] && h1 == Cleared(h0, c[count..])
    ensures Linked(h1, pages, c[..count]) && NoRepeats(c[..count])
    ensures forall i :: i in c[..count] ==> i in c
    ensures forall i :: 0 <= i < |h| && i !in c[..count] ==> h1[i] == if i in c then 0 else h[i]
  {
    hide Cleared;
    forall j | 0 <= j < count ensures c[j] !in c[count..] && h1[c[j]] == h0[c[j]] {
    }
    forall i | 0 <= i < |h| && i !in c[..count] ensures h1[i] == if i in c then 0 else h[i] {
      TruncatedElsewhere(h, h0, h1, c, count, i);
    }
  }

  lemma GrowResult(h: seq<int>, h1: seq<int>, pages: nat, live: Chains, handle: int, last: nat, need: nat, c1: seq<int>)
    requires Shape(h, pages, live) && handle in live && need > 0
    requires last == live[handle][|live[handle]| - 1] && c1 == live[handle] + Block(last + 1, need)
    requires last + need < pages && forall i :: last < i <= last + need ==> h[i] == 0
    requires h1 == Threaded(h, last, need + 1)[last + need := -1]
    ensures Shape(h1, pages, live[handle := c1]) && Resized(h, live, h1, live[handle := c1], handle, handle, |c1|)
  {
    hide Shape, Threaded, Block, NoRepeats, Resized;
    ShapeBounds(h, pages, live);
    ChainPages(h, pages, live, handle);
    ChainNoRepeats(h, pages, live, handle);
    assert c1[0] == handle;
    Extended(h, h1, pages, live[handle], last, need, c1);
    ReplaceChain(h, h1, pages, live, handle, c1);
    Replaced(h, h1, live, handle, c1);
  }

  lemma ChainPages(h: seq<int>, pages: nat, chains: Chains, k: int)
    requires Shape(h, pages, chains) && k in chains
    ensures forall j :: 0 <= j < |chains[k]| ==> IsPage(pages, chains[k][j]) && h[chains[k][j]] != 0
  {
    forall j | 0 <= j < |chains[k]| ensures IsPage(pages, chains[k][j]) && h[chains[k][j]] != 0 {
      ChainPagesUsed(h, pages, chains, k, j);
    }
  }

  lemma Extended(h: seq<int>, h1: seq<int>, pages: nat, c: seq<int>, last: nat, need: nat, c1: seq<int>)
    requires Linked(h, pages, c) && NoRepeats(c) && need > 0
    requires forall j :: 0 <= j < |c| ==> h[c[j]] != 0
    requires last == c[|c| - 1] && c1 == c + Block(last + 1, need)
    requires last + need < pages && forall i :: last < i <= last + need ==> h[i] == 0
    requires h1 == Threaded(h, last, need + 1)[last + need := -1]
    ensures Linked(h1, pages, c1) && NoRepeats(c1)
    ensures forall i :: i in c1 ==> i in c || h[i] == 0
    ensures forall i :: 0 <= i < |h| && i !in c1 ==> h1[i] == if i in c then 0 else h[i]
  {
    forall i | last < i <= last + need ensures i in c1 {
      assert c1[|c| + (i - last - 1)] == i;
    }
    forall i | 0 <= i < |h| && i !in c1 ensures i !in c && h1[i] == h[i] {
      assert i != last by { assert c1[|c| - 1] == last; }
      assert i in c ==> i in c1;
    }
    forall j | 0 <= j < |c1| - 1 ensures h1[c1[j]] == c1[j + 1] {
      if j < |c| - 1 {
        assert c[j] != last && h[c[j]] != 0;
      }
    }
  }

  lemma Appended(h: seq<int>, h1: seq<int>, pages: nat, live: Chains, live1: Chains, handle: int, rem: int, need: nat)
    requires Shape(h, pages, live) && handle in live && Shape(h1, pages, live1)
    requires Allocated(h, live, h1, live1, rem, need) && need > 0
    ensures var c := live[handle];
            var c1 := c + live1[rem];
            var h2 := h1[c[|c| - 1] := rem];
            && Shape(h2, pages, live[handle := c1])
            && Resized(h, live, h2, live[handle := c1], handle, handle, |c1|)
  {
    hide Shape, NoRepeats, Resized;
    ShapeBounds(h, pages, live);
    ShapeBounds(h1, pages, live1);
    var c, r := live[handle], live1[rem];
    var c1, last := c + r, c[|c| - 1];
    var h2 := h1[last := rem];
    ChainPages(h, pages, live, handle);
    ChainPages(h1, pages, live1, rem);
    ChainNoRepeats(h, pages, live, handle);
    ChainNoRepeats(h1, pages, live1, rem);
    assert c1[0] == handle;
    AppendedLinks(h, h1, h2, pages, c, r, c1);
    ReplaceChain(h, h2, pages, live, handle, c1);
    Replaced(h, h2, live, handle, c1);
  }

  lemma AppendedLinks(h: seq<int>, h1: seq<int>, h2: seq<int>, pages: nat, c: seq<int>, r: seq<int>, c1: seq<int>)
    requires Linked(h, pages, c) && NoRepeats(c) && Linked(h1, pages, r) && NoRepeats(r)
    requires forall j :: 0 <= j < |c| ==> h[c[j]] != 0
    requires forall j :: 0 <= j < |r| ==> h[r[j]] == 0
    requires SameOutside(h, h1, r) && h2 == h1[c[|c| - 1] := r[0]] && c1 == c + r
    ensures Linked(h2, pages, c1) && NoRepeats(c1)
    ensures forall i :: i in c1 ==> i in c || h[i] == 0
    ensures forall i :: 0 <= i < |h| && i !in c1 ==> h2[i] == if i in c then 0 else h[i]
  {
    forall j | 0 <= j < |c| ensures c[j] !in r && h1[c[j]] == h[c[j]] {
    }
    forall j | 0 <= j < |c1| ensures IsPage(pages, c1[j]) && j < |c1| - 1 ==> h2[c1[j]] == c1[j + 1] {
    }
    forall i | 0 <= i < |h| && i !in c1 ensures i !in c && i !in r && h2[i] == h[i] {
      assert i in c ==> i in c1;
      assert i in r ==> i in c1;
      assert c[|c| - 1] in c;
    }
  }

  lemma MoveInRange(h: seq<int>, pages: nat, live: Chains, h1: seq<int>, live1: Chains, handle: int, newHandle: int, count: nat)
    requires Shape(h, pages, live) && Shape(h1, pages, live1) && handle in live && |live[handle]| < count
    requires Allocated(h, live, h1, live1, newHandle, count) && Contiguous(live1[newHandle])
    ensures 0 < handle < pages && 0 < newHandle && newHandle + count <= pages && live1[newHandle][0] == newHandle
    ensures handle in live1 && newHandle != handle && live1[handle] == live[handle]
  {
    hide Shape;
    ShapeBounds(h, pages, live);
    ShapeBounds(h1, pages, live1);
    assert IsPage(pages, live[handle][0]) && IsPage(pages, live1[newHandle][count - 1]);
  }

  lemma Moved(h: seq<int>, live: Chains, h1: seq<int>, live1: Chains, h2: seq<int>, live2: Chains,
                     handle: int, newHandle: int, count: nat)
    requires handle in live && handle != newHandle
    requires Allocated(h, live, h1, live1, newHandle, count) && Released(h1, live1, h2, live2, handle)
    ensures Resized(h, live, h2, live2, handle, newHandle, count) && live2[newHandle] == live1[newHandle]
  {
    assert live2 - {newHandle} == live - {handle};
  }

  /** Two contiguous chains, one of used and one of free pages, are apart in memory. */
  lemma Apart(h: seq<int>, pages: nat, c: seq<int>, b: seq<int>)
    requires pages < |h| && 0 < |c| < |b| && Contiguous(c) && Contiguous(b)
    requires forall j :: 0 <= j < |c| ==> IsPage(pages, c[j]) && h[c[j]] != 0
    requires forall j :: 0 <= j < |b| ==> IsPage(pages, b[j]) && h[b[j]] == 0
    ensures 0 < b[0] && 0 < c[0] && b[0] + |c| <= pages && c[0] + |c| <= pages
    ensures b[0] + |c| <= c[0] || c[0] + |c| <= b[0]
  {
    assert IsPage(pages, c[|c| - 1]) && IsPage(pages, b[|c| - 1]);
    assert forall j :: 0 <= j < |c| ==> c[j] != b[0];
    assert forall j :: 0 <= j < |b| ==> b[j] != c[0];
    var j := if c[0] <= b[0] < c[0] + |c| then b[0] - c[0] else 0;
    assert c[j] == c[0] + j;
    var k := if b[0] <= c[0] < b[0] + |b| then c[0] - b[0] else 0;
    assert b[k] == b[0] + k;
  }

  /** A contiguous block keeps its bytes in the move: the copied ranges do not overlap. */
  lemma MoveKeepsBytes(m: seq<byte>, h: seq<int>, pages: nat, c: seq<int>, b: seq<int>)
    requires 2 * pages * 4096 <= |m| && pages < |h| && 0 < |c| < |b| && Contiguous(c) && Contiguous(b)
    requires forall j :: 0 <= j < |c| ==> IsPage(pages, c[j]) && h[c[j]] != 0
    requires forall j :: 0 <= j < |b| ==> IsPage(pages, b[j]) && h[b[j]] == 0
    ensures 0 < b[0] && 0 < c[0] && b[0] + |c| <= pages && c[0] + |c| <= pages
    ensures KeepsBytes(m, c, CopyForward(m, b[0] * 4096, c[0] * 4096, |c| * 4096), b)
  {
    hide KeepsBytes, CopyForward, Contiguous;
    Apart(h, pages, c, b);
    CopyKeepsPages(m, c, b);
  }

  lemma CopyKeepsPages(m: seq<byte>, c: seq<int>, b: seq<int>)
    requires 0 < |c| < |b| && Contiguous(c) && Contiguous(b) && 0 < b[0] && 0 < c[0]
    requires (b[0] + |c|) * 4096 <= |m| && (c[0] + |c|) * 4096 <= |m|
    requires b[0] + |c| <= c[0] || c[0] + |c| <= b[0]
    ensures KeepsBytes(m, c, CopyForward(m, b[0] * 4096, c[0] * 4096, |c| * 4096), b)
  {
    hide CopyForward, PageBytes, Contiguous;
    var m1 := CopyForward(m, b[0] * 4096, c[0] * 4096, |c| * 4096);
    CopyForwardDisjoint(m, b[0] * 4096, c[0] * 4096, |c| * 4096);
    forall i | 0 <= i < |c|
      ensures 0 <= c[i] && (c[i] + 1) * 4096 <= |m| && 0 <= b[i] && (b[i] + 1) * 4096 <= |m1|
      ensures PageBytes(m1, b[i]) == PageBytes(m, c[i])
    {
      CopiedPage(m, m1, c, b, i);
    }
  }

  lemma CopiedPage(m: seq<byte>, m1: seq<byte>, c: seq<int>, b: seq<int>, i: nat)
    requires i < |c| < |b| && Contiguous(c) && Contiguous(b) && 0 < b[0] && 0 < c[0] && |m1| == |m|
    requires (b[0] + |c|) * 4096 <= |m| && (c[0] + |c|) * 4096 <= |m|
    requires m1[b[0] * 4096..b[0] * 4096 + |c| * 4096] == m[c[0] * 4096..c[0] * 4096 + |c| * 4096]
    ensures 0 <= c[i] && (c[i] + 1) * 4096 <= |m| && 0 <= b[i] && (b[i] + 1) * 4096 <= |m1|
    ensures PageBytes(m1, b[i]) == PageBytes(m, c[i])
  {
    hide PageBytes, Contiguous;
    ContiguousAt(b, i);
    ContiguousAt(c, i);
    SamePage(m1, m, b[0], c[0], |c|, i);
  }

  lemma ContiguousAt(c: seq<int>, i: nat)
    requires Contiguous(c) && i < |c|
    ensures c[i] == c[0] + i
  {
  }

  lemma SamePage(a: seq<byte>, b: seq<byte>, x: nat, y: nat, n: nat, i: nat)
    requires (x + n) * 4096 <= |a| && (y + n) * 4096 <= |b| && i < n
    requires a[x * 4096..x * 4096 + n * 4096] == b[y * 4096..y * 4096 + n * 4096]
    ensures PageBytes(a, x + i) == PageBytes(b, y + i)
  {
    SameSlices(a, b, x * 4096, y * 4096, n * 4096, i * 4096, (i + 1) * 4096);
  }

  lemma SameSlices(a: seq<byte>, b: seq<byte>, x: nat, y: nat, size: nat, lo: nat, hi: nat)
    requires x + size <= |a| && y + size <= |b| && a[x..x + size] == b[y..y + size] && lo <= hi <= size
    ensures a[x + lo..x + hi] == b[y + lo..y + hi]
  {
    SliceOfSlice(a, x, x + size, lo, hi);
    SliceOfSlice(b, y, y + size, lo, hi);
  }

  lemma SliceOfSlice(a: seq<byte>, x: nat, y: nat, lo: nat, hi: nat)
    requires x <= y <= |a| && lo <= hi <= y - x
    ensures a[x..y][lo..hi] == a[x + lo..x + hi]
  {
    var p, q := a[x..y][lo..hi], a[x + lo..x + hi];
    forall i | 0 <= i < hi - lo ensures p[i] == q[i] {
      assert p[i] == a[x..y][lo + i];
    }
  }

  lemma HandleIsPage(h: seq<int>, chains: Chains, h1: seq<int>, chains1: Chains, handle: int, count: nat)
    requires handle != 0 ==> Allocated(h, chains, h1, chains1, handle, count)
    ensures handle >= 0
  {
  }

  lemma SameSize(h: seq<int>, chains: Chains, handle: int, count: nat)
    requires handle in chains && |chains[handle]| == count
    ensures Resized(h, chains, h, chains, handle, handle, count)
  {
  }

  /** Memory that is not written keeps the bytes of every chain that agrees with the old one page by page. */
  lemma KeepsInPlace(m: seq<byte>, h: seq<int>, pages: nat, chains: Chains, handle: int)
    requires Shape(h, pages, chains) && handle in chains && |m| >= 2 * pages * 4096
    ensures var c := chains[handle];
            forall c1: seq<int> :: (forall i :: 0 <= i < |c| && i < |c1| ==> c1[i] == c[i]) ==> KeepsBytes(m, c, m, c1)
  {
    hide PageBytes;
    var c := chains[handle];
    ChainPages(h, pages, chains, handle);
    forall c1: seq<int> | forall i :: 0 <= i < |c| && i < |c1| ==> c1[i] == c[i] ensures KeepsBytes(m, c, m, c1) {
    }
  }

  /**
   The move keeps the bytes of every page, whatever the memory holds, exactly when the old block is
   contiguous: it copies the pages that follow the first one, not the pages of the chain.
   */
  lemma MoveFaithfulIffContiguous(h: seq<int>, pages: nat, c: seq<int>, b: seq<int>)
    requires pages < |h| && 0 < |c| < |b| && NoRepeats(c) && Contiguous(b)
    requires forall j :: 0 <= j < |c| ==> IsPage(pages, c[j]) && h[c[j]] != 0
    requires forall j :: 0 <= j < |b| ==> IsPage(pages, b[j]) && h[b[j]] == 0
    requires |c| <= pages
    ensures Contiguous(c) <==> forall m: seq<byte> :: |m| == 2 * pages * 4096 ==> MoveKeeps(m, c, b)
  {
    if Contiguous(c) {
      forall m: seq<byte> | |m| == 2 * pages * 4096 ensures MoveKeeps(m, c, b) {
        MoveKeepsBytes(m, h, pages, c, b);
      }
    } else {
      var i := FirstStray(c);
      var m: seq<byte> := seq(2 * pages * 4096, x => if x == c[i] * 4096 then 1 else 0);
      StrayPageLost(m, pages, c, b, i);
    }
  }

  ghost predicate MoveKeeps(m: seq<byte>, c: seq<int>, b: seq<int>) {
    && c != [] && b != [] && 0 <= c[0] && 0 <= b[0]
    && b[0] * 4096 + |c| * 4096 <= |m| && c[0] * 4096 + |c| * 4096 <= |m|
    && KeepsBytes(m, c, CopyForward(m, b[0] * 4096, c[0] * 4096, |c| * 4096), b)
  }

  lemma FirstStray(c: seq<int>) returns (i: nat)
    requires c != [] && !Contiguous(c)
    ensures 0 < i < |c| && c[i] != c[0] + i && forall j :: 0 <= j < i ==> c[j] == c[0] + j
  {
    i := 0;
    while c[i] == c[0] + i
      invariant i < |c| && forall j :: 0 <= j < i ==> c[j] == c[0] + j
      decreases |c| - i
    {
      i := i + 1;
    }
  }

  lemma StrayPageLost(m: seq<byte>, pages: nat, c: seq<int>, b: seq<int>, i: nat)
    requires NoRepeats(c) && Contiguous(b) && 0 < i < |c| < |b| && |c| <= pages && |m| == 2 * pages * 4096
    requires forall j :: 0 <= j < |c| ==> IsPage(pages, c[j])
    requires forall j :: 0 <= j < |b| ==> IsPage(pages, b[j])
    requires c[i] != c[0] + i && forall j :: 0 <= j < i ==> c[j] == c[0] + j
    requires forall x :: 0 <= x < |m| ==> m[x] == if x == c[i] * 4096 then 1 else 0
    ensures !MoveKeeps(m, c, b)
  {
    hide CopyForward;
    var p, src, dest, size := c[i] * 4096, c[0] * 4096, b[0] * 4096, |c| * 4096;
    assert IsPage(pages, b[0]) && IsPage(pages, b[|c|]) && IsPage(pages, c[0]) && IsPage(pages, c[i]);
    var k := if c[0] <= c[i] < c[0] + i then c[i] - c[0] else 0;
    assert c[k] != c[i];
    CopiedZero(m, dest, src, size, p, i * 4096);
    var m1 := CopyForward(m, dest, src, size);
    ContiguousAt(b, i);
    assert PageBytes(m1, b[i])[0] == 0;
    assert PageBytes(m, c[i])[0] == 1;
  }

  /** Copying out of memory that holds a single non-zero byte copies zeros until it reaches that byte. */
  lemma {:induction false} CopiedZero(m: seq<byte>, dest: nat, src: nat, size: nat, p: nat, k: nat)
    requires dest + size <= |m| && src + size <= |m| && k < size
    requires forall x :: 0 <= x < |m| && x != p ==> m[x] == 0
    requires p < src || src + k < p
    ensures CopyForward(m, dest, src, size)[dest + k] == 0
    decreases size
  {
    var m1 := m[dest := m[src]];
    if k == 0 {
      BelowUntouched(m1, dest + 1, src + 1, size - 1, dest);
    } else {
      CopiedZero(m1, dest + 1, src + 1, size - 1, p, k - 1);
    }
  }

  lemma {:induction false} BelowUntouched(m: seq<byte>, dest: nat, src: nat, size: nat, x: nat)
    requires dest + size <= |m| && src + size <= |m| && x < dest
    ensures CopyForward(m, dest, src, size)[x] == m[x]
    decreases size
  {
    if size > 0 {
      BelowUntouched(m[dest := m[src]], dest + 1, src + 1, size - 1, x);
    }
  }
}
