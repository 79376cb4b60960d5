/**
 The memory block: the page-handle array and the physical memory, both updated in place.
 */
module Memory {
  import opened PageHeap
  import opened HeapUpdates
  import opened Words

  class MemoryBlock {
    const pages: nat
    const mhandles: array<int>
    // Host memory from address 0 on; the managed pages are its lower part.
    const ram: array<byte>
    ghost var chains: Chains

    ghost predicate Valid()
      reads this, mhandles, ram
    {
      && Shape(mhandles[..], pages, chains)
      && ram.Length >= 2 * pages * 4096
    }

    /** The sentinel and the bounds: all that the searches rely on, also while a chain is being built. */
    ghost predicate Bounded()
      reads this, mhandles
    {
      mhandles.Length == pages + 1 && mhandles[pages] != 0 && XMS_START <= pages < NO_BEST
    }

    constructor (pages: nat)
      requires XMS_START <= pages < NO_BEST
      ensures Valid() && chains == map[] && this.pages == pages
      ensures fresh(mhandles) && fresh(ram)
    {
      this.pages := pages;
      mhandles := new int[pages + 1](i => if i == pages then -1 else 0);
      ram := new byte[2 * pages * 4096](_ => 0);
      chains := map[];
    }

    method FreeLargest() returns (largest: nat)
      requires Bounded()
      ensures IsLargest(mhandles[..], pages, largest)
    {
      hide ScanPoint, LargestSoFar, IsRun, IsLargest;
      ghost var h := mhandles[..];
      ScanStart(h, pages);
      LargestStart(h, pages);
      var size := 0;
      largest := 0;
      var index := XMS_START;
      ghost var start := index;
      while index < pages
        invariant h == mhandles[..] && XMS_START <= index <= pages
        invariant size == index - start && ScanPoint(h, pages, start, index)
        invariant LargestSoFar(h, pages, index, largest)
      {
        if mhandles[index] == 0 {
          StepOverFree(h, pages, start, index, largest);
          size := size + 1;
        } else {
          StepOverUsed(h, pages, start, index, largest);
          if size > largest {
            largest := size;
          }
          size := 0;
          start := index + 1;
        }
        index := index + 1;
      }
      LargestAtEnd(h, pages, start, largest);
      if size > largest {
        largest := size;
      }
    }

    method FreeTotal() returns (free: nat)
      requires Bounded()
      ensures free == CountFree(mhandles[..], pages)
    {
      free := 0;
      var index := XMS_START;
      while index < pages
        invariant XMS_START <= index <= pages
        invariant free == CountFree(mhandles[..], index)
      {
        if mhandles[index] == 0 {
          free := free + 1;
        }
        index := index + 1;
      }
    }

    /** The number of pages of a live handle; 0 for the null handle and the error handle. */
    method AllocatedPages(handle: int) returns (count: nat)
      requires Valid() && (handle > 0 ==> handle in chains)
      ensures count == if handle > 0 then |chains[handle]| else 0
    {
      count := 0;
      var h := handle;
      ghost var c := if handle > 0 then chains[handle] else [];
      assert handle > 0 ==> Linked(mhandles[..], pages, c) && c[0] == handle;
      while h > 0
        invariant count <= |c|
        invariant h == if count < |c| then c[count] else if handle > 0 then -1 else handle
        decreases |c| - count
      {
        count := count + 1;
        h := mhandles[h];
      }
    }

    method NextHandleAt(handle: int, where: nat) returns (r: int)
      requires Valid() && handle in chains && where < |chains[handle]|
      ensures r == chains[handle][where]
    {
      r := handle;
      var w: nat := where;
      assert Linked(mhandles[..], pages, chains[handle]) && chains[handle][0] == handle;
      while w > 0
        invariant w <= where && r == chains[handle][where - w]
      {
        w := w - 1;
        r := mhandles[r];
      }
    }

    method BestMatch(size: nat) returns (r: nat)
      requires Bounded() && size > 0
      ensures IsBestFit(mhandles[..], pages, size, r)
    {
      hide IsRun, ScanPoint;
      ghost var h := mhandles[..];
      ScanStart(h, pages);
      RunsEndByPages(h, pages);
      var index := XMS_START;
      var first: nat := 0;
      var best: nat := NO_BEST;
      var bestFirst: nat := 0;
      while index < pages
        invariant h == mhandles[..] && XMS_START <= index <= pages
        invariant first < index && ScanPoint(h, pages, if first == 0 then index else first, index)
        invariant BestSoFar(h, pages, size, index, best, bestFirst)
      {
        ScanNext(h, pages, if first == 0 then index else first, index);
        EndOfRun(h, pages, if first == 0 then index else first, index);
        if first == 0 {
          if mhandles[index] == 0 {
            first := index;
          }
        } else {
          if mhandles[index] != 0 {
            var len := index - first;
            if len == size {
              assert IsRun(h, pages, first, index);
              return first;
            } else if len > size {
              if len < best {
                best := len;
                bestFirst := first;
              }
            }
            first := 0;
          }
        }
        index := index + 1;
      }
      EndOfRun(h, pages, if first == 0 then index else first, index);
      if first != 0 && index - first >= size && index - first < best {
        assert IsRun(h, pages, first, index);
        return first;
      }
      assert bestFirst != 0 ==> IsRun(h, pages, bestFirst, bestFirst + best);
      return bestFirst;
    }

    // ----- allocation

    /** MEM_AllocatePages */
    method AllocatePages(count: nat, sequence: bool) returns (handle: int)
      requires Valid()
      modifies this`chains, mhandles
      ensures Valid()
      ensures handle == 0 ==> mhandles[..] == old(mhandles[..]) && chains == old(chains)
      ensures handle != 0 ==> Allocated(old(mhandles[..]), old(chains), mhandles[..], chains, handle, count)
      ensures handle != 0 && sequence ==> Contiguous(chains[handle])
      ensures handle != 0 <==> count > 0 && CanAllocate(old(mhandles[..]), pages, count, sequence)
    {
      hide Shape, CanAllocate, Allocated;
      if count == 0 {
        return 0;
      }
      if sequence {
        handle := AllocateBlock(count);
      } else {
        handle := AllocateScattered(count);
      }
    }

    method AllocateBlock(count: nat) returns (handle: int)
      requires Valid() && count > 0
      modifies this`chains, mhandles
      ensures Valid()
      ensures handle == 0 ==> mhandles[..] == old(mhandles[..]) && chains == old(chains)
      ensures handle != 0 ==> Allocated(old(mhandles[..]), old(chains), mhandles[..], chains, handle, count)
      ensures handle != 0 ==> chains[handle] == Block(handle, count)
      ensures handle != 0 <==> CanAllocate(old(mhandles[..]), pages, count, true)
    {
      hide Shape, Threaded, Linked, NoRepeats, SameOutside, CanAllocate, IsRun, IsBestFit;
      ghost var h := mhandles[..];
      ShapeBounds(h, pages, chains);
      var index := BestMatch(count);
      BlockFits(h, pages, count, index);
      if index == 0 {
        return 0;
      }
      handle := LinkBlock(index, count);
      BlockLinked(h, pages, handle, count);
      ghost var c := Block(handle, count);
      assert c[0] == handle;
      AddChain(h, mhandles[..], pages, chains, c);
      chains := chains[handle := c];
    }

    /** Links the pages of a block one after the other. */
    method LinkBlock(first: nat, count: nat) returns (handle: int)
      requires count > 0 && XMS_START <= first && first + count <= pages < mhandles.Length
      modifies mhandles
      ensures handle == first
      ensures mhandles[..] == Threaded(old(mhandles[..]), first, count)[first + count - 1 := -1]
    {
      handle := first;
      var index, n, next := first, count, 0;
      while n > 0
        invariant handle == first && 0 <= n <= count && index == first + (count - n)
        invariant next == if n == count then 0 else index - 1
        invariant mhandles[..] == Threaded(old(mhandles[..]), first, count - n)
      {
        if next == 0 {
          handle := index;
        } else {
          mhandles[next] := index;
        }
        next := index;
        index, n := index + 1, n - 1;
      }
      mhandles[next] := -1;
    }

    method AllocateScattered(count: nat) returns (handle: int)
      requires Valid() && count > 0
      modifies this`chains, mhandles
      ensures Valid()
      ensures handle == 0 ==> mhandles[..] == old(mhandles[..]) && chains == old(chains)
      ensures handle != 0 ==> Allocated(old(mhandles[..]), old(chains), mhandles[..], chains, handle, count)
      ensures handle != 0 <==> CanAllocate(old(mhandles[..]), pages, count, false)
    {
      hide Shape, Linked;
      ghost var h, live := mhandles[..], chains;
      ShapeBounds(h, pages, live);
      var free := FreeTotal();
      if free < count {
        return 0;
      }
      handle := 0;
      var n: nat := count;
      var next := 0;
      ghost var c: seq<int> := [];
      while n > 0
        invariant chains == live && Bounded() && |c| + n == count
        invariant Partial(h, mhandles[..], pages, c, -1)
        invariant c != [] ==> handle == c[0] && next == c[|c| - 1]
        invariant c == [] ==> next == 0
        invariant n <= CountFree(mhandles[..], pages)
      {
        n, next, handle, c := TakeRun(h, n, next, handle, c);
      }
      AddChain(h, mhandles[..], pages, live, c);
      chains := chains[handle := c];
    }

    /** One turn of the outer loop: finds the best run for a single page and takes pages from its start. */
    method TakeRun(ghost h: seq<int>, count: nat, next0: int, handle0: int, ghost c0: seq<int>)
      returns (n: nat, next: int, handle: int, ghost c: seq<int>)
      requires Bounded() && Partial(h, mhandles[..], pages, c0, -1)
      requires c0 != [] ==> handle0 == c0[0] && next0 == c0[|c0| - 1]
      requires c0 == [] ==> next0 == 0
      requires 0 < count <= CountFree(mhandles[..], pages)
      modifies mhandles
      ensures Bounded()
      ensures n < count && |c| + n == |c0| + count
      ensures Partial(h, mhandles[..], pages, c, -1)
      ensures c != [] && handle == c[0] && next == c[|c| - 1]
      ensures n <= CountFree(mhandles[..], pages)
    {
      n, next, handle, c := count, next0, handle0, c0;
      var index := BestMatch(1);
      FreePageIsFound(mhandles[..], pages, index);
      assert index != 0;  // the exit "MEM:corruption during allocate" is not taken
      ghost var started := false;
      while n > 0 && mhandles[index] == 0
        invariant Bounded() && XMS_START <= index <= pages
        invariant |c| + n == |c0| + count && n <= count
        invariant if started then n < count else n == count && mhandles[index] == 0
        invariant c != [] ==> handle == c[0] && next == c[|c| - 1]
        invariant c == [] ==> next == 0 && !started
        invariant started ==> index == next + 1
        invariant Partial(h, mhandles[..], pages, c, if started then 0 else -1)
        invariant CountFree(mhandles[..], pages) >= n + if started then 1 else 0
      {
        ExtendPartial(h, mhandles[..], pages, c, if started then 0 else -1, index);
        if next == 0 {
          handle := index;
        } else {
          CountAfterWrite(mhandles[..], pages, next, index);
          mhandles[next] := index;
        }
        c := c + [index];
        next := index;
        index, n, started := index + 1, n - 1, true;
      }
      CountAfterWrite(mhandles[..], pages, next, -1);
      SealPartial(h, mhandles[..], pages, c, 0);
      mhandles[next] := -1;
    }

    // ----- release

    /** MEM_ReleasePages */
    method ReleasePages(handle: int)
      requires Valid() && (handle > 0 ==> handle in chains)
      modifies this`chains, mhandles
      ensures Valid()
      ensures handle <= 0 ==> mhandles[..] == old(mhandles[..]) && chains == old(chains)
      ensures handle > 0 ==> Released(old(mhandles[..]), old(chains), mhandles[..], chains, handle)
    {
      hide Shape, Linked;
      if handle <= 0 {
        return;
      }
      ghost var h, live, c := mhandles[..], chains, chains[handle];
      ShapeBounds(h, pages, live);
      ChainPages(h, pages, live, handle);
      ChainNoRepeats(h, pages, live, handle);
      ClearChain(handle, c);
      RemoveChain(h, mhandles[..], pages, live, handle);
      chains := chains - {handle};
    }

    method ClearChain(start: int, ghost c: seq<int>)
      requires pages < mhandles.Length && Linked(mhandles[..], pages, c) && NoRepeats(c) && start == c[0]
      modifies mhandles
      ensures mhandles[..] == Cleared(old(mhandles[..]), c)
    {
      var at := start;
      ghost var j := 0;
      while at > 0
        invariant 0 <= j <= |c|
        invariant at == if j < |c| then c[j] else -1
        invariant mhandles[..] == Cleared(old(mhandles[..]), c[..j])
        decreases |c| - j
      {
        var next := mhandles[at];
        mhandles[at] := 0;
        at := next;
        assert c[..j + 1][..j] == c[..j];
        j := j + 1;
      }
      assert c[..j] == c;
    }

    // ----- reallocation

    method BlockCopy(dest: nat, src: nat, size: nat)
      requires dest + size <= ram.Length && src + size <= ram.Length
      modifies ram
      ensures ram[..] == CopyForward(old(ram[..]), dest, src, size)
    {
      var d, s, n := dest, src, size;
      while n > 0
        invariant 0 <= n <= size && d == dest + (size - n) && s == src + (size - n)
        invariant CopyForward(ram[..], d, s, n) == CopyForward(old(ram[..]), dest, src, size)
      {
        n := n - 1;
        ram[d] := ram[s];
        d, s := d + 1, s + 1;
      }
    }

    method Shrink(handle: int, count: nat, oldPages: nat)
      requires Valid() && handle in chains && oldPages == |chains[handle]| && 0 < count < oldPages
      modifies this`chains, mhandles
      ensures Valid()
      ensures Resized(old(mhandles[..]), old(chains), mhandles[..], chains, handle, handle, count)
      ensures chains[handle] == old(chains[handle])[..count]
    {
      hide Shape, Cleared, Resized;
      ghost var h, live, c := mhandles[..], chains, chains[handle];
      ShapeBounds(h, pages, live);
      ChainNoRepeats(h, pages, live, handle);
      var n: nat, index, old_pages: nat := count - 1, handle, oldPages - 1;
      while n > 0
        invariant chains == live && mhandles[..] == h
        invariant n < count && index == c[count - 1 - n] && old_pages == oldPages - count + n
      {
        index := mhandles[index];
        n, old_pages := n - 1, old_pages - 1;
      }
      var next := mhandles[index];
      mhandles[index] := -1;
      ghost var h0 := mhandles[..];
      assert RestOf(h0, c[count..], next);
      ClearRest(next, old_pages, c[count..]);
      ShrinkResult(h, mhandles[..], pages, live, handle, count);
      chains := chains[handle := c[..count]];
    }

    method ClearRest(start: int, count: nat, ghost rest: seq<int>)
      requires count == |rest| && RestOf(mhandles[..], rest, start)
      modifies mhandles
      ensures mhandles[..] == Cleared(old(mhandles[..]), rest)
    {
      var index, n := start, count;
      ghost var j := 0;
      while n > 0
        invariant 0 <= j <= |rest| && n == |rest| - j
        invariant j < |rest| ==> index == rest[j]
        invariant mhandles[..] == Cleared(old(mhandles[..]), rest[..j])
      {
        var next := mhandles[index];
        mhandles[index] := 0;
        index := next;
        assert rest[..j + 1][..j] == rest[..j];
        n, j := n - 1, j + 1;
      }
      assert rest[..j] == rest;
    }

    method GrowInPlace(handle: int, last: int, need: nat)
      requires Valid() && handle in chains && last == chains[handle][|chains[handle]| - 1]
      requires 0 < need <= FreeFrom(mhandles[..], pages, last + 1)
      modifies this`chains, mhandles
      ensures Valid()
      ensures chains == old(chains)[handle := old(chains[handle]) + Block(last + 1, need)]
      ensures Resized(old(mhandles[..]), old(chains), mhandles[..], chains, handle, handle, old(|chains[handle]|) + need)
    {
      hide Shape, FreeFrom, Threaded, Resized, Block;
      ghost var h, live, c := mhandles[..], chains, chains[handle];
      ShapeBounds(h, pages, live);
      ChainPages(h, pages, live, handle);
      assert forall i :: last < i <= last + need ==> h[i] == 0;
      ThreadOn(last, need);
      GrowResult(h, mhandles[..], pages, live, handle, last, need, c + Block(last + 1, need));
      chains := chains[handle := c + Block(last + 1, need)];
    }

    method ThreadOn(last: nat, count: nat)
      requires last + count < mhandles.Length
      modifies mhandles
      ensures mhandles[..] == Threaded(old(mhandles[..]), last, count + 1)[last + count := -1]
    {
      var need, index := count, last;
      while need > 0
        invariant 0 <= need <= count && index == last + (count - need)
        invariant mhandles[..] == Threaded(old(mhandles[..]), last, count - need + 1)
      {
        mhandles[index] := index + 1;
        need, index := need - 1, index + 1;
      }
      mhandles[index] := -1;
    }

    /** Grows a block by pages from anywhere, linked behind its last page. */
    method Append(handle: int, last: int, need: nat) returns (ok: bool)
      requires Valid() && handle in chains && last == chains[handle][|chains[handle]| - 1] && need > 0
      modifies this`chains, mhandles
      ensures Valid()
      ensures ok <==> CanAllocate(old(mhandles[..]), pages, need, false)
      ensures !ok ==> mhandles[..] == old(mhandles[..]) && chains == old(chains)
      ensures ok ==> Resized(old(mhandles[..]), old(chains), mhandles[..], chains, handle, handle, old(|chains[handle]|) + need)
      ensures ok ==> chains[handle][..old(|chains[handle]|)] == old(chains[handle])
    {
      ghost var h, live, c := mhandles[..], chains, chains[handle];
      var rem := AllocatePages(need, false);
      if rem == 0 {
        return false;
      }
      ghost var h1, r := mhandles[..], chains[rem];
      mhandles[last] := rem;
      Appended(h, h1, pages, live, chains, handle, rem, need);
      chains := live[handle := c + r];
      return true;
    }

    /** Grows a block by moving it to a longer run. */
    method Move(handle: int, count: nat, oldPages: nat) returns (ok: bool, newHandle: int)
      requires Valid() && handle in chains && handle > 0 && 0 < oldPages == |chains[handle]| < count
      modifies this`chains, mhandles, ram
      ensures Valid()
      ensures ok <==> CanAllocate(old(mhandles[..]), pages, count, true)
      ensures !ok ==> newHandle == handle && mhandles[..] == old(mhandles[..]) && chains == old(chains) && ram[..] == old(ram[..])
      ensures ok ==> newHandle != handle && Resized(old(mhandles[..]), old(chains), mhandles[..], chains, handle, newHandle, count)
      ensures ok ==> Contiguous(chains[newHandle])
      ensures ok ==> PagesCopied(old(ram[..]), ram[..], handle, newHandle, oldPages)
      ensures ok && Contiguous(old(chains[handle])) ==> KeepsBytes(old(ram[..]), old(chains[handle]), ram[..], chains[newHandle])
    {
      hide Shape, KeepsBytes, CanAllocate, CopyForward, Linked;
      ghost var h, live, c, m := mhandles[..], chains, chains[handle], ram[..];
      ShapeBounds(h, pages, live);
      newHandle := AllocatePages(count, true);
      if newHandle == 0 {
        return false, handle;
      }
      ghost var h1, live1 := mhandles[..], chains;
      MoveInRange(h, pages, live, h1, live1, handle, newHandle, count);
      if Contiguous(c) {
        ChainPages(h, pages, live, handle);
        ChainPages(h1, pages, live1, newHandle);
        assert forall j :: 0 <= j < count ==> h[live1[newHandle][j]] == 0;
        MoveKeepsBytes(m, h, pages, c, live1[newHandle]);
      }
      BlockCopy(newHandle * 4096, handle * 4096, oldPages * 4096);
      ReleasePages(handle);
      Moved(h, live, h1, live1, mhandles[..], chains, handle, newHandle, count);
      return true, newHandle;
    }

    /** MEM_ReAllocatePages; the handle, passed by reference in the source, is the second result. */
    method ReAllocatePages(handle0: int, count: nat, sequence: bool) returns (ok: bool, handle: int)
      requires Valid() && (handle0 > 0 ==> handle0 in chains)
      modifies this`chains, mhandles, ram
      ensures Valid()
      // failure changes nothing
      ensures !ok ==> mhandles[..] == old(mhandles[..]) && chains == old(chains) && ram[..] == old(ram[..])
      ensures !ok ==> handle == if handle0 > 0 then handle0 else 0
      // no block yet
      ensures handle0 <= 0 && count == 0 ==> ok && handle == handle0 && mhandles[..] == old(mhandles[..]) && chains == old(chains)
      ensures handle0 <= 0 && count > 0 ==> (ok <==> CanAllocate(old(mhandles[..]), pages, count, sequence))
      ensures handle0 <= 0 && count > 0 && ok ==> Allocated(old(mhandles[..]), old(chains), mhandles[..], chains, handle, count)
      ensures handle0 <= 0 && count > 0 && ok && sequence ==> Contiguous(chains[handle])
      ensures handle0 <= 0 || count == 0 ==> ram[..] == old(ram[..])
      // release
      ensures handle0 > 0 && count == 0 ==> ok && handle == -1 && Released(old(mhandles[..]), old(chains), mhandles[..], chains, handle0)
      // shrink, grow in place, move, append
      ensures handle0 > 0 && count > 0 ==> (ok <==> CanResize(old(mhandles[..]), pages, old(chains[handle0]), count, sequence))
      ensures handle0 > 0 && count > 0 && ok ==> Resized(old(mhandles[..]), old(chains), mhandles[..], chains, handle0, handle, count)
      ensures handle0 > 0 && count > 0 && ok ==>
                (handle != handle0 <==> sequence && count > old(|chains[handle0]|) && !FitsInPlace(old(mhandles[..]), pages, old(chains[handle0]), count))
      ensures handle0 > 0 && count > 0 && ok && sequence && Contiguous(old(chains[handle0])) ==> Contiguous(chains[handle])
      ensures handle0 > 0 && count > 0 && ok && (handle == handle0 || Contiguous(old(chains[handle0]))) ==>
                KeepsBytes(old(ram[..]), old(chains[handle0]), ram[..], chains[handle])
      ensures handle0 > 0 && count > 0 && ok && handle != handle0 ==>
                PagesCopied(old(ram[..]), ram[..], handle0, handle, old(|chains[handle0]|))
    {
      hide Shape, Linked, KeepsBytes, CanAllocate, Allocated, Released, FreeFrom;
      ShapeBounds(mhandles[..], pages, chains);
      handle := handle0;
      if handle <= 0 {
        if count == 0 {
          return true, handle;
        }
        handle := AllocatePages(count, sequence);
        HandleIsPage(old(mhandles[..]), old(chains), mhandles[..], chains, handle, count);
        return handle > 0, handle;
      }
      if count == 0 {
        ReleasePages(handle);
        return true, -1;
      }
      ghost var m, c, h := ram[..], chains[handle], mhandles[..];
      KeepsInPlace(m, h, pages, chains, handle);
      var last, oldPages := Walk(handle);
      if oldPages == count {
        SameSize(h, chains, handle, count);
        return true, handle;
      }
      if oldPages > count {
        Shrink(handle, count, oldPages);
        return true, handle;
      }
      var need := count - oldPages;
      if sequence {
        var free := CountFrom(last + 1);
        if free >= need {
          GrowInPlace(handle, last, need);
          return true, handle;
        } else {
          ok, handle := Move(handle, count, oldPages);
        }
      } else {
        ok := Append(handle, last, need);
      }
    }

    /** Follows a chain to its end. */
    method Walk(handle: int) returns (last: int, count: nat)
      requires Valid() && handle in chains
      ensures count == |chains[handle]| && count > 0 && last == chains[handle][count - 1] > 0
    {
      hide Shape;
      ghost var c := chains[handle];
      ShapeBounds(mhandles[..], pages, chains);
      count, last := 0, 0;
      var index := handle;
      while index > 0
        invariant count <= |c|
        invariant index == if count < |c| then c[count] else -1
        invariant count > 0 ==> last == c[count - 1]
        decreases |c| - count
      {
        count := count + 1;
        last := index;
        index := mhandles[index];
      }
    }

    /** Counts the free pages that follow one another from page `start` on. */
    method CountFrom(start: nat) returns (free: nat)
      requires pages < mhandles.Length
      ensures free == FreeFrom(mhandles[..], pages, start)
    {
      var index := start;
      free := 0;
      while index < pages && mhandles[index] == 0
        invariant free + FreeFrom(mhandles[..], pages, index) == FreeFrom(mhandles[..], pages, start)
        decreases pages - index
      {
        index, free := index + 1, free + 1;
      }
    }
  }
}
