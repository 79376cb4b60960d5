/**
 The page-handle array as a heap of chains.  Entry 0 means free, -1 ends a chain, any other entry is
 the next page of the chain.  `pages` is the number of pages; the array carries one more, non-zero
 entry behind the last page, where the scattered allocator's inner loop stops.
 */
module PageHeap {
  const XMS_START: nat := 0x110
  /** The start value of the best-fit search; memory must have fewer pages than this. */
  const NO_BEST: nat := 0xfffffff

  /** Live handles with the pages of their chains, first page first. */
  type Chains = map<int, seq<int>>

  predicate IsPage(pages: nat, i: int) {
    XMS_START <= i < pages
  }

  predicate At(chains: Chains, k: int, j: int, i: int) {
    k in chains && 0 <= j < |chains[k]| && chains[k][j] == i
  }

  /** `c` is threaded through the array from its first page to the end mark. */
  predicate Linked(h: seq<int>, pages: nat, c: seq<int>) {
    && |c| > 0 && pages < |h|
    && (forall j :: 0 <= j < |c| ==> IsPage(pages, c[j]))
    && (forall j :: 0 <= j < |c| - 1 ==> h[c[j]] == c[j + 1])
    && h[c[|c| - 1]] == -1
  }

  predicate NoRepeats(c: seq<int>) {
    forall i, j :: 0 <= i < j < |c| ==> c[i] != c[j]
  }

  /** The used pages are exactly the pages of the chains, each in one place of one chain. */
  ghost predicate Shape(h: seq<int>, pages: nat, chains: Chains) {
    && |h| == pages + 1 && h[pages] != 0 && XMS_START <= pages < NO_BEST
    && (forall k :: k in chains ==> Linked(h, pages, chains[k]) && chains[k][0] == k)
    && (forall k, j, k', j', i :: At(chains, k, j, i) && At(chains, k', j', i) ==> k == k' && j == j')
    && (forall i :: IsPage(pages, i) && h[i] != 0 ==> exists k, j :: At(chains, k, j, i))
  }

  /** `h1` is `h` outside the pages of `c`. */
  predicate SameOutside(h: seq<int>, h1: seq<int>, c: seq<int>) {
    |h1| == |h| && forall i :: 0 <= i < |h| && i !in c ==> h1[i] == h[i]
  }

  lemma {:induction false} ChainPagesUsed(h: seq<int>, pages: nat, chains: Chains, k: int, j: int)
    requires Shape(h, pages, chains) && k in chains && 0 <= j < |chains[k]|
    ensures IsPage(pages, chains[k][j]) && h[chains[k][j]] != 0
  {
    assert Linked(h, pages, chains[k]);
    if j < |chains[k]| - 1 {
      assert IsPage(pages, chains[k][j + 1]);
    }
  }

  lemma ChainNoRepeats(h: seq<int>, pages: nat, chains: Chains, k: int)
    requires Shape(h, pages, chains) && k in chains
    ensures NoRepeats(chains[k])
  {
    var c := chains[k];
    forall i, j | 0 <= i < j < |c| ensures c[i] != c[j] {
      assert At(chains, k, i, c[i]) && At(chains, k, j, c[j]);
    }
  }

  /** Two live chains share no page. */
  lemma ChainsDisjoint(h: seq<int>, pages: nat, chains: Chains, k: int, l: int)
    requires Shape(h, pages, chains) && k in chains && l in chains && k != l
    ensures forall i :: i in chains[k] ==> i !in chains[l]
  {
    forall i | i in chains[k] ensures i !in chains[l] {
      var j :| 0 <= j < |chains[k]| && chains[k][j] == i;
      assert At(chains, k, j, i);
      if i in chains[l] {
        var j' :| 0 <= j' < |chains[l]| && chains[l][j'] == i;
        assert At(chains, l, j', i);
      }
    }
  }

  /** Threading a new chain through free pages adds it to the heap and leaves the other chains alone. */
  lemma AddChain(h: seq<int>, h1: seq<int>, pages: nat, chains: Chains, c: seq<int>)
    requires Shape(h, pages, chains) && SameOutside(h, h1, c)
    requires Linked(h1, pages, c) && NoRepeats(c)
    requires forall j :: 0 <= j < |c| ==> IsPage(pages, c[j]) && h[c[j]] == 0
    ensures c[0] !in chains && Shape(h1, pages, chains[c[0] := c])
  {
    var chains1 := chains[c[0] := c];
    FreshPagesUnowned(h, pages, chains, c);
    forall k | k in chains1 ensures Linked(h1, pages, chains1[k]) && chains1[k][0] == k {
      if k != c[0] {
        assert Linked(h, pages, chains[k]);
        forall j | 0 <= j < |chains[k]| ensures h1[chains[k][j]] == h[chains[k][j]] {
          assert At(chains, k, j, chains[k][j]);
        }
      }
    }
    forall k, j, k', j', i | At(chains1, k, j, i) && At(chains1, k', j', i) ensures k == k' && j == j' {
      assert k != c[0] ==> At(chains, k, j, i);
      assert k' != c[0] ==> At(chains, k', j', i);
    }
    forall i | IsPage(pages, i) && h1[i] != 0 ensures exists k, j :: At(chains1, k, j, i) {
      if i in c {
        var j :| 0 <= j < |c| && c[j] == i;
        assert At(chains1, c[0], j, i);
      } else {
        var k, j :| At(chains, k, j, i);
        assert At(chains1, k, j, i);
      }
    }
  }

  lemma FreshPagesUnowned(h: seq<int>, pages: nat, chains: Chains, c: seq<int>)
    requires Shape(h, pages, chains) && |c| > 0
    requires forall j :: 0 <= j < |c| ==> IsPage(pages, c[j]) && h[c[j]] == 0
    ensures forall k, j, i :: At(chains, k, j, i) ==> i !in c
    ensures c[0] !in chains
  {
    forall k, j, i | At(chains, k, j, i) ensures i !in c {
      ChainPagesUsed(h, pages, chains, k, j);
    }
    if c[0] in chains {
      assert At(chains, c[0], 0, c[0]);
    }
  }

  /** Clearing every page of a chain removes it from the heap and leaves the other chains alone. */
  lemma RemoveChain(h: seq<int>, h1: seq<int>, pages: nat, chains: Chains, k: int)
    requires Shape(h, pages, chains) && k in chains && SameOutside(h, h1, chains[k])
    requires forall j :: 0 <= j < |chains[k]| ==> h1[chains[k][j]] == 0
    ensures Shape(h1, pages, chains - {k})
  {
    var c, chains1 := chains[k], chains - {k};
    forall l, j | l in chains1 && 0 <= j < |chains1[l]|
      ensures h1[chains1[l][j]] == h[chains1[l][j]]
    {
      ChainsDisjoint(h, pages, chains, l, k);
      assert Linked(h, pages, chains[l]);
    }
    forall l | l in chains1 ensures Linked(h1, pages, chains1[l]) && chains1[l][0] == l {
      assert Linked(h, pages, chains[l]);
    }
    forall i, j, l, j', l' | At(chains1, l, j, i) && At(chains1, l', j', i) ensures l == l' && j == j' {
      assert At(chains, l, j, i) && At(chains, l', j', i);
    }
    forall i | IsPage(pages, i) && h1[i] != 0 ensures exists l, j :: At(chains1, l, j, i) {
      assert i !in c;
      var l, j :| At(chains, l, j, i);
      assert At(chains1, l, j, i);
    }
    assert pages !in c by {
      assert Linked(h, pages, c);
    }
  }

  /** The array with the pages of `c` cleared. */
  function Cleared(h: seq<int>, c: seq<int>): (r: seq<int>)
    requires forall j :: 0 <= j < |c| ==> 0 <= c[j] < |h|
    ensures SameOutside(h, r, c)
    ensures forall j :: 0 <= j < |c| ==> r[c[j]] == 0
  {
    if c == [] then h else Cleared(h, c[..|c| - 1])[c[|c| - 1] := 0]
  }

  /** Rethreading one chain, over its own pages and free ones, keeps the heap in shape. */
  lemma ReplaceChain(h: seq<int>, h1: seq<int>, pages: nat, chains: Chains, k: int, c: seq<int>)
    requires Shape(h, pages, chains) && k in chains && |h1| == |h|
    requires Linked(h1, pages, c) && NoRepeats(c) && c[0] == k
    requires forall i :: i in c ==> i in chains[k] || h[i] == 0
    requires forall i :: 0 <= i < |h| && i !in c ==> h1[i] == if i in chains[k] then 0 else h[i]
    ensures Shape(h1, pages, chains[k := c])
  {
    assert Linked(h, pages, chains[k]);
    var h0 := Cleared(h, chains[k]);
    RemoveChain(h, h0, pages, chains, k);
    ClearedThenThreaded(h, h0, h1, pages, chains[k], c);
    AddAgain(h0, h1, pages, chains, k, c);
  }

  lemma AddAgain(h0: seq<int>, h1: seq<int>, pages: nat, chains: Chains, k: int, c: seq<int>)
    requires Shape(h0, pages, chains - {k}) && SameOutside(h0, h1, c)
    requires Linked(h1, pages, c) && NoRepeats(c) && c[0] == k
    requires forall j :: 0 <= j < |c| ==> IsPage(pages, c[j]) && h0[c[j]] == 0
    ensures Shape(h1, pages, chains[k := c])
  {
    AddChain(h0, h1, pages, chains - {k}, c);
    assert (chains - {k})[k := c] == chains[k := c];
  }

  lemma ClearedThenThreaded(h: seq<int>, h0: seq<int>, h1: seq<int>, pages: nat, c0: seq<int>, c: seq<int>)
    requires SameOutside(h, h0, c0) && Linked(h, pages, c0) && (forall j :: 0 <= j < |c0| ==> h0[c0[j]] == 0)
    requires Linked(h1, pages, c) && |h1| == |h|
    requires forall i :: i in c ==> i in c0 || h[i] == 0
    requires forall i :: 0 <= i < |h| && i !in c ==> h1[i] == if i in c0 then 0 else h[i]
    ensures SameOutside(h0, h1, c)
    ensures forall j :: 0 <= j < |c| ==> IsPage(pages, c[j]) && h0[c[j]] == 0
  {
    forall i | 0 <= i < |h| && i !in c ensures h1[i] == h0[i] {
      if i in c0 {
        var j :| 0 <= j < |c0| && c0[j] == i;
      }
    }
    forall j | 0 <= j < |c| ensures IsPage(pages, c[j]) && h0[c[j]] == 0 {
      assert c[j] in c;
      if c[j] in c0 {
        var j' :| 0 <= j' < |c0| && c0[j'] == c[j];
      }
    }
  }

  // ----- counting

  function CountFree(h: seq<int>, hi: nat): (n: nat)
    requires hi <= |h|
    ensures n <= if hi < XMS_START then 0 else hi - XMS_START
  {
    if hi <= XMS_START then 0
    else CountFree(h, hi - 1) + if h[hi - 1] == 0 then 1 else 0
  }

  lemma {:induction false} CountAfterWrite(h: seq<int>, hi: nat, i: nat, v: int)
    requires XMS_START <= i < |h| && hi <= |h|
    ensures CountFree(h[i := v], hi) == CountFree(h, hi)
            + (if i < hi then (if v == 0 then 1 else 0) - (if h[i] == 0 then 1 else 0) else 0)
  {
    if hi > XMS_START {
      CountAfterWrite(h, hi - 1, i, v);
    }
  }

  lemma {:induction false} CountSome(h: seq<int>, hi: nat)
    requires hi <= |h| && CountFree(h, hi) > 0
    ensures exists i :: XMS_START <= i < hi && h[i] == 0
  {
    if h[hi - 1] != 0 {
      CountSome(h, hi - 1);
    }
  }

  lemma {:induction false} CountSame(a: seq<int>, b: seq<int>, hi: nat)
    requires hi <= |a| && hi <= |b| && forall i :: XMS_START <= i < hi ==> a[i] == b[i]
    ensures CountFree(a, hi) == CountFree(b, hi)
  {
    if hi > XMS_START {
      CountSame(a, b, hi - 1);
    }
  }

  lemma {:induction false} CountCleared(h: seq<int>, h1: seq<int>, pages: nat, c: seq<int>)
    requires pages < |h| && SameOutside(h, h1, c) && NoRepeats(c)
    requires forall j :: 0 <= j < |c| ==> IsPage(pages, c[j]) && h[c[j]] != 0 && h1[c[j]] == 0
    ensures CountFree(h1, pages) == CountFree(h, pages) + |c|
    decreases |c|
  {
    if c == [] {
      CountSame(h, h1, pages);
    } else {
      var n := |c| - 1;
      var h2 := h1[c[n] := h[c[n]]];
      assert forall i :: i in c && i !in c[..n] ==> i == c[n];
      CountCleared(h, h2, pages, c[..n]);
      CountAfterWrite(h1, pages, c[n], h[c[n]]);
    }
  }

  ghost function Pick(chains: Chains): (k: int)
    requires exists k :: k in chains
    ensures k in chains
  {
    var k :| k in chains;
    k
  }

  ghost function TotalPages(chains: Chains): nat {
    if exists k :: k in chains then
      var k := Pick(chains);
      |chains[k]| + TotalPages(chains - {k})
    else 0
  }

  /** Free pages and the pages of the live handles add up to all the pages there are. */
  lemma {:induction false} Conservation(h: seq<int>, pages: nat, chains: Chains)
    requires Shape(h, pages, chains)
    ensures CountFree(h, pages) + TotalPages(chains) == pages - XMS_START
    decreases |chains|
  {
    if exists k :: k in chains {
      hide NoRepeats;
      var k := Pick(chains);
      assert Linked(h, pages, chains[k]);
      var h1 := Cleared(h, chains[k]);
      RemoveChain(h, h1, pages, chains, k);
      Conservation(h1, pages, chains - {k});
      ChainNoRepeats(h, pages, chains, k);
      forall j | 0 <= j < |chains[k]| ensures h[chains[k][j]] != 0 {
        ChainPagesUsed(h, pages, chains, k, j);
      }
      CountCleared(h, h1, pages, chains[k]);
    } else {
      NothingLive(h, pages, chains);
    }
  }

  lemma NothingLive(h: seq<int>, pages: nat, chains: Chains)
    requires Shape(h, pages, chains) && forall k :: k !in chains
    ensures CountFree(h, pages) == pages - XMS_START
  {
    forall i | IsPage(pages, i) ensures h[i] == 0 {
      assert forall k, j :: !At(chains, k, j, i);
    }
    CountAllFree(h, pages);
  }

  lemma {:induction false} CountAllFree(h: seq<int>, hi: nat)
    requires XMS_START <= hi <= |h| && forall i :: XMS_START <= i < hi ==> h[i] == 0
    ensures CountFree(h, hi) == hi - XMS_START
  {
    if hi > XMS_START {
      CountAllFree(h, hi - 1);
    }
  }

  // ----- runs of free pages

  /** [a, b) is a maximal run of free pages. */
  predicate IsRun(h: seq<int>, pages: nat, a: int, b: int) {
    && pages <= |h| && XMS_START <= a < b <= pages
    && (forall i :: a <= i < b ==> h[i] == 0)
    && (a == XMS_START || h[a - 1] != 0)
    && (b == pages || h[b] != 0)
  }

  /** A scan upwards that stands at `b` and has last seen a used page just below `a`. */
  predicate ScanPoint(h: seq<int>, pages: nat, a: int, b: int) {
    && pages < |h| && XMS_START <= a <= b <= pages
    && (forall i :: a <= i < b ==> h[i] == 0)
    && (a == XMS_START || h[a - 1] != 0)
  }

  lemma ScanStart(h: seq<int>, pages: nat)
    requires XMS_START <= pages < |h|
    ensures ScanPoint(h, pages, XMS_START, XMS_START)
  {
  }

  /** Such a scan knows the only run that can end where it stands. */
  lemma EndOfRun(h: seq<int>, pages: nat, a: int, b: int)
    requires ScanPoint(h, pages, a, b)
    ensures forall c :: IsRun(h, pages, c, b) ==> c == a
    ensures IsRun(h, pages, a, b) <==> a < b && (b == pages || h[b] != 0)
  {
  }

  lemma ScanNext(h: seq<int>, pages: nat, a: int, b: int)
    requires ScanPoint(h, pages, a, b) && b < pages
    ensures if h[b] == 0 then ScanPoint(h, pages, a, b + 1) else ScanPoint(h, pages, b + 1, b + 1)
  {
  }

  /** `r` is the length of a longest run, 0 when no page is free. */
  ghost predicate IsLargest(h: seq<int>, pages: nat, r: nat) {
    && (forall a, b :: IsRun(h, pages, a, b) ==> b - a <= r)
    && (r > 0 ==> exists a, b :: IsRun(h, pages, a, b) && b - a == r)
  }

  /** `r` starts a shortest run among those of at least `size` pages; 0 says that there is none. */
  ghost predicate IsBestFit(h: seq<int>, pages: nat, size: nat, r: nat) {
    if r == 0 then forall a, b :: IsRun(h, pages, a, b) ==> b - a < size
    else exists e :: IsRun(h, pages, r, e) && IsShortestFit(h, pages, size, e - r)
  }

  ghost predicate IsShortestFit(h: seq<int>, pages: nat, size: nat, len: int) {
    size <= len && forall a, b :: IsRun(h, pages, a, b) && size <= b - a ==> len <= b - a
  }

  /** A free page lies in a run. */
  lemma RunAround(h: seq<int>, pages: nat, i: nat) returns (a: nat, b: nat)
    requires pages <= |h| && IsPage(pages, i) && h[i] == 0
    ensures a <= i < b && IsRun(h, pages, a, b)
  {
    a, b := i, i + 1;
    while a > XMS_START && h[a - 1] == 0
      invariant XMS_START <= a <= i
      invariant forall j :: a <= j <= i ==> h[j] == 0
    {
      a := a - 1;
    }
    while b < pages && h[b] == 0
      invariant i < b <= pages
      invariant forall j :: a <= j < b ==> h[j] == 0
    {
      b := b + 1;
    }
  }

  /** The size query and the search agree: a fit exists exactly when the largest run is large enough. */
  lemma FitExistsIffLargestSuffices(h: seq<int>, pages: nat, size: nat, largest: nat, r: nat)
    requires size > 0 && IsLargest(h, pages, largest) && IsBestFit(h, pages, size, r)
    ensures r != 0 <==> largest >= size
  {
    if r != 0 {
      var e :| IsRun(h, pages, r, e) && IsShortestFit(h, pages, size, e - r);
    } else if largest > 0 {
      var a, b :| IsRun(h, pages, a, b) && b - a == largest;
    }
  }

  /** While a page is free, the search for one page finds one. */
  lemma FreePageIsFound(h: seq<int>, pages: nat, r: nat)
    requires pages <= |h| && CountFree(h, pages) > 0 && IsBestFit(h, pages, 1, r)
    ensures r != 0 && IsPage(pages, r) && h[r] == 0
  {
    CountSome(h, pages);
    var i: nat :| XMS_START <= i < pages && h[i] == 0;
    var a, b := RunAround(h, pages, i);
  }

  /** The pages first, first + 1, ..., `n` of them. */
  function Block(first: int, n: nat): (c: seq<int>)
    ensures |c| == n && forall i :: 0 <= i < n ==> c[i] == first + i
  {
    if n == 0 then [] else Block(first, n - 1) + [first + n - 1]
  }

  predicate Contiguous(c: seq<int>) {
    forall i :: 0 <= i < |c| ==> c[i] == c[0] + i
  }

  /** How many free pages follow one another from page `i` on. */
  function FreeFrom(h: seq<int>, pages: nat, i: nat): (n: nat)
    requires pages <= |h|
    ensures n > 0 ==> i + n <= pages
    ensures forall j :: i <= j < i + n ==> h[j] == 0
    decreases pages - i
  {
    if i < pages && h[i] == 0 then
      var n := FreeFrom(h, pages, i + 1);
      assert forall j :: i + 1 <= j < i + 1 + n ==> h[j] == 0;
      1 + n
    else 0
  }
}
