/**
 The software TLB never lets a cached link bypass protection, and every access has the outcome that a
 fresh walk of the page tables would give it, in every reachable state.
 */
module TlbProofs {
  import opened SoftTlb
  import opened Words

  // ----- accessed and dirty bits

  /** Equal but for the accessed and dirty bits. */
  predicate Similar(x: PageEntry, y: PageEntry) {
    x.p == y.p && x.wr == y.wr && x.us == y.us && x.base == y.base && x.rest == y.rest
  }

  predicate SameTables(m: seq<PageEntry>, n: seq<PageEntry>) {
    |m| == |n| && forall i :: 0 <= i < |m| ==> Similar(m[i], n[i])
  }

  predicate SimilarWalks(x: WalkResult, y: WalkResult) {
    if x.NotPresent? then y.NotPresent?
    else y.Mapped? && Similar(x.pde, y.pde) && Similar(x.pte, y.pte)
  }

  lemma WalkIgnoresMarks(m: seq<PageEntry>, n: seq<PageEntry>, basePage: nat, lin: nat)
    requires MemOk(m) && SameTables(m, n) && basePage < TLB_SIZE && lin < TLB_SIZE
    ensures MemOk(n) && SimilarWalks(Walk(m, basePage, lin), Walk(n, basePage, lin))
  {
    assert forall i :: 0 <= i < |n| ==> Similar(m[i], n[i]);
    var i := PdeIndex(basePage, lin);
    assert Similar(m[i], n[i]);
    var j := PteIndex(m[i], lin);
    assert Similar(m[j], n[j]);
  }

  /** The write-back of accessed and dirty bits changes no translation, even where the tables overlap. */
  lemma MarkUsedKeepsTables(s: Paging, lin: nat, dirty: bool)
    requires Ready(s) && lin < TLB_SIZE && Walk(s.mem, s.basePage, lin).Mapped?
    ensures var w := Walk(s.mem, s.basePage, lin);
            var s1 := MarkUsed(s, lin, w.pde, w.pte, dirty);
            SameTables(s.mem, s1.mem) && s1 == s.(mem := s1.mem)
  {
  }

  /** What LinkAllowed says depends on the tables only up to accessed and dirty bits. */
  lemma AllowedIgnoresMarks(c: Config, s: Paging, mem: seq<PageEntry>, lin: nat)
    requires Ready(s) && SameTables(s.mem, mem) && lin < TLB_SIZE
    ensures Ready(s.(mem := mem)) && (LinkAllowed(c, s, lin) <==> LinkAllowed(c, s.(mem := mem), lin))
  {
    WalkIgnoresMarks(s.mem, mem, s.basePage, lin);
  }

  lemma MarksKeepCoherent(c: Config, s: Paging, mem: seq<PageEntry>)
    requires Coherent(c, s) && SameTables(s.mem, mem)
    ensures Coherent(c, s.(mem := mem))
  {
    hide LinkAllowed, Walk;
    forall lin | 0 <= lin < TLB_SIZE
      ensures Ready(s.(mem := mem))
      ensures Blank(s.tlb[lin]) || (lin in s.links && LinkAllowed(c, s.(mem := mem), lin))
    {
      AllowedIgnoresMarks(c, s, mem, lin);
    }
  }

  // ----- flushing and linking

  /** The log reaches every entry that is not blank, so a flush blanks the whole table. */
  lemma FlushBlanksAll(c: Config, s: Paging)
    requires Coherent(c, s)
    ensures forall lin :: 0 <= lin < TLB_SIZE ==> Blank(ClearTlb(s).tlb[lin])
  {
    hide LinkAllowed;
  }

  predicate AllBlank(s: Paging) {
    |s.tlb| == TLB_SIZE && forall lin :: 0 <= lin < TLB_SIZE ==> Blank(s.tlb[lin])
  }

  lemma BlankIsCoherent(c: Config, s: Paging)
    requires Ready(s) && AllBlank(s)
    ensures Coherent(c, s)
  {
    hide LinkAllowed;
  }

  /** Coherent but for page `lin`, whose link is the last one logged. */
  predicate Provisional(c: Config, s: Paging, lin: nat) {
    && Ready(s) && lin < TLB_SIZE
    && s.links != [] && s.links[|s.links| - 1] == lin
    && forall p :: 0 <= p < TLB_SIZE && p != lin ==> Blank(s.tlb[p]) || (p in s.links && LinkAllowed(c, s, p))
  }

  lemma AllowedDependsOnOwnEntry(c: Config, s: Paging, s1: Paging, p: nat)
    requires Ready(s) && Ready(s1) && p < TLB_SIZE && s1.tlb[p] == s.tlb[p]
    requires s1.enabled == s.enabled && s1.basePage == s.basePage && s1.firstmb == s.firstmb && s1.mem == s.mem
    ensures LinkAllowed(c, s1, p) == LinkAllowed(c, s, p)
  {
  }

  lemma StoreLinkProvisional(c: Config, s: Paging, lin: nat, phys: nat, e: TlbEntry)
    requires Coherent(c, s) && lin < TLB_SIZE && phys < TLB_SIZE
    ensures var s1 := StoreLink(s, lin, phys, e);
            && Provisional(c, s1, lin) && s1.tlb[lin] == e
            && s1 == s.(tlb := s1.tlb, links := s1.links)
  {
    hide LinkAllowed, BlankAll;
    var s1 := StoreLink(s, lin, phys, e);
    FlushBlanksAll(c, s);
    assert s1.links[|s1.links| - 1] == lin;
    forall p | 0 <= p < TLB_SIZE && p != lin
      ensures Blank(s1.tlb[p]) || (p in s1.links && LinkAllowed(c, s1, p))
    {
      if !Blank(s1.tlb[p]) {
        assert p in s.links && s1.tlb[p] == s.tlb[p];
        AllowedDependsOnOwnEntry(c, s, s1, p);
      }
    }
  }

  /** A provisional link that is allowed stays; otherwise it is to be taken back. */
  lemma ProvisionalSettles(c: Config, s: Paging, lin: nat)
    requires Provisional(c, s, lin) && LinkAllowed(c, s, lin)
    ensures Coherent(c, s)
  {
    hide LinkAllowed;
  }

  lemma ProvisionalRevoked(c: Config, s: Paging, lin: nat)
    requires Provisional(c, s, lin)
    ensures Coherent(c, Unlink(s.(links := s.links[..|s.links| - 1]), lin))
    ensures UpdateLink(c, s, 1, lin) == Unlink(s.(links := s.links[..|s.links| - 1]), lin)
  {
    hide LinkAllowed;
    var n := |s.links| - 1;
    var s1 := Unlink(s.(links := s.links[..n]), lin);
    forall p | 0 <= p < TLB_SIZE ensures Blank(s1.tlb[p]) || (p in s1.links && LinkAllowed(c, s1, p)) {
      if p != lin && !Blank(s.tlb[p]) {
        assert p in s.links;
        var i :| 0 <= i < |s.links| && s.links[i] == p;
        assert s1.links[i] == p;
        AllowedDependsOnOwnEntry(c, s, s1, p);
      }
    }
  }

  lemma LinkSettles(c: Config, s: Paging, lin: nat, phys: nat, e: TlbEntry)
    requires Coherent(c, s) && lin < TLB_SIZE && phys < TLB_SIZE
    requires LinkAllowed(c, s.(tlb := s.tlb[lin := e]), lin)
    ensures Coherent(c, StoreLink(s, lin, phys, e)) && StoreLink(s, lin, phys, e).tlb[lin] == e
    ensures !s.halted ==> !StoreLink(s, lin, phys, e).halted
  {
    hide LinkAllowed, StoreLink, Coherent;
    CoherentIsReady(c, s);
    var s1 := StoreLink(s, lin, phys, e);
    StoreLinkProvisional(c, s, lin, phys, e);
    AllowedDependsOnOwnEntry(c, s.(tlb := s.tlb[lin := e]), s1, lin);
    ProvisionalSettles(c, s1, lin);
  }

  lemma CoherentIsReady(c: Config, s: Paging)
    requires Coherent(c, s)
    ensures Ready(s)
  {
  }

  // ----- one access

  /** What an access may change: links, marks, and whether the run goes on. */
  predicate OnlyCacheChanged(s: Paging, s1: Paging) {
    && s1.enabled == s.enabled && s1.cr3 == s.cr3 && s1.basePage == s.basePage && s1.firstmb == s.firstmb
    && SameTables(s.mem, s1.mem)
  }

  /** The page that `lin` is linked to, when a walk for the given access succeeds. */
  predicate Denied(c: Config, pde: PageEntry, pte: PageEntry, writing: bool, pl: nat) {
    pl == 3 && (UserForbidden(c.arch, pde, pte) || (WriteProtected(pde, pte) && writing))
  }

  lemma PrivCheckMeaning(c: Config, pde: PageEntry, pte: PageEntry, writing: bool, pl: nat)
    requires Catches(c.arch)
    ensures var r := PrivCheck(c.arch, pde, pte, writing, pl);
            && (r == 3 <==> Denied(c, pde, pte, writing, pl))
            && (r == 0 <==> !UserForbidden(c.arch, pde, pte) && !WriteProtected(pde, pte))
            && (r == 2 ==> !UserForbidden(c.arch, pde, pte) && WriteProtected(pde, pte) && (writing ==> pl != 3))
            && (r == 1 ==> UserForbidden(c.arch, pde, pte) && pl != 3)
            && r <= 3
  {
  }

  /** A link made without paging, by any of the handlers. */
  lemma UnpagedLink(c: Config, s: Paging, lin: nat)
    requires Coherent(c, s) && !s.enabled && !s.halted && lin < TLB_SIZE
    ensures var s1 := LinkPage(c, s, lin, UnpagedPage(s, lin));
            if UnpagedPage(s, lin) < TLB_SIZE then
              && Coherent(c, s1) && !s1.halted && OnlyCacheChanged(s, s1)
              && s1.tlb[lin] == FullLink(c, lin, UnpagedPage(s, lin))
            else s1.halted
  {
    hide Coherent, BlankAll;
    CoherentIsReady(c, s);
    var phys := UnpagedPage(s, lin);
    if phys < TLB_SIZE {
      LinkSettles(c, s, lin, phys, FullLink(c, lin, phys));
      StoreLinkProvisional(c, s, lin, phys, FullLink(c, lin, phys));
    }
  }

  /** A link made by the walk, one for each way PrivCheck asks for. */
  lemma WalkedLink(c: Config, s: Paging, lin: nat, readOnly: bool)
    requires Coherent(c, s) && s.enabled && !s.halted && lin < TLB_SIZE
    requires Walk(s.mem, s.basePage, lin).Mapped?
    requires var w := Walk(s.mem, s.basePage, lin);
             !UserForbidden(c.arch, w.pde, w.pte) && WriteProtected(w.pde, w.pte) == readOnly
    ensures var phys := Walk(s.mem, s.basePage, lin).pte.base;
            var e := if readOnly then ReadOnlyLink(c, lin, phys) else FullLink(c, lin, phys);
            var s1 := StoreLink(s, lin, phys, e);
            Coherent(c, s1) && !s1.halted && OnlyCacheChanged(s, s1) && s1.tlb[lin] == e
  {
    hide Coherent, BlankAll, FullLink, ReadOnlyLink;
    CoherentIsReady(c, s);
    var phys := Walk(s.mem, s.basePage, lin).pte.base;
    var e := if readOnly then ReadOnlyLink(c, lin, phys) else FullLink(c, lin, phys);
    LinkSettles(c, s, lin, phys, e);
    StoreLinkProvisional(c, s, lin, phys, e);
  }

  /** A link made for one privileged access and taken back, or turned read-only, right after it. */
  lemma TransientLink(c: Config, s: Paging, lin: nat, relink: nat)
    requires Coherent(c, s) && s.enabled && !s.halted && lin < TLB_SIZE && relink > 0
    requires Walk(s.mem, s.basePage, lin).Mapped?
    requires var w := Walk(s.mem, s.basePage, lin);
             relink > 1 ==> relink == w.pte.base && !UserForbidden(c.arch, w.pde, w.pte) && WriteProtected(w.pde, w.pte)
    ensures var phys := Walk(s.mem, s.basePage, lin).pte.base;
            var s1 := LinkPage(c, s, lin, phys);
            var s2 := UpdateLink(c, s1, relink, lin);
            && !s1.halted && s1.tlb[lin] == FullLink(c, lin, phys)
            && Coherent(c, s2) && !s2.halted && OnlyCacheChanged(s, s2)
  {
    hide Coherent, BlankAll, FullLink, ReadOnlyLink, LinkAllowed, Walk;
    CoherentIsReady(c, s);
    var phys := Walk(s.mem, s.basePage, lin).pte.base;
    var s1 := LinkPage(c, s, lin, phys);
    StoreLinkProvisional(c, s, lin, phys, FullLink(c, lin, phys));
    var s0 := Unlink(s1.(links := s1.links[..|s1.links| - 1]), lin);
    ProvisionalRevoked(c, s1, lin);
    if relink > 1 {
      WalkedLink(c, s0, lin, true);
    }
  }

  /** The initial handler: the state stays coherent and the outcome is the one the walk gives. */
  lemma InitAccessCorrect(c: Config, s: Paging, address: nat, writing: bool, pl: nat)
    requires Coherent(c, s) && Catches(c.arch) && !s.halted && address < 0x1_0000_0000
    ensures var (s1, o) := InitAccess(c, s, address, writing, pl);
            && Raised(Reference(c, s, address, writing, pl)) == o
            && (s1.halted <==> o == Exit)
            && (!s1.halted ==> Coherent(c, s1) && OnlyCacheChanged(s, s1))
  {
    hide Coherent, BlankAll, StoreLink, LinkAllowed, UpdateLink, MarkUsed, PrivCheck, Walk;
    CoherentIsReady(c, s);
    var lin := address / 4096;
    if !s.enabled {
      UnpagedLink(c, s, lin);
      if UnpagedPage(s, lin) < TLB_SIZE {
        CoherentIsReady(c, LinkPage(c, s, lin, UnpagedPage(s, lin)));
        UpdateLinkNothing(c, LinkPage(c, s, lin, UnpagedPage(s, lin)), lin);
      }
    } else {
      match Walk(s.mem, s.basePage, lin)
      case NotPresent =>
      case Mapped(pde, pte) =>
        var priv := PrivCheck(c.arch, pde, pte, writing, pl);
        PrivCheckMeaning(c, pde, pte, writing, pl);
        if priv != 3 {
          var s1 := MarkUsed(s, lin, pde, pte, writing || priv == 0);
          MarkUsedKeepsTables(s, lin, writing || priv == 0);
          MarksKeepCoherent(c, s, s1.mem);
          WalkIgnoresMarks(s.mem, s1.mem, s.basePage, lin);
          SettledWalk(c, s, s1, lin, writing, pl, priv);
        }
    }
  }

  lemma UpdateLinkNothing(c: Config, s: Paging, lin: nat)
    requires LogOk(s) && lin < TLB_SIZE
    ensures UpdateLink(c, s, 0, lin) == s
  {
  }

  /** The linking half of InitPage, for the page the walk found, followed by the relinking. */
  lemma SettledWalk(c: Config, s: Paging, s1: Paging, lin: nat, writing: bool, pl: nat, priv: nat)
    requires Coherent(c, s1) && s1.enabled && !s1.halted && lin < TLB_SIZE && OnlyCacheChanged(s, s1) && priv < 3
    requires Walk(s1.mem, s1.basePage, lin).Mapped?
    requires var w := Walk(s1.mem, s1.basePage, lin);
             && (priv == 0 <==> !UserForbidden(c.arch, w.pde, w.pte) && !WriteProtected(w.pde, w.pte))
             && (priv == 2 ==> !UserForbidden(c.arch, w.pde, w.pte) && WriteProtected(w.pde, w.pte))
    ensures var phys := Walk(s1.mem, s1.basePage, lin).pte.base;
            var (s2, relink) :=
              if priv == 0 then (LinkPage(c, s1, lin, phys), 0)
              else if priv == 1 then (LinkPage(c, s1, lin, phys), 1)
              else if writing then (LinkPage(c, s1, lin, phys), RelinkCode(c, lin, phys))
              else (LinkPageReadOnly(c, s1, lin, phys), 0);
            var s3 := UpdateLink(c, s2, relink, lin);
            && !s2.halted && !s3.halted && Coherent(c, s3) && OnlyCacheChanged(s, s3)
            && s2.tlb[lin] == if priv == 2 && !writing then ReadOnlyLink(c, lin, phys) else FullLink(c, lin, phys)
  {
    hide Coherent, BlankAll, StoreLink, LinkAllowed, UpdateLink, FullLink, ReadOnlyLink, Walk;
    CoherentIsReady(c, s1);
    var phys := Walk(s1.mem, s1.basePage, lin).pte.base;
    if priv == 0 {
      WalkedLink(c, s1, lin, false);
      CoherentIsReady(c, LinkPage(c, s1, lin, phys));
      UpdateLinkNothing(c, LinkPage(c, s1, lin, phys), lin);
    } else if priv == 1 {
      TransientLink(c, s1, lin, 1);
    } else if writing {
      TransientLink(c, s1, lin, RelinkCode(c, lin, phys));
    } else {
      WalkedLink(c, s1, lin, true);
      CoherentIsReady(c, LinkPageReadOnly(c, s1, lin, phys));
      UpdateLinkNothing(c, LinkPageReadOnly(c, s1, lin, phys), lin);
    }
  }

  /** How an unchecked access shows what the reference says: a fault ends the run. */
  function Raised(o: Outcome): Outcome {
    if o.Fault? then Exit else o
  }

  // ----- any access, in any coherent state

  /** The access is a privileged write through a read-only link. */
  predicate WritesReadOnlyLink(s: Paging, address: nat, writing: bool, pl: nat)
    requires Ready(s) && address < 0x1_0000_0000
  {
    writing && pl != 3 && s.tlb[address / 4096].write == 0 && s.tlb[address / 4096].writeHandler == UserRO
  }

  /** What a live link says about the walk. */
  lemma LiveLink(c: Config, s: Paging, lin: nat)
    requires Coherent(c, s) && lin < TLB_SIZE && !Blank(s.tlb[lin])
    ensures lin in s.links
    ensures if !s.enabled then UnpagedPage(s, lin) < TLB_SIZE && s.tlb[lin] == FullLink(c, lin, UnpagedPage(s, lin))
            else
              && Walk(s.mem, s.basePage, lin).Mapped?
              && var w := Walk(s.mem, s.basePage, lin);
                 && !UserForbidden(c.arch, w.pde, w.pte)
                 && s.tlb[lin] == if WriteProtected(w.pde, w.pte) then ReadOnlyLink(c, lin, w.pte.base)
                                  else FullLink(c, lin, w.pte.base)
  {
    hide Walk, FullLink, ReadOnlyLink, Blank;
  }

  lemma AccessCorrect(c: Config, s: Paging, address: nat, writing: bool, pl: nat)
    requires Coherent(c, s) && Catches(c.arch) && !s.halted && address < 0x1_0000_0000
    ensures var (s1, o) := Access(c, s, address, writing, pl);
            && (s1.halted <==> o == Exit)
            && (!s1.halted ==> Coherent(c, s1) && OnlyCacheChanged(s, s1))
            && (WritesReadOnlyLink(s, address, writing, pl) || Raised(Reference(c, s, address, writing, pl)) == o)
            && (WritesReadOnlyLink(s, address, writing, pl) ==> o == Host(U32(s.tlb[address / 4096].read + address)))
  {
    hide Coherent, BlankAll, InitAccess, Walk, LinkAllowed;
    CoherentIsReady(c, s);
    InitAccessCorrect(c, s, address, writing, pl);
    if !Blank(s.tlb[address / 4096]) {
      LiveLink(c, s, address / 4096);
    }
  }

  /**
   The page is written where it is read: its two links coincide, and if they are zero its write accessor
   is the default one.  InitPage tests the first half before it relinks a page after a write, but not
   before it links a page read-only on a read.
   */
  predicate WrittenWhereRead(c: Config, lin: nat, phys: nat) {
    var e := FullLink(c, lin, phys);
    e.read == e.write && (e.write != 0 || c.handlerOf(phys).plainWrite)
  }

  /**
   In every coherent state an access has the outcome of a fresh walk, except for a privileged write
   through a read-only link to a page that is not written where it is read.
   */
  lemma AccessAgreesWithWalkIff(c: Config, s: Paging, address: nat, writing: bool, pl: nat)
    requires Coherent(c, s) && Catches(c.arch) && !s.halted && address < 0x1_0000_0000
    ensures Access(c, s, address, writing, pl).1 == Raised(Reference(c, s, address, writing, pl))
       <==> (WritesReadOnlyLink(s, address, writing, pl) ==>
               WrittenWhereRead(c, address / 4096, s.tlb[address / 4096].physPage))
  {
    hide Coherent, BlankAll, InitAccess, Walk, LinkAllowed, Access;
    CoherentIsReady(c, s);
    AccessCorrect(c, s, address, writing, pl);
    if WritesReadOnlyLink(s, address, writing, pl) {
      var lin := address / 4096;
      LiveLink(c, s, lin);
      LinkRange(c, lin, s.tlb[lin].physPage);
      PointersDiffer(s.tlb[lin].read, FullLink(c, lin, s.tlb[lin].physPage).write, address);
    }
  }

  lemma LinkRange(c: Config, lin: nat, phys: nat)
    ensures FullLink(c, lin, phys).read < 0x1_0000_0000 && FullLink(c, lin, phys).write < 0x1_0000_0000
    ensures ReadOnlyLink(c, lin, phys).read == FullLink(c, lin, phys).read
  {
  }

  lemma PointersDiffer(x: nat, y: nat, address: nat)
    requires x < 0x1_0000_0000 && y < 0x1_0000_0000 && address < 0x1_0000_0000
    ensures U32(x + address) == U32(y + address) <==> x == y
    ensures U32(address) == address
  {
  }

  /** The checked form reports the very fault the reference reports, and otherwise agrees in the same cases. */
  lemma CheckedAccessAgreesWithWalkIff(c: Config, s: Paging, address: nat, writing: bool, pl: nat)
    requires Coherent(c, s) && Catches(c.arch) && !s.halted && address < 0x1_0000_0000
    ensures var (s1, o) := CheckedAccess(c, s, address, writing, pl);
            && (s1.halted <==> o == Exit)
            && (!s1.halted ==> Coherent(c, s1) && OnlyCacheChanged(s, s1))
            && (o == Reference(c, s, address, writing, pl)
                <==> (WritesReadOnlyLink(s, address, writing, pl) ==>
                        WrittenWhereRead(c, address / 4096, s.tlb[address / 4096].physPage)))
  {
    hide Coherent, BlankAll, InitAccess, Walk, LinkAllowed, StoreLink;
    CoherentIsReady(c, s);
    var lin := address / 4096;
    InitAccessCorrect(c, s, address, writing, pl);
    if !s.enabled {
      UnpagedLink(c, s, lin);
    }
    if !Blank(s.tlb[lin]) {
      LiveLink(c, s, lin);
      LinkRange(c, lin, s.tlb[lin].physPage);
      PointersDiffer(s.tlb[lin].read, FullLink(c, lin, s.tlb[lin].physPage).write, address);
    }
  }

  // ----- what coherence says

  /** No page the walk forbids to users has a live link; no write-protected page has a writable one. */
  lemma LinksRespectProtection(c: Config, s: Paging, lin: nat)
    requires Coherent(c, s) && s.enabled && lin < TLB_SIZE
    ensures var e := s.tlb[lin];
            match Walk(s.mem, s.basePage, lin)
            case NotPresent => Blank(e)
            case Mapped(pde, pte) =>
              && (UserForbidden(c.arch, pde, pte) ==> Blank(e))
              && (WriteProtected(pde, pte) ==> e.write == 0 && !e.writeHandler.OfPage?)
  {
    hide Coherent, Walk;
    CoherentIsReady(c, s);
    if !Blank(s.tlb[lin]) {
      LiveLink(c, s, lin);
    }
  }

  /** A live link caches the page the walk computes, and its pointers lead to that page's host bytes. */
  lemma LinksCacheTheWalk(c: Config, s: Paging, address: nat)
    requires Coherent(c, s) && address < 0x1_0000_0000 && !Blank(s.tlb[address / 4096])
    ensures var e := s.tlb[address / 4096];
            var h := c.handlerOf(e.physPage);
            && MakePhysPage(s, address / 4096) == Frame(e.physPage)
            && e.readHandler == OfPage(e.physPage)
            && (h.readable ==> U32(e.read + address) == U32(h.hostRead + address % 4096))
            && (h.writeable && !e.writeHandler.UserRO? ==> U32(e.write + address) == U32(h.hostWrite + address % 4096))
  {
    hide Coherent, Walk;
    CoherentIsReady(c, s);
    var lin := address / 4096;
    LiveLink(c, s, lin);
    var h := c.handlerOf(s.tlb[lin].physPage);
    PointerPlusAddress(h.hostRead, lin, address % 4096);
    PointerPlusAddress(h.hostWrite, lin, address % 4096);
  }

  lemma PointerPlusAddress(host: nat, lin: nat, offset: nat)
    requires offset < 4096
    ensures U32(U32(host - lin * 4096) + (lin * 4096 + offset)) == U32(host + offset)
  {
  }

  // ----- runs

  /** What the guest and the emulator do between accesses; `Retable` is a change of page tables with its flush. */
  datatype Step =
    | Touch(address: nat, writing: bool, pl: nat)
    | TryTouch(address: nat, writing: bool, pl: nat)
    | LoadCr3(cr3: nat)
    | SetPaging(on: bool)
    | Remap(lin: nat, phys: nat)
    | Drop(lin: nat)
    | Flush
    | Retable(mem: seq<PageEntry>, cr3: nat)

  predicate Possible(step: Step) {
    match step
    case Touch(address, _, _) => address < 0x1_0000_0000
    case TryTouch(address, _, _) => address < 0x1_0000_0000
    case LoadCr3(cr3) => cr3 < 0x1_0000_0000
    case SetPaging(_) => true
    case Remap(lin, _) => lin < LINK_START
    case Drop(lin) => lin < TLB_SIZE
    case Flush => true
    case Retable(mem, cr3) => MemOk(mem) && cr3 < 0x1_0000_0000
  }

  function Take(c: Config, s: Paging, step: Step): Paging
    requires Ready(s) && Possible(step)
  {
    match step
    case Touch(address, writing, pl) => Access(c, s, address, writing, pl).0
    case TryTouch(address, writing, pl) => CheckedAccess(c, s, address, writing, pl).0
    case LoadCr3(cr3) => SetDirBase(s, cr3)
    case SetPaging(on) => Enable(s, on)
    case Remap(lin, phys) => MapPage(c, s, lin, phys)
    case Drop(lin) => Unlink(s, lin)
    case Flush => ClearTlb(s)
    case Retable(mem, cr3) => SetDirBase(s.(mem := mem), cr3)
  }

  lemma StepKeepsCoherent(c: Config, s: Paging, step: Step)
    requires Coherent(c, s) && Catches(c.arch) && !s.halted && Possible(step)
    ensures Take(c, s, step).halted || Coherent(c, Take(c, s, step))
  {
    hide Coherent, Walk, LinkAllowed, Access, CheckedAccess, BlankAll;
    CoherentIsReady(c, s);
    match step
    case Touch(address, writing, pl) => AccessCorrect(c, s, address, writing, pl);
    case TryTouch(address, writing, pl) => CheckedAccessAgreesWithWalkIff(c, s, address, writing, pl);
    case Remap(lin, phys) => RemapKeepsCoherent(c, s, lin, phys);
    case Drop(lin) => DropKeepsCoherent(c, s, lin);
    case LoadCr3(cr3) => FlushedOrUnpaged(c, s, s.mem, s.enabled, cr3);
    case SetPaging(on) => EnableKeepsCoherent(c, s, on);
    case Flush => FlushKeepsCoherent(c, s, s.mem, s.enabled, s.cr3, s.basePage);
    case Retable(mem, cr3) => FlushedOrUnpaged(c, s, mem, s.enabled, cr3);
  }

  lemma RemapKeepsCoherent(c: Config, s: Paging, lin: nat, phys: nat)
    requires Coherent(c, s) && lin < LINK_START
    ensures Coherent(c, MapPage(c, s, lin, phys))
  {
    hide Walk, FullLink, ReadOnlyLink;
    var s1 := MapPage(c, s, lin, phys);
    forall p | 0 <= p < TLB_SIZE ensures Blank(s1.tlb[p]) || (p in s1.links && LinkAllowed(c, s1, p)) {
      if p != lin && !Blank(s.tlb[p]) {
        assert s1.tlb[p] == s.tlb[p] && LinkAllowed(c, s, p);
      }
    }
  }

  lemma DropKeepsCoherent(c: Config, s: Paging, lin: nat)
    requires Coherent(c, s) && lin < TLB_SIZE
    ensures Coherent(c, Unlink(s, lin))
  {
    hide LinkAllowed;
    var s1 := Unlink(s, lin);
    forall p | 0 <= p < TLB_SIZE ensures Blank(s1.tlb[p]) || (p in s1.links && LinkAllowed(c, s1, p)) {
      if p != lin && !Blank(s.tlb[p]) {
        AllowedDependsOnOwnEntry(c, s, s1, p);
      }
    }
  }

  /** After a flush nothing is linked, so the tables, the base and the paging switch may be anything. */
  lemma FlushKeepsCoherent(c: Config, s: Paging, mem: seq<PageEntry>, enabled: bool, cr3: nat, basePage: nat)
    requires Coherent(c, s) && MemOk(mem) && basePage < TLB_SIZE && cr3 < 0x1_0000_0000
    ensures Coherent(c, ClearTlb(s.(mem := mem, enabled := enabled, cr3 := cr3, basePage := basePage)))
  {
    hide LinkAllowed, BlankAll;
    FlushBlanksAll(c, s);
    BlankIsCoherent(c, ClearTlb(s.(mem := mem, enabled := enabled, cr3 := cr3, basePage := basePage)));
  }

  lemma EnableKeepsCoherent(c: Config, s: Paging, on: bool)
    requires Coherent(c, s)
    ensures Coherent(c, Enable(s, on))
  {
    hide Coherent, BlankAll, ClearTlb, SetDirBase;
    CoherentIsReady(c, s);
    if s.enabled != on {
      if on {
        FlushedOrUnpaged(c, s, s.mem, true, s.cr3);
        var s1 := SetDirBase(s.(mem := s.mem, enabled := true), s.cr3);
        CoherentIsReady(c, s1);
        FlushKeepsCoherent(c, s1, s1.mem, s1.enabled, s1.cr3, s1.basePage);
      } else {
        FlushKeepsCoherent(c, s, s.mem, false, s.cr3, s.basePage);
      }
    }
  }

  lemma FlushedOrUnpaged(c: Config, s: Paging, mem: seq<PageEntry>, enabled: bool, cr3: nat)
    requires Coherent(c, s) && MemOk(mem) && cr3 < 0x1_0000_0000
    ensures enabled ==> Coherent(c, SetDirBase(s.(mem := mem, enabled := true), cr3))
    ensures !s.enabled ==> Coherent(c, SetDirBase(s.(mem := mem), cr3))
  {
    hide Coherent, BlankAll, LinkAllowed;
    CoherentIsReady(c, s);
    FlushKeepsCoherent(c, s, mem, true, cr3, cr3 / 4096);
    if !s.enabled {
      UnpagedIgnoresTables(c, s, s.(mem := mem, cr3 := cr3, basePage := cr3 / 4096));
    }
  }

  lemma UnpagedIgnoresTables(c: Config, s: Paging, s1: Paging)
    requires Coherent(c, s) && !s.enabled && Ready(s1)
    requires s1 == s.(mem := s1.mem, cr3 := s1.cr3, basePage := s1.basePage)
    ensures Coherent(c, s1)
  {
    hide FullLink, Walk;
  }

  /** The states of a run; it stops where an access ends the process. */
  ghost predicate Reaches(c: Config, s: Paging, steps: seq<Step>, r: Paging)
    decreases |steps|
  {
    if steps == [] then r == s
    else !s.halted && Ready(s) && Possible(steps[0]) && Reaches(c, Take(c, s, steps[0]), steps[1..], r)
  }

  /** paging_Init */
  predicate Initial(s: Paging) {
    Ready(s) && AllBlank(s) && s.links == [] && !s.enabled && !s.halted && s.firstmb == [0]
  }

  /**
   Over every run from the initial state, on the CPU types that catch privilege checks: links respect
   protection and cache the walk, however privilege levels change between accesses.
   */
  lemma {:induction false} EveryRunStaysCoherent(c: Config, s: Paging, steps: seq<Step>, r: Paging)
    requires Catches(c.arch) && Coherent(c, s) && Reaches(c, s, steps, r)
    ensures r.halted || Coherent(c, r)
    decreases |steps|
  {
    hide Coherent, Take, Possible;
    if steps != [] {
      StepKeepsCoherent(c, s, steps[0]);
      var s1 := Take(c, s, steps[0]);
      if !s1.halted {
        EveryRunStaysCoherent(c, s1, steps[1..], r);
      }
    }
  }

  lemma InitialIsCoherent(c: Config, s: Paging)
    requires Initial(s)
    ensures Coherent(c, s)
  {
    BlankIsCoherent(c, s);
  }

  /** A later user access to a forbidden page faults, whatever the run did before it. */
  lemma UserNeverBypasses(c: Config, s: Paging, steps: seq<Step>, r: Paging, address: nat, writing: bool)
    requires Catches(c.arch) && Initial(s) && Reaches(c, s, steps, r) && !r.halted && address < 0x1_0000_0000
    requires Ready(r) && r.enabled && Walk(r.mem, r.basePage, address / 4096).Mapped?
    requires var w := Walk(r.mem, r.basePage, address / 4096);
             UserForbidden(c.arch, w.pde, w.pte) || (writing && WriteProtected(w.pde, w.pte))
    ensures Access(c, r, address, writing, 3).1 == Exit
    ensures CheckedAccess(c, r, address, writing, 3).1 == Fault(DeniedError(writing))
  {
    hide Coherent, Walk, Access, CheckedAccess;
    InitialIsCoherent(c, s);
    EveryRunStaysCoherent(c, s, steps, r);
    AccessAgreesWithWalkIff(c, r, address, writing, 3);
    CheckedAccessAgreesWithWalkIff(c, r, address, writing, 3);
  }

  // ----- where the guarantee ends

  /** On the other CPU types a privileged read links a forbidden page for everybody. */
  lemma FastCpuLeaks(c: Config, s: Paging, address: nat)
    requires !Catches(c.arch) && Ready(s) && s.enabled && !s.halted && address < 0x1_0000_0000
    requires Blank(s.tlb[address / 4096]) && Walk(s.mem, s.basePage, address / 4096).Mapped?
    requires var w := Walk(s.mem, s.basePage, address / 4096); UserForbidden(c.arch, w.pde, w.pte)
    ensures var s1 := Access(c, s, address, false, 0).0;
            && Ready(s1)
            && Access(c, s1, address, false, 3).1 != Exit
            && Raised(Reference(c, s1, address, false, 3)) == Exit
  {
    hide BlankAll, Walk;
    var lin := address / 4096;
    var w := Walk(s.mem, s.basePage, lin);
    MarkUsedKeepsTables(s, lin, true);
    var s1 := MarkUsed(s, lin, w.pde, w.pte, true);
    WalkIgnoresMarks(s.mem, s1.mem, s.basePage, lin);
    assert Access(c, s, address, false, 0).0 == LinkPage(c, s1, lin, w.pte.base);
  }

  /** ROM: readable, its writes are dropped by its own accessor. */
  predicate RomLike(h: Handler) {
    h.readable && !h.writeable && !h.plainWrite
  }

  /** A privileged read of write-protected ROM lets the next privileged write reach the bytes of the ROM. */
  lemma RomWrittenThroughReadOnlyLink(c: Config, s: Paging, address: nat)
    requires Catches(c.arch) && Coherent(c, s) && s.enabled && !s.halted && address < 0x1_0000_0000
    requires Blank(s.tlb[address / 4096]) && Walk(s.mem, s.basePage, address / 4096).Mapped?
    requires var w := Walk(s.mem, s.basePage, address / 4096);
             && !UserForbidden(c.arch, w.pde, w.pte) && WriteProtected(w.pde, w.pte)
             && RomLike(c.handlerOf(w.pte.base))
    ensures var phys := Walk(s.mem, s.basePage, address / 4096).pte.base;
            var s1 := Access(c, s, address, false, 0).0;
            && Ready(s1)
            && Reference(c, s1, address, true, 0) == Device(phys)
            && Access(c, s1, address, true, 0).1 == Host(U32(c.handlerOf(phys).hostRead + address % 4096))
  {
    hide Coherent, Walk, BlankAll, InitAccess;
    CoherentIsReady(c, s);
    var lin := address / 4096;
    InitAccessCorrect(c, s, address, false, 0);
    var s1 := InitAccess(c, s, address, false, 0).0;
    CoherentIsReady(c, s1);
    WalkIgnoresMarks(s.mem, s1.mem, s.basePage, lin);
    RomLinked(c, s, address);
    LiveLink(c, s1, lin);
    PointerPlusAddress(c.handlerOf(s1.tlb[lin].physPage).hostRead, lin, address % 4096);
  }

  lemma RomLinked(c: Config, s: Paging, address: nat)
    requires Catches(c.arch) && Coherent(c, s) && s.enabled && !s.halted && address < 0x1_0000_0000
    requires Blank(s.tlb[address / 4096]) && Walk(s.mem, s.basePage, address / 4096).Mapped?
    requires var w := Walk(s.mem, s.basePage, address / 4096);
             !UserForbidden(c.arch, w.pde, w.pte) && WriteProtected(w.pde, w.pte)
    ensures InitAccess(c, s, address, false, 0).0.tlb[address / 4096].writeHandler == UserRO
  {
    hide Coherent, Walk, BlankAll;
    CoherentIsReady(c, s);
    MarkUsedKeepsTables(s, address / 4096, false);
  }
}
