/**
 Where an access ends, said by the address, the bits of the page table entries and the host address of
 the page alone, for every coherent state and both forms of access.
 */
module HostAccess {
  import opened SoftTlb
  import opened TlbProofs
  import opened Words

  // ----- translation

  /** The physical addresses of the two entries, in words: ten bits of the address select each. */
  function DirectoryWord(basePage: nat, address: nat): nat { (basePage * 4096 + 4 * (address / 0x40_0000)) / 4 }

  function TableWord(base: nat, address: nat): nat { (base * 4096 + 4 * (address / 0x1000 % 0x400)) / 4 }

  lemma WordsAre(base: nat, address: nat, pde: PageEntry)
    requires address < 0x1_0000_0000
    ensures address / 4096 < TLB_SIZE
    ensures DirectoryWord(base, address) == PdeIndex(base, address / 4096) <= base * 1024 + 1023
    ensures TableWord(pde.base, address) == PteIndex(pde, address / 4096)
  {
    var lin := address / 4096;
    assert address / 0x40_0000 == lin / 1024 < 1024;
    WordIndex(base, address / 0x40_0000);
    WordIndex(pde.base, lin % 0x400);
  }

  lemma WordIndex(page: nat, i: nat)
    ensures (page * 4096 + 4 * i) / 4 == page * 1024 + i
  {
  }

  /** The two-level translation of an address. */
  predicate MapsTo(s: Paging, address: nat, pde: PageEntry, pte: PageEntry)
    requires Ready(s) && address < 0x1_0000_0000
  {
    WordsAre(s.basePage, address, pde);
    && pde == s.mem[DirectoryWord(s.basePage, address)] && pde.p
    && pte == s.mem[TableWord(pde.base, address)] && pte.p
  }

  /** The walk is that translation. */
  lemma WalkFollowsAddress(s: Paging, address: nat, pde: PageEntry, pte: PageEntry)
    requires Ready(s) && address < 0x1_0000_0000
    ensures address / 4096 < TLB_SIZE
    ensures Walk(s.mem, s.basePage, address / 4096) == Mapped(pde, pte) <==> MapsTo(s, address, pde, pte)
  {
    hide DirectoryWord, TableWord;
    WordsAre(s.basePage, address, pde);
  }

  /** A base load puts the directory at the page of CR3, and with paging on that page is walked. */
  lemma BaseIsLoaded(s: Paging, cr3: nat, on: bool)
    requires Ready(s) && cr3 < 0x1_0000_0000
    ensures SetDirBase(s, cr3).basePage == cr3 / 4096 && SetDirBase(s, cr3).cr3 == cr3
    ensures Enable(s, on).enabled == on && (on && !s.enabled ==> Enable(s, on).basePage == s.cr3 / 4096)
  {
    hide BlankAll;
  }

  // ----- where an access ends

  /** The byte of a page that an offset selects, for a page whose bytes are in host memory; otherwise its accessor. */
  ghost predicate Reaches(c: Config, phys: nat, address: nat, writing: bool, o: Outcome) {
    var h := c.handlerOf(phys);
    var host := if writing then h.hostWrite else h.hostRead;
    var plain := if writing then h.plainWrite else h.plainRead;
    if (if writing then h.writeable else h.readable) && host % 0x1_0000_0000 != address / 4096 * 4096 then
      o == Host((host + address % 4096) % 0x1_0000_0000)
    else o == if plain then Host(address) else Device(phys)
  }

  /** Whether a user may use a page at all, and whether it may be written, by the bits of the two entries. */
  predicate UserBits(arch: Arch, pde: PageEntry, pte: PageEntry) {
    if arch.OldSlow486? || arch.NewSlow486? || arch.SlowPentium? then pde.us && pte.us else pde.us || pte.us
  }

  predicate Allowed(arch: Arch, pde: PageEntry, pte: PageEntry, writing: bool, pl: nat) {
    pl != 3 || (UserBits(arch, pde, pte) && (writing ==> pde.wr && pte.wr))
  }

  lemma LinkZero(host: nat, address: nat)
    requires address < 0x1_0000_0000
    ensures U32(host - address / 4096 * 4096) == 0 <==> host % 0x1_0000_0000 == address / 4096 * 4096
    ensures U32(U32(host - address / 4096 * 4096) + address) == (host + address % 4096) % 0x1_0000_0000
  {
    var lin, offset := address / 4096, address % 4096;
    assert address == lin * 4096 + offset;
    PointerPlusAddress(host, lin, offset);
    Difference(host, lin * 4096);
  }

  lemma Difference(host: nat, page: nat)
    requires page < 0x1_0000_0000
    ensures U32(host - page) == 0 <==> host % 0x1_0000_0000 == page
  {
  }

  lemma ThroughReaches(c: Config, phys: nat, address: nat, writing: bool)
    requires address < 0x1_0000_0000
    ensures Reaches(c, phys, address, writing, Through(c, FullLink(c, address / 4096, phys), address, writing))
  {
    hide U32;
    LinkZero(c.handlerOf(phys).hostRead, address);
    LinkZero(c.handlerOf(phys).hostWrite, address);
  }

  /** Without paging the page itself, but for the first page, which can be remapped. */
  lemma UnpagedAccessReaches(c: Config, s: Paging, address: nat, writing: bool, pl: nat)
    requires Coherent(c, s) && Catches(c.arch) && !s.halted && !s.enabled && address < 0x1_0000_0000
    requires !WritesReadOnlyLink(s, address, writing, pl)
    ensures |s.firstmb| == 1
    ensures var phys := if address < 4096 then s.firstmb[0] else address / 4096;
            var o, q := Access(c, s, address, writing, pl).1, CheckedAccess(c, s, address, writing, pl).1;
            if phys < TLB_SIZE then Reaches(c, phys, address, writing, o) && q == o else o == Exit && q == Exit
  {
    hide Coherent, BlankAll, Walk, LinkAllowed, Access, CheckedAccess, Through, FullLink, Reaches;
    CoherentIsReady(c, s);
    AccessAgreesWithWalkIff(c, s, address, writing, pl);
    CheckedAccessAgreesWithWalkIff(c, s, address, writing, pl);
    ThroughReaches(c, UnpagedPage(s, address / 4096), address, writing);
    AccessNeverFaults(c, UnpagedPage(s, address / 4096), address, writing);
  }

  lemma AccessNeverFaults(c: Config, phys: nat, address: nat, writing: bool)
    ensures !Through(c, FullLink(c, address / 4096, phys), address, writing).Fault?
  {
  }

  /** A page that is not mapped: the unchecked form ends the run, the checked one reports it. */
  lemma UnmappedAccessFaults(c: Config, s: Paging, address: nat, writing: bool, pl: nat)
    requires Coherent(c, s) && Catches(c.arch) && !s.halted && s.enabled && address < 0x1_0000_0000
    requires forall pde, pte :: !MapsTo(s, address, pde, pte)
    ensures Access(c, s, address, writing, pl).1 == Exit
    ensures CheckedAccess(c, s, address, writing, pl).1 == Fault((if writing then 2 else 0) + if pl == 0 then 0 else 4)
  {
    hide Coherent, BlankAll, Walk, LinkAllowed, Access, CheckedAccess, Through, FullLink, MapsTo;
    CoherentIsReady(c, s);
    NotWalked(s, address);
    NoLinkWithoutPage(c, s, address / 4096);
    AccessAgreesWithWalkIff(c, s, address, writing, pl);
    CheckedAccessAgreesWithWalkIff(c, s, address, writing, pl);
  }

  lemma NotWalked(s: Paging, address: nat)
    requires Ready(s) && address < 0x1_0000_0000 && forall pde, pte :: !MapsTo(s, address, pde, pte)
    ensures address / 4096 < TLB_SIZE && Walk(s.mem, s.basePage, address / 4096).NotPresent?
  {
    hide MapsTo, Walk;
    WordsAre(s.basePage, address, s.mem[0]);
    var w := Walk(s.mem, s.basePage, address / 4096);
    if w.Mapped? {
      WalkFollowsAddress(s, address, w.pde, w.pte);
    }
  }

  lemma NoLinkWithoutPage(c: Config, s: Paging, lin: nat)
    requires Coherent(c, s) && s.enabled && lin < TLB_SIZE && Walk(s.mem, s.basePage, lin).NotPresent?
    ensures s.tlb[lin].writeHandler != UserRO
  {
    hide Coherent, Walk;
    CoherentIsReady(c, s);
    LinksRespectProtection(c, s, lin);
  }

  /**
   A mapped page: a denied access faults, with the violation, write and user bits in its code; an allowed
   one ends at the byte of the frame, but for a privileged write through a read-only link, which ends at
   the byte that is read.
   */
  lemma MappedAccessReaches(c: Config, s: Paging, address: nat, writing: bool, pl: nat, pde: PageEntry, pte: PageEntry)
    requires Coherent(c, s) && Catches(c.arch) && !s.halted && s.enabled && address < 0x1_0000_0000
    requires MapsTo(s, address, pde, pte)
    ensures var o, q := Access(c, s, address, writing, pl).1, CheckedAccess(c, s, address, writing, pl).1;
            if !Allowed(c.arch, pde, pte, writing, pl) then o == Exit && q == Fault(1 + (if writing then 2 else 0) + 4)
            else q == o && if WritesReadOnlyLink(s, address, writing, pl) then WrittenWhereReadIs(c, pte.base, address, o)
                           else Reaches(c, pte.base, address, writing, o)
  {
    hide Coherent, BlankAll, Walk, LinkAllowed, Access, CheckedAccess, Through, FullLink, MapsTo, Reaches, U32;
    CoherentIsReady(c, s);
    WalkFollowsAddress(s, address, pde, pte);
    if WritesReadOnlyLink(s, address, writing, pl) {
      ReadOnlyLinkReaches(c, s, address, pl, pde, pte);
    } else {
      AccessAgreesWithWalkIff(c, s, address, writing, pl);
      CheckedAccessAgreesWithWalkIff(c, s, address, writing, pl);
      ThroughReaches(c, pte.base, address, writing);
      AccessNeverFaults(c, pte.base, address, writing);
    }
  }

  /** Where the byte is read, or the address itself if the page is not readable in host memory. */
  ghost predicate WrittenWhereReadIs(c: Config, phys: nat, address: nat, o: Outcome) {
    var h := c.handlerOf(phys);
    o == Host(if h.readable then (h.hostRead + address % 4096) % 0x1_0000_0000 else address)
  }

  lemma ReadOnlyLinkReaches(c: Config, s: Paging, address: nat, pl: nat, pde: PageEntry, pte: PageEntry)
    requires Coherent(c, s) && Catches(c.arch) && !s.halted && s.enabled && address < 0x1_0000_0000
    requires WritesReadOnlyLink(s, address, true, pl) && Walk(s.mem, s.basePage, address / 4096) == Mapped(pde, pte)
    ensures WrittenWhereReadIs(c, pte.base, address, Access(c, s, address, true, pl).1)
    ensures CheckedAccess(c, s, address, true, pl).1 == Access(c, s, address, true, pl).1
  {
    hide Coherent, BlankAll, Walk, U32;
    CoherentIsReady(c, s);
    LiveLink(c, s, address / 4096);
    LinkZero(c.handlerOf(pte.base).hostRead, address);
    AddressFits(address);
  }

  lemma AddressFits(address: nat)
    requires address < 0x1_0000_0000
    ensures U32(0 + address) == address
  {
  }

  // ----- marks

  lemma MarkUsedMarks(s: Paging, lin: nat, dirty: bool)
    requires Ready(s) && lin < TLB_SIZE && Walk(s.mem, s.basePage, lin).Mapped?
    ensures var w := Walk(s.mem, s.basePage, lin);
            var m := MarkUsed(s, lin, w.pde, w.pte, dirty).mem;
            && |m| == |s.mem| && m[PdeIndex(s.basePage, lin)].a
            && m[PteIndex(w.pde, lin)].a && (dirty ==> m[PteIndex(w.pde, lin)].d)
  {
  }

  lemma LinkingKeepsMemory(c: Config, s: Paging, lin: nat, phys: nat, relink: nat)
    requires LogOk(s) && lin < TLB_SIZE
    ensures LinkPage(c, s, lin, phys).mem == s.mem && LinkPageReadOnly(c, s, lin, phys).mem == s.mem
    ensures UpdateLink(c, s, relink, lin).mem == s.mem
  {
    hide BlankAll, FullLink, ReadOnlyLink;
  }

  /** What InitPage leaves in memory. */
  lemma InitPageMarks(c: Config, s: Paging, lin: nat, writing: bool, pl: nat)
    requires Ready(s) && s.enabled && lin < TLB_SIZE && !s.halted && !InitPage(c, s, lin, writing, pl).0.halted
    ensures Walk(s.mem, s.basePage, lin).Mapped?
    ensures var w := Walk(s.mem, s.basePage, lin);
            InitPage(c, s, lin, writing, pl).0.mem
            == MarkUsed(s, lin, w.pde, w.pte, writing || PrivCheck(c.arch, w.pde, w.pte, writing, pl) == 0).mem
  {
    hide BlankAll, Walk, MarkUsed, LinkPage, LinkPageReadOnly, PrivCheck;
    var w := Walk(s.mem, s.basePage, lin);
    if w.Mapped? {
      var dirty := writing || PrivCheck(c.arch, w.pde, w.pte, writing, pl) == 0;
      MarkUsedKeepsTables(s, lin, dirty);
      LinkingKeepsMemory(c, MarkUsed(s, lin, w.pde, w.pte, dirty), lin, w.pte.base, 0);
    }
  }

  /** The memory after the first access to a page. */
  lemma FirstAccessMemory(c: Config, s: Paging, address: nat, writing: bool, pl: nat)
    requires Coherent(c, s) && Catches(c.arch) && !s.halted && s.enabled && address < 0x1_0000_0000
    requires Blank(s.tlb[address / 4096]) && !Access(c, s, address, writing, pl).1.Exit?
    ensures var s1, lin := Access(c, s, address, writing, pl).0, address / 4096;
            var w := Walk(s.mem, s.basePage, lin);
            && Ready(s) && Ready(s1) && s1.basePage == s.basePage && lin < TLB_SIZE && w.Mapped?
            && s1.mem == MarkUsed(s, lin, w.pde, w.pte, writing || PrivCheck(c.arch, w.pde, w.pte, writing, pl) == 0).mem
  {
    hide Coherent, BlankAll, UpdateLink, PrivCheck, Access, InitPage, MarkUsed, Through, Walk, Ready;
    CoherentIsReady(c, s);
    AccessCorrect(c, s, address, writing, pl);
    BlankAccess(c, s, address, writing, pl);
    CoherentIsReady(c, Access(c, s, address, writing, pl).0);
    var lin := address / 4096;
    var (t, relink) := InitPage(c, s, lin, writing, pl);
    InitPageMarks(c, s, lin, writing, pl);
    InitPageLogs(c, s, lin, writing, pl);
    LinkingKeepsMemory(c, t, lin, 0, relink);
  }

  lemma MarkedWalk(s: Paging, m: seq<PageEntry>, lin: nat, dirty: bool)
    requires Ready(s) && lin < TLB_SIZE && Walk(s.mem, s.basePage, lin).Mapped? && MemOk(m)
    requires var w := Walk(s.mem, s.basePage, lin); m == MarkUsed(s, lin, w.pde, w.pte, dirty).mem
    ensures var w := Walk(m, s.basePage, lin); w.Mapped? && w.pde.a && w.pte.a && (dirty ==> w.pte.d)
  {
    hide MarkUsed;
    MarkUsedKeepsTables(s, lin, dirty);
    MarkUsedMarks(s, lin, dirty);
    WalkIgnoresMarks(s.mem, m, s.basePage, lin);
  }

  /** The first access to a page sets the accessed bits of both entries, and a write the dirty bit. */
  lemma FirstAccessMarks(c: Config, s: Paging, address: nat, writing: bool, pl: nat)
    requires Coherent(c, s) && Catches(c.arch) && !s.halted && s.enabled && address < 0x1_0000_0000
    requires Blank(s.tlb[address / 4096]) && !Access(c, s, address, writing, pl).1.Exit?
    ensures var s1 := Access(c, s, address, writing, pl).0;
            && Ready(s1) && Walk(s1.mem, s1.basePage, address / 4096).Mapped?
            && var w := Walk(s1.mem, s1.basePage, address / 4096);
               w.pde.a && w.pte.a && (writing ==> w.pte.d)
  {
    hide Coherent, PrivCheck, Access, MarkUsed, Walk, Blank;
    FirstAccessMemory(c, s, address, writing, pl);
    var w := Walk(s.mem, s.basePage, address / 4096);
    MarkedWalk(s, Access(c, s, address, writing, pl).0.mem, address / 4096,
               writing || PrivCheck(c.arch, w.pde, w.pte, writing, pl) == 0);
  }

  lemma InitPageLogs(c: Config, s: Paging, lin: nat, writing: bool, pl: nat)
    requires Ready(s) && lin < TLB_SIZE
    ensures LogOk(InitPage(c, s, lin, writing, pl).0)
  {
    hide LinkPage, LinkPageReadOnly, LogOk, PrivCheck, Walk, MarkUsed, UnpagedPage;
    StoringKeepsLog(c, s, lin, UnpagedPage(s, lin));
    HaltedLog(s);
    var w := Walk(s.mem, s.basePage, lin);
    if s.enabled && w.Mapped? {
      var dirty := writing || PrivCheck(c.arch, w.pde, w.pte, writing, pl) == 0;
      MarkUsedKeepsTables(s, lin, dirty);
      MarkedLog(s, MarkUsed(s, lin, w.pde, w.pte, dirty));
      StoringKeepsLog(c, MarkUsed(s, lin, w.pde, w.pte, dirty), lin, w.pte.base);
    }
  }

  lemma HaltedLog(s: Paging)
    requires LogOk(s)
    ensures LogOk(s.(halted := true))
  {
  }

  lemma MarkedLog(s: Paging, t: Paging)
    requires LogOk(s) && t == s.(mem := t.mem)
    ensures LogOk(t)
  {
  }

  lemma StoringKeepsLog(c: Config, s: Paging, lin: nat, phys: nat)
    requires LogOk(s)
    ensures LogOk(LinkPage(c, s, lin, phys)) && LogOk(LinkPageReadOnly(c, s, lin, phys))
  {
    hide BlankAll, FullLink, ReadOnlyLink;
  }

  lemma BlankAccess(c: Config, s: Paging, address: nat, writing: bool, pl: nat)
    requires Ready(s) && address < 0x1_0000_0000 && Blank(s.tlb[address / 4096])
    ensures Access(c, s, address, writing, pl) == InitAccess(c, s, address, writing, pl)
  {
    hide InitAccess;
  }

  /** Outside paging the first page is the one it was last mapped to. */
  lemma RemapTakesEffect(c: Config, s: Paging, phys: nat, lin: nat)
    requires Ready(s) && lin < TLB_SIZE
    ensures UnpagedPage(MapPage(c, s, 0, phys), lin) == if lin == 0 then phys else UnpagedPage(s, lin)
  {
  }

  /** Any other page is linked at once to the frame it is mapped to. */
  lemma MappingReaches(c: Config, s: Paging, phys: nat, address: nat, writing: bool, pl: nat)
    requires Ready(s) && !s.halted && 4096 <= address < 0x1_0000_0000 && phys < TLB_SIZE
    ensures var s1 := MapPage(c, s, address / 4096, phys);
            && Ready(s1) && !s1.halted
            && Reaches(c, phys, address, writing, Access(c, s1, address, writing, pl).1)
            && CheckedAccess(c, s1, address, writing, pl).1 == Access(c, s1, address, writing, pl).1
  {
    hide BlankAll, Reaches, U32;
    ThroughReaches(c, phys, address, writing);
  }
}
