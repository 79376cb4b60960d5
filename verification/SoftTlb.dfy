/**
 The software TLB as a value: two-level page tables in physical memory, a table of cached links, and
 the log of links made since the last flush.  An access either goes through a link, makes one, or
 faults; a fault of an unchecked access ends the run.
 */
module SoftTlb {
  import opened Words

  const TLB_SIZE: nat := 0x10_0000
  const LINK_START: nat := 1
  const PAGING_LINKS: nat := 32768
  /** Physical memory in 32-bit words. */
  const MEMORY_WORDS: nat := 0x4000_0000

  /** A page directory or page table entry; `rest` holds the bits that the walk does not look at. */
  datatype PageEntry = PageEntry(p: bool, wr: bool, us: bool, a: bool, d: bool, base: nat, rest: nat)

  datatype Arch = Mixed | Fast386 | Slow386 | OldSlow486 | NewSlow486 | SlowPentium

  /**
   A page handler as seen for one physical page: flags, host addresses of the page for reading and
   writing, and whether its byte accessors are the default ones, which access the host address they
   are given.
   */
  datatype Handler = Handler(readable: bool, writeable: bool, hostRead: nat, hostWrite: nat, plainRead: bool, plainWrite: bool)

  datatype Config = Config(arch: Arch, handlerOf: nat -> Handler)

  /** Whose accessors a TLB entry calls: the initial handler's, the read-only handler's, or those of a physical page. */
  datatype HandlerRef = Init | UserRO | OfPage(page: nat)

  datatype TlbEntry = TlbEntry(read: nat, write: nat, readHandler: HandlerRef, writeHandler: HandlerRef, physPage: nat)

  datatype Paging = Paging(
    enabled: bool, cr3: nat, basePage: nat, firstmb: seq<nat>,
    tlb: seq<TlbEntry>, links: seq<nat>, mem: seq<PageEntry>, halted: bool)

  datatype Outcome =
    | Host(address: nat)       // the byte at this host address
    | Device(page: nat)        // the accessor of this physical page's handler
    | Fault(error: nat)        // a checked access reports a page fault
    | Exit                     // an unchecked access faults and the process ends

  // ----- the plain walk

  datatype WalkResult = NotPresent | Mapped(pde: PageEntry, pte: PageEntry)

  predicate MemOk(mem: seq<PageEntry>) {
    |mem| == MEMORY_WORDS && forall i :: 0 <= i < |mem| ==> mem[i].base < TLB_SIZE
  }

  function PdeIndex(basePage: nat, lin: nat): nat {
    basePage * 1024 + lin / 1024
  }

  function PteIndex(pde: PageEntry, lin: nat): nat {
    pde.base * 1024 + lin % 1024
  }

  function Walk(mem: seq<PageEntry>, basePage: nat, lin: nat): (r: WalkResult)
    requires MemOk(mem) && basePage < TLB_SIZE && lin < TLB_SIZE
    ensures r.Mapped? ==> r.pte.base < TLB_SIZE && r.pde.base < TLB_SIZE && r.pde.p && r.pte.p
  {
    var pde := mem[PdeIndex(basePage, lin)];
    if !pde.p then NotPresent
    else
      var pte := mem[PteIndex(pde, lin)];
      if !pte.p then NotPresent else Mapped(pde, pte)
  }

  /** InitPage_CheckUseraccess */
  predicate UserForbidden(arch: Arch, pde: PageEntry, pte: PageEntry) {
    match arch
    case OldSlow486 | NewSlow486 | SlowPentium => !pte.us || !pde.us
    case _ => !pte.us && !pde.us
  }

  predicate WriteProtected(pde: PageEntry, pte: PageEntry) {
    !pte.wr || !pde.wr
  }

  /** The CPU types on which links are made so that later privilege checks are not lost. */
  predicate Catches(arch: Arch) {
    arch.Slow386? || arch.OldSlow486? || arch.NewSlow486? || arch.SlowPentium?
  }

  /** The physical page outside the page tables: the first pages can be remapped, the others are themselves. */
  function UnpagedPage(s: Paging, lin: nat): nat
    requires |s.firstmb| == LINK_START
  {
    if lin < LINK_START then s.firstmb[lin] else lin
  }

  // ----- links

  const BLANK := TlbEntry(0, 0, Init, Init, 0)

  predicate Blank(e: TlbEntry) {
    e.read == 0 && e.write == 0 && e.readHandler == Init && e.writeHandler == Init
  }

  function Blanked(e: TlbEntry): TlbEntry {
    TlbEntry(0, 0, Init, Init, e.physPage)
  }

  /** The entry PAGING_LinkPage writes. */
  function FullLink(c: Config, lin: nat, phys: nat): TlbEntry {
    var h := c.handlerOf(phys);
    TlbEntry(if h.readable then U32(h.hostRead - lin * 4096) else 0,
             if h.writeable then U32(h.hostWrite - lin * 4096) else 0,
             OfPage(phys), OfPage(phys), phys)
  }

  /** The entry PAGING_LinkPage_ReadOnly writes. */
  function ReadOnlyLink(c: Config, lin: nat, phys: nat): TlbEntry {
    var h := c.handlerOf(phys);
    TlbEntry(if h.readable then U32(h.hostRead - lin * 4096) else 0, 0, OfPage(phys), UserRO, phys)
  }

  /** Blanks the pages named in the log, first to last. */
  function BlankAll(tlb: seq<TlbEntry>, log: seq<nat>): (r: seq<TlbEntry>)
    requires forall i :: 0 <= i < |log| ==> log[i] < |tlb|
    ensures |r| == |tlb|
    ensures forall p :: 0 <= p < |tlb| ==> r[p] == if p in log then Blanked(tlb[p]) else tlb[p]
  {
    if log == [] then tlb
    else
      var last := |log| - 1;
      assert forall p :: p in log <==> p in log[..last] || p == log[last];
      var r := BlankAll(tlb, log[..last]);
      r[log[last] := Blanked(r[log[last]])]
  }

  predicate LogOk(s: Paging) {
    && |s.tlb| == TLB_SIZE && |s.links| <= PAGING_LINKS
    && forall i :: 0 <= i < |s.links| ==> s.links[i] < TLB_SIZE
  }

  function ClearTlb(s: Paging): Paging
    requires LogOk(s)
  {
    s.(tlb := BlankAll(s.tlb, s.links), links := [])
  }

  function Unlink(s: Paging, lin: nat): Paging
    requires lin < |s.tlb|
  {
    s.(tlb := s.tlb[lin := Blanked(s.tlb[lin])])
  }

  /** Stores a link, flushing first when the log is full; an impossible page ends the run. */
  function StoreLink(s: Paging, lin: nat, phys: nat, e: TlbEntry): Paging
    requires LogOk(s)
  {
    if lin >= TLB_SIZE || phys >= TLB_SIZE then s.(halted := true)
    else
      var s1 := if |s.links| >= PAGING_LINKS then ClearTlb(s) else s;
      s1.(tlb := s1.tlb[lin := e], links := s1.links + [lin])
  }

  function LinkPage(c: Config, s: Paging, lin: nat, phys: nat): Paging
    requires LogOk(s)
  {
    StoreLink(s, lin, phys, FullLink(c, lin, phys))
  }

  function LinkPageReadOnly(c: Config, s: Paging, lin: nat, phys: nat): Paging
    requires LogOk(s)
  {
    StoreLink(s, lin, phys, ReadOnlyLink(c, lin, phys))
  }

  function MapPage(c: Config, s: Paging, lin: nat, phys: nat): Paging
    requires LogOk(s) && |s.firstmb| == LINK_START
  {
    if lin < LINK_START then Unlink(s.(firstmb := s.firstmb[lin := phys]), lin)
    else LinkPage(c, s, lin, phys)
  }

  function SetDirBase(s: Paging, cr3: nat): Paging
    requires LogOk(s)
  {
    var s1 := s.(cr3 := cr3, basePage := cr3 / 4096);
    if s1.enabled then ClearTlb(s1) else s1
  }

  function Enable(s: Paging, on: bool): Paging
    requires LogOk(s)
  {
    if s.enabled == on then s
    else
      var s1 := s.(enabled := on);
      ClearTlb(if on then SetDirBase(s1, s1.cr3) else s1)
  }

  // ----- accesses

  /**
   How a page that passed the presence check is to be linked for privilege level `pl` (0 to 3):
   0 fully, 1 and 2 so that a user-level or a write check is not lost, 3 not at all.
   */
  function PrivCheck(arch: Arch, pde: PageEntry, pte: PageEntry, writing: bool, pl: nat): (r: nat)
  {
    var user :=
      if UserForbidden(arch, pde, pte) then (if pl == 3 then 3 else if Catches(arch) then 1 else 0) else 0;
    if WriteProtected(pde, pte) then
      var write := if user == 0 && Catches(arch) then 2 else user;
      if writing && pl == 3 then 3 else write
    else user
  }

  /** Write-back of the accessed and dirty bits; the table entry was read before the directory entry is written. */
  function MarkUsed(s: Paging, lin: nat, pde: PageEntry, pte: PageEntry, dirty: bool): (r: Paging)
    requires MemOk(s.mem) && s.basePage < TLB_SIZE && lin < TLB_SIZE && pde.base < TLB_SIZE
  {
    var s1 := if pde.a then s else s.(mem := s.mem[PdeIndex(s.basePage, lin) := pde.(a := true)]);
    if pte.a && pte.d then s1
    else s1.(mem := s1.mem[PteIndex(pde, lin) := pte.(a := true, d := pte.d || dirty)])
  }

  predicate Ready(s: Paging) {
    && LogOk(s) && MemOk(s.mem) && |s.firstmb| == LINK_START
    && s.basePage < TLB_SIZE && s.cr3 < 0x1_0000_0000
  }

  /** InitPageHandler::InitPage; the second result says how to relink the page after the access. */
  function InitPage(c: Config, s: Paging, lin: nat, writing: bool, pl: nat): (r: (Paging, nat))
    requires Ready(s) && lin < TLB_SIZE
  {
    if !s.enabled then (LinkPage(c, s, lin, UnpagedPage(s, lin)), 0)
    else
      match Walk(s.mem, s.basePage, lin)
      case NotPresent => (s.(halted := true), 0)
      case Mapped(pde, pte) =>
        var priv := PrivCheck(c.arch, pde, pte, writing, pl);
        if priv == 3 then (s.(halted := true), 0)
        else
          var s1 := MarkUsed(s, lin, pde, pte, writing || priv == 0);
          if priv == 0 then (LinkPage(c, s1, lin, pte.base), 0)
          else if priv == 1 then (LinkPage(c, s1, lin, pte.base), 1)
          else if writing then (LinkPage(c, s1, lin, pte.base), RelinkCode(c, lin, pte.base))
          else (LinkPageReadOnly(c, s1, lin, pte.base), 0)
  }

  /** After a privileged write: the page to relink read-only, or 1 for just unlinking. */
  function RelinkCode(c: Config, lin: nat, phys: nat): nat {
    var h := c.handlerOf(phys);
    var e := FullLink(c, lin, phys);
    if h.readable && h.writeable && e.read == e.write && phys > 1 then phys else 1
  }

  /** InitPageUpdateLink */
  function UpdateLink(c: Config, s: Paging, relink: nat, lin: nat): Paging
    requires LogOk(s) && lin < TLB_SIZE
  {
    if relink == 0 then s
    else
      var s1 := if s.links != [] && s.links[|s.links| - 1] == lin
                then Unlink(s.(links := s.links[..|s.links| - 1]), lin) else s;
      if relink > 1 then LinkPageReadOnly(c, s1, lin, relink) else s1
  }

  /** An access through an entry whose handler is that of a physical page. */
  function Through(c: Config, e: TlbEntry, address: nat, writing: bool): Outcome {
    var pointer := if writing then e.write else e.read;
    if pointer != 0 then Host(U32(pointer + address))
    else
      match if writing then e.writeHandler else e.readHandler
      case OfPage(phys) => Accessor(c, phys, address, writing)
      case _ => Exit
  }

  /** A handler's own accessor. */
  function Accessor(c: Config, phys: nat, address: nat, writing: bool): Outcome {
    if (if writing then c.handlerOf(phys).plainWrite else c.handlerOf(phys).plainRead) then Host(address)
    else Device(phys)
  }

  /** The initial handler: link, access, relink. */
  function InitAccess(c: Config, s: Paging, address: nat, writing: bool, pl: nat): (r: (Paging, Outcome))
    requires Ready(s) && address < 0x1_0000_0000
  {
    var lin := address / 4096;
    var (s1, relink) := InitPage(c, s, lin, writing, pl);
    if s1.halted then (s1, Exit)
    else (UpdateLink(c, s1, relink, lin), Through(c, s1.tlb[lin], address, writing))
  }

  /** A write through a read-only link. */
  function ReadOnlyWrite(c: Config, s: Paging, address: nat, pl: nat): (r: (Paging, Outcome))
    requires Ready(s) && address < 0x1_0000_0000
  {
    var lin := address / 4096;
    if s.enabled then
      if pl != 3 then (s, Host(U32(s.tlb[lin].read + address))) else (s.(halted := true), Exit)
    else
      var s1 := LinkPage(c, s, lin, UnpagedPage(s, lin));
      if s1.halted then (s1, Exit) else (s1, Host(U32(s1.tlb[lin].read + address)))
  }

  /** A byte access at a linear address with effective privilege level `pl`. */
  function Access(c: Config, s: Paging, address: nat, writing: bool, pl: nat): (r: (Paging, Outcome))
    requires Ready(s) && address < 0x1_0000_0000
  {
    var e := s.tlb[address / 4096];
    if (if writing then e.write else e.read) != 0 then (s, Through(c, e, address, writing))
    else
      match if writing then e.writeHandler else e.readHandler
      case Init => InitAccess(c, s, address, writing, pl)
      case UserRO => ReadOnlyWrite(c, s, address, pl)
      case OfPage(_) => (s, Through(c, e, address, writing))
  }

  function NotPresentError(writing: bool, pl: nat): nat {
    (if writing then 2 else 0) + (if pl == 0 then 0 else 4)
  }

  function DeniedError(writing: bool): nat {
    5 + if writing then 2 else 0
  }

  /** The same access in its checked form, which reports faults instead of raising them. */
  function CheckedAccess(c: Config, s: Paging, address: nat, writing: bool, pl: nat): (r: (Paging, Outcome))
    requires Ready(s) && address < 0x1_0000_0000
  {
    var lin := address / 4096;
    var e := s.tlb[lin];
    if (if writing then e.write else e.read) != 0 then (s, Through(c, e, address, writing))
    else
      match if writing then e.writeHandler else e.readHandler
      case OfPage(_) => (s, Through(c, e, address, writing))
      case Init =>
        if !s.enabled then
          var s1 := LinkPage(c, s, lin, UnpagedPage(s, lin));
          if s1.halted then (s1, Exit) else (s1, Through(c, s1.tlb[lin], address, writing))
        else
          (match Walk(s.mem, s.basePage, lin)
           case NotPresent => (s, Fault(NotPresentError(writing, pl)))
           case Mapped(pde, pte) =>
             if pl == 3 && (UserForbidden(c.arch, pde, pte) || (WriteProtected(pde, pte) && writing))
             then (s, Fault(DeniedError(writing)))
             else InitAccess(c, s, address, writing, pl))
      case UserRO =>
        if !s.enabled then
          var s1 := LinkPage(c, s, lin, UnpagedPage(s, lin));
          if s1.halted then (s1, Exit) else (s1, Host(U32(s1.tlb[lin].write + address)))
        else if pl != 3 then (s, Host(U32(e.read + address)))
        else
          match Walk(s.mem, s.basePage, lin)
          case NotPresent => (s, Fault(NotPresentError(true, pl)))
          case Mapped(pde, pte) =>
            if UserForbidden(c.arch, pde, pte) || WriteProtected(pde, pte) then (s, Fault(DeniedError(true)))
            else
              var s1 := LinkPage(c, s, lin, pte.base);
              if s1.halted then (s1, Exit) else (s1, Host(U32(s1.tlb[lin].write + address)))
  }

  /** PAGING_MakePhysPage: the translation without the cache. */
  datatype Translation = NoPage | Frame(page: nat)

  function MakePhysPage(s: Paging, lin: nat): Translation
    requires Ready(s) && lin < TLB_SIZE
  {
    if s.enabled then
      match Walk(s.mem, s.basePage, lin)
      case NotPresent => NoPage
      case Mapped(_, pte) => Frame(pte.base)
    else Frame(UnpagedPage(s, lin))
  }

  // ----- the reference: every access walks the tables

  function Reference(c: Config, s: Paging, address: nat, writing: bool, pl: nat): Outcome
    requires Ready(s) && address < 0x1_0000_0000
  {
    var lin := address / 4096;
    if !s.enabled then
      if UnpagedPage(s, lin) >= TLB_SIZE then Exit
      else Through(c, FullLink(c, lin, UnpagedPage(s, lin)), address, writing)
    else
      match Walk(s.mem, s.basePage, lin)
      case NotPresent => Fault(NotPresentError(writing, pl))
      case Mapped(pde, pte) =>
        if pl == 3 && (UserForbidden(c.arch, pde, pte) || (WriteProtected(pde, pte) && writing))
        then Fault(DeniedError(writing))
        else Through(c, FullLink(c, lin, pte.base), address, writing)
  }

  // ----- the invariant

  /** The link is one the walk allows for every privilege level, as far as it goes. */
  predicate LinkAllowed(c: Config, s: Paging, lin: nat)
    requires Ready(s) && lin < TLB_SIZE
  {
    var e := s.tlb[lin];
    if !s.enabled then
      UnpagedPage(s, lin) < TLB_SIZE && e == FullLink(c, lin, UnpagedPage(s, lin))
    else
      match Walk(s.mem, s.basePage, lin)
      case NotPresent => false
      case Mapped(pde, pte) =>
        && !UserForbidden(c.arch, pde, pte)
        && (if WriteProtected(pde, pte) then e == ReadOnlyLink(c, lin, pte.base) else e == FullLink(c, lin, pte.base))
  }

  /** Every entry is blank, or logged and allowed. */
  predicate Coherent(c: Config, s: Paging) {
    && Ready(s)
    && forall lin :: 0 <= lin < TLB_SIZE ==> Blank(s.tlb[lin]) || (lin in s.links && LinkAllowed(c, s, lin))
  }
}
