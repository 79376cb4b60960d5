/**
 The paging block: TLB table, link log and page tables, updated in place.  Every method takes the
 abstract state to the state the function of the same name in SoftTlb gives.
 */
module PagingUnit {
  import opened SoftTlb
  import TlbProofs
  import opened Words

  class PagingBlock {
    const config: Config
    var enabled: bool
    var cr3: nat
    var basePage: nat
    const firstmb: array<nat>
    const tlb: array<TlbEntry>
    const entries: array<nat>
    var used: nat
    const mem: array<PageEntry>
    var halted: bool

    ghost predicate Allocated()
      reads this
    {
      firstmb.Length == LINK_START && tlb.Length == TLB_SIZE && entries.Length == PAGING_LINKS >= used
      && mem.Length == MEMORY_WORDS && entries != firstmb
    }

    ghost function View(): Paging
      requires Allocated()
      reads this, firstmb, tlb, entries, mem
    {
      Paging(enabled, cr3, basePage, firstmb[..], tlb[..], entries[..used], mem[..], halted)
    }

    ghost predicate Valid()
      reads this, firstmb, tlb, entries, mem
    {
      Allocated() && Ready(View())
    }

    /** PAGING_Init: paging off, nothing linked, the first pages mapped to themselves. */
    constructor (config: Config)
      ensures Valid() && TlbProofs.Initial(View()) && this.config == config
      ensures fresh(firstmb) && fresh(tlb) && fresh(entries) && fresh(mem)
    {
      this.config := config;
      enabled, cr3, basePage, used, halted := false, 0, 0, 0, false;
      firstmb := new nat[LINK_START](i => i);
      tlb := new TlbEntry[TLB_SIZE](_ => BLANK);
      entries := new nat[PAGING_LINKS](_ => 0);
      mem := new PageEntry[MEMORY_WORDS](_ => PageEntry(false, false, false, false, false, 0, 0));
    }

    /** PAGING_ClearTLB */
    method ClearTlb()
      requires Valid()
      modifies this`used, tlb
      ensures Valid() && View() == SoftTlb.ClearTlb(old(View()))
    {
      ghost var n, log := used, entries[..used];
      var next := 0;
      while used > 0
        invariant 0 <= next <= n && used == n - next
        invariant tlb[..] == BlankAll(old(tlb[..]), log[..next])
      {
        var page := entries[next];
        assert page == log[next] && log[..next + 1][..next] == log[..next];
        next := next + 1;
        tlb[page] := Blanked(tlb[page]);
        used := used - 1;
      }
      assert log[..next] == log;
    }

    /** PAGING_UnlinkPages */
    method UnlinkPages(linPage: nat, pages: nat)
      requires Valid() && linPage + pages <= TLB_SIZE
      modifies tlb
      ensures Valid() && View() == old(View()).(tlb := tlb[..])
      ensures forall p :: 0 <= p < TLB_SIZE ==>
                tlb[p] == if linPage <= p < linPage + pages then Blanked(old(tlb[p])) else old(tlb[p])
    {
      var lin, n := linPage, pages;
      while n > 0
        invariant 0 <= n <= pages && lin == linPage + pages - n
        invariant forall p :: 0 <= p < TLB_SIZE ==>
                    tlb[p] == if linPage <= p < lin then Blanked(old(tlb[p])) else old(tlb[p])
      {
        tlb[lin] := Blanked(tlb[lin]);
        lin, n := lin + 1, n - 1;
      }
    }

    method LinkPage(lin: nat, phys: nat)
      requires Valid()
      modifies this`used, this`halted, tlb, entries
      ensures Valid() && View() == SoftTlb.LinkPage(config, old(View()), lin, phys)
    {
      hide BlankAll;
      var handler := config.handlerOf(phys);
      var linBase := lin * 4096;
      if lin >= TLB_SIZE || phys >= TLB_SIZE {
        halted := true;
        return;
      }
      if used >= PAGING_LINKS {
        ClearTlb();
      }
      var read := if handler.readable then U32(handler.hostRead - linBase) else 0;
      var write := if handler.writeable then U32(handler.hostWrite - linBase) else 0;
      entries[used] := lin;
      used := used + 1;
      tlb[lin] := TlbEntry(read, write, OfPage(phys), OfPage(phys), phys);
    }

    method LinkPageReadOnly(lin: nat, phys: nat)
      requires Valid()
      modifies this`used, this`halted, tlb, entries
      ensures Valid() && View() == SoftTlb.LinkPageReadOnly(config, old(View()), lin, phys)
    {
      hide BlankAll;
      var handler := config.handlerOf(phys);
      var linBase := lin * 4096;
      if lin >= TLB_SIZE || phys >= TLB_SIZE {
        halted := true;
        return;
      }
      if used >= PAGING_LINKS {
        ClearTlb();
      }
      var read := if handler.readable then U32(handler.hostRead - linBase) else 0;
      entries[used] := lin;
      used := used + 1;
      tlb[lin] := TlbEntry(read, 0, OfPage(phys), UserRO, phys);
    }

    method MapPage(lin: nat, phys: nat)
      requires Valid()
      modifies this`used, this`halted, tlb, entries, firstmb
      ensures Valid() && View() == SoftTlb.MapPage(config, old(View()), lin, phys)
    {
      hide StoreLink;
      if lin < LINK_START {
        firstmb[lin] := phys;
        tlb[lin] := Blanked(tlb[lin]);
      } else {
        LinkPage(lin, phys);
      }
    }

    method SetDirBase(newCr3: nat)
      requires Valid() && newCr3 < 0x1_0000_0000
      modifies this`cr3, this`basePage, this`used, tlb
      ensures Valid() && View() == SoftTlb.SetDirBase(old(View()), newCr3)
    {
      hide BlankAll;
      cr3 := newCr3;
      basePage := newCr3 / 4096;
      if enabled {
        ClearTlb();
      }
    }

    method Enable(on: bool)
      requires Valid()
      modifies this`enabled, this`cr3, this`basePage, this`used, tlb
      ensures Valid() && View() == SoftTlb.Enable(old(View()), on)
    {
      hide BlankAll;
      if enabled == on {
        return;
      }
      enabled := on;
      if on {
        SetDirBase(cr3);
      }
      ClearTlb();
    }

    /** PAGING_MakePhysPage */
    method MakePhysPage(lin: nat) returns (ok: bool, page: nat)
      requires Valid() && lin < TLB_SIZE
      ensures SoftTlb.MakePhysPage(View(), lin) == if ok then Frame(page) else NoPage
    {
      page := lin;
      if enabled {
        var dIndex, tIndex := lin / 1024, lin % 1024;
        var table := mem[basePage * 1024 + dIndex];
        if !table.p {
          return false, page;
        }
        assert MemOk(mem[..]) && mem[..][basePage * 1024 + dIndex] == table;
        var entry := mem[table.base * 1024 + tIndex];
        if !entry.p {
          return false, page;
        }
        page := entry.base;
      } else if lin < LINK_START {
        page := firstmb[lin];
      }
      return true, page;
    }

    /** The presence check; without success the walk found no page. */
    method CheckPresence(lin: nat) returns (ok: bool, table: PageEntry, entry: PageEntry)
      requires Valid() && lin < TLB_SIZE
      ensures Walk(mem[..], basePage, lin) == if ok then Mapped(table, entry) else NotPresent
    {
      table := mem[basePage * 1024 + lin / 1024];
      entry := table;
      if !table.p {
        return false, table, entry;
      }
      assert MemOk(mem[..]) && mem[..][basePage * 1024 + lin / 1024] == table;
      entry := mem[table.base * 1024 + lin % 1024];
      return entry.p, table, entry;
    }

    /** InitPageHandler::InitPage; returns how the page is to be relinked after the access. */
    method InitPage(lin: nat, writing: bool, pl: nat) returns (relink: nat)
      requires Valid() && lin < TLB_SIZE
      modifies this`used, this`halted, tlb, entries, mem
      ensures Valid() && (View(), relink) == SoftTlb.InitPage(config, old(View()), lin, writing, pl)
    {
      hide StoreLink, Walk;
      if enabled {
        var ok, table, entry := CheckPresence(lin);
        if !ok {
          halted := true;
          return 0;
        }
        var priv := Privilege(table, entry, writing, pl);
        if priv == 3 {
          halted := true;
          return 0;
        }
        MarkUsed(lin, table, entry, writing || priv == 0);
        var phys := entry.base;
        if priv == 0 {
          LinkPage(lin, phys);
        } else if priv == 1 {
          LinkPage(lin, phys);
          return 1;
        } else if writing {
          LinkPage(lin, phys);
          return RelinkCode(config, lin, phys);
        } else {
          LinkPageReadOnly(lin, phys);
        }
      } else {
        LinkPage(lin, if lin < LINK_START then firstmb[lin] else lin);
      }
      return 0;
    }

    method Privilege(table: PageEntry, entry: PageEntry, writing: bool, pl: nat) returns (priv: nat)
      ensures priv == PrivCheck(config.arch, table, entry, writing, pl)
    {
      priv := 0;
      if UserForbidden(config.arch, table, entry) {
        if pl == 3 {
          priv := 3;
        } else if Catches(config.arch) {
          priv := 1;
        }
      }
      if !entry.wr || !table.wr {
        if priv == 0 && Catches(config.arch) {
          priv := 2;
        }
        if writing && pl == 3 {
          priv := 3;
        }
      }
    }

    /** Accessed and dirty write-back. */
    method MarkUsed(lin: nat, table: PageEntry, entry: PageEntry, dirty: bool)
      requires Valid() && lin < TLB_SIZE && Walk(mem[..], basePage, lin) == Mapped(table, entry)
      modifies mem
      ensures Valid() && View() == SoftTlb.MarkUsed(old(View()), lin, table, entry, dirty)
    {
      if !table.a {
        mem[basePage * 1024 + lin / 1024] := table.(a := true);
      }
      if !entry.a || !entry.d {
        mem[table.base * 1024 + lin % 1024] := entry.(a := true, d := entry.d || dirty);
      }
    }

    /** InitPageUpdateLink */
    method UpdateLink(relink: nat, lin: nat)
      requires Valid() && lin < TLB_SIZE
      modifies this`used, this`halted, tlb, entries
      ensures Valid() && View() == SoftTlb.UpdateLink(config, old(View()), relink, lin)
    {
      hide StoreLink;
      if relink == 0 {
        return;
      }
      ghost var s := View();
      if used > 0 {
        if entries[used - 1] == lin {
          used := used - 1;
          UnlinkPages(lin, 1);
          assert entries[..used] == s.links[..|s.links| - 1];
          assert tlb[..] == s.tlb[lin := Blanked(s.tlb[lin])];
        }
      }
      if relink > 1 {
        LinkPageReadOnly(lin, relink);
      }
    }

    /** A byte access: where it goes. */
    method Access(address: nat, writing: bool, pl: nat) returns (o: Outcome)
      requires Valid() && address < 0x1_0000_0000
      modifies this`used, this`halted, tlb, entries, mem
      ensures Valid() && (View(), o) == SoftTlb.Access(config, old(View()), address, writing, pl)
    {
      hide StoreLink, InitAccess, Through;
      var lin := address / 4096;
      var e := tlb[lin];
      if (if writing then e.write else e.read) != 0 {
        return Through(config, e, address, writing);
      }
      match if writing then e.writeHandler else e.readHandler
      case OfPage(_) =>
        return Through(config, e, address, writing);
      case Init =>
        o := InitialAccess(address, writing, pl);
      case UserRO =>
        if enabled {
          if pl == 3 {
            halted := true;
            return Exit;
          }
        } else {
          LinkPage(lin, if lin < LINK_START then firstmb[lin] else lin);
          if halted {
            return Exit;
          }
        }
        return Host(U32(tlb[lin].read + address));
    }

    /** A byte access that reports a fault instead of raising it. */
    method CheckedAccess(address: nat, writing: bool, pl: nat) returns (o: Outcome)
      requires Valid() && address < 0x1_0000_0000
      modifies this`used, this`halted, tlb, entries, mem
      ensures Valid() && (View(), o) == SoftTlb.CheckedAccess(config, old(View()), address, writing, pl)
    {
      hide StoreLink, InitAccess, Through, Walk;
      var lin := address / 4096;
      var e := tlb[lin];
      if (if writing then e.write else e.read) != 0 {
        return Through(config, e, address, writing);
      }
      match if writing then e.writeHandler else e.readHandler
      case OfPage(_) =>
        return Through(config, e, address, writing);
      case Init =>
        if enabled {
          var ok, table, entry := CheckPresence(lin);
          if !ok {
            return Fault(NotPresentError(writing, pl));
          }
          if pl == 3 && (UserForbidden(config.arch, table, entry) || ((!entry.wr || !table.wr) && writing)) {
            return Fault(DeniedError(writing));
          }
          o := InitialAccess(address, writing, pl);
        } else {
          LinkPage(lin, if lin < LINK_START then firstmb[lin] else lin);
          if halted {
            return Exit;
          }
          return Through(config, tlb[lin], address, writing);
        }
      case UserRO =>
        if enabled {
          if pl != 3 {
            return Host(U32(tlb[lin].read + address));
          }
          var ok, table, entry := CheckPresence(lin);
          if !ok {
            return Fault(NotPresentError(true, pl));
          }
          if UserForbidden(config.arch, table, entry) || !entry.wr || !table.wr {
            return Fault(DeniedError(true));
          }
          LinkPage(lin, entry.base);
        } else {
          LinkPage(lin, if lin < LINK_START then firstmb[lin] else lin);
        }
        if halted {
          return Exit;
        }
        return Host(U32(tlb[lin].write + address));
    }

    /** InitPageHandler's accessors: link, access, relink. */
    method InitialAccess(address: nat, writing: bool, pl: nat) returns (o: Outcome)
      requires Valid() && address < 0x1_0000_0000
      modifies this`used, this`halted, tlb, entries, mem
      ensures Valid() && (View(), o) == InitAccess(config, old(View()), address, writing, pl)
    {
      hide StoreLink, SoftTlb.InitPage, SoftTlb.UpdateLink, Through;
      var lin := address / 4096;
      var relink := InitPage(lin, writing, pl);
      if halted {
        return Exit;
      }
      o := Through(config, tlb[lin], address, writing);
      UpdateLink(relink, lin);
    }
  }
}
