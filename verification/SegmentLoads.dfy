/** What a segment register holds after a load, and what a refused load reports. */
module SegmentLoads {
  import opened Bits
  import opened CpuState
  import opened StraightTransfers
  import opened DescriptorLayout
  import opened TaskReturns
  import opened Words

  /** The linear base a register gets: FS keeps the host's, an empty one is at zero, and the table says the rest. */
  function LoadedBase(x: Cpu, name: SegName, v: word): dword {
    if !RealLike(x) && !name.SS? && v < 4 then 0
    else if name.FS? then x.fsBase
    else if RealLike(x) then 16 * v
    else BaseBytes(x.mem, TableEntry(x, v))
  }

  lemma SegmentGetsBase(x: Cpu, name: SegName, v: word)
    requires SetSegGeneral(x, name, v).Done? && Loadable(x, name, v)
    ensures var y := SetSegGeneral(x, name, v).s;
            && GetSeg(y, name) == Segment(v, LoadedBase(x, name, v))
            && (name.SS? ==> y.stackBig == (!RealLike(x) && ReadB(x.mem, TableEntry(x, v) + 6) / 0x40 % 2 == 1))
            && (forall other :: other != name && other != FS ==> GetSeg(y, other) == GetSeg(x, other))
            && GetSeg(y, FS).val == if name.FS? then v else x.fs.val
  {
    hide Lookup, InTable, Bit, ReadB, BaseBytes, TableEntry, Descriptor.Type, Descriptor.DPL, Descriptor.Present, Descriptor.Base,
      Descriptor.Big;
    if !RealLike(x) && InTable(x, v) {
      InTableLookup(x, v);
      SegmentLayout(x.mem, TableEntry(x, v));
    }
  }

  lemma InTableLookup(x: Cpu, v: word)
    requires InTable(x, v)
    ensures Lookup(x, v) == LoadDescriptor(x.mem, TableEntry(x, v))
  {
    hide LoadDescriptor;
    assert EntryAddress(x, v) == TableEntry(x, v);
  }

  /** Its type and level let the current level load it as data. */
  predicate DataAllowed(x: Cpu, v: word) {
    var d := Lookup(x, v);
    && InTable(x, v)
    && (d.Type() == 0x1e || d.Type() == 0x1f
        || ((0x10 <= d.Type() <= 0x17 || d.Type() == 0x1a || d.Type() == 0x1b) && Rpl(v) <= d.DPL() && x.cpl <= d.DPL()))
  }

  /** A refused load changes no register: it notes the exception, with the selector as its code. */
  lemma RefusedLoadReports(x: Cpu, name: SegName, v: word)
    requires SetSegGeneral(x, name, v).Done? && !Loadable(x, name, v)
    ensures SetSegGeneral(x, name, v).s
            == x.(error := v / 4 * 4,
                  which := if name.SS? then (if IsWritableData(Lookup(x, v).Type()) then SSF else GP)
                           else if DataAllowed(x, v) then NP else GP)
  {
    hide Lookup, InTable, Bit, Descriptor.Type, Descriptor.DPL, Descriptor.Present, Descriptor.Base, Descriptor.Big;
  }

  /** The table that an LDT selector names, by the bytes of its descriptor; a null selector empties it. */
  lemma LdtGetsTable(x: Cpu, sel: word)
    ensures var y, a := LoadLdt(x, sel), TableEntry(x, sel);
            if sel < 4 then y == x.(ldt := Table(0, 0), ldtValue := 0)
            else if InTable(x, sel) && ReadB(x.mem, a + 5) % 0x20 == 2 && ReadB(x.mem, a + 5) >= 0x80 then
              y == x.(ldt := Table(BaseBytes(x.mem, a), LimitBytes(x.mem, a)), ldtValue := sel)
            else y == x.(error := sel, which := if InTable(x, sel) && ReadB(x.mem, a + 5) % 0x20 == 2 then NP else GP)
  {
    hide Lookup, InTable, ReadB, BaseBytes, LimitBytes, TableEntry, Descriptor.Type, Descriptor.Present, Descriptor.Base,
      Descriptor.Limit;
    if InTable(x, sel) {
      InTableLookup(x, sel);
      SegmentLayout(x.mem, TableEntry(x, sel));
    }
  }
}
