/**
 The banked TLB of builds without the full one: 65536 entries in the first table and fifteen banks
 of as many, found by get_tlb_entry.
 */
module TlbBanks {
  import opened CpuState
  import opened Words

  datatype Slot = Main(index: nat) | Bank(bank: nat, index: nat)

  /** get_tlb_entry: a page past the first table's size goes to the bank of its top four bits, less one. */
  function SlotOf(address: dword): Slot {
    var index := address / 0x1000;
    if index > 0x1_0000 then Bank(address / 0x1000_0000 - 1, index % 0x1_0000) else Main(index)
  }

  predicate InBounds(s: Slot) {
    match s
    case Main(index) => index < 0x1_0000
    case Bank(bank, index) => bank < 15 && index < 0x1_0000
  }

  /** The comparison lets one page through: page 65536 is looked up just past the first table. */
  lemma InBoundsIff(address: dword)
    ensures InBounds(SlotOf(address)) <==> address / 0x1000 != 0x1_0000
  {
    var index := address / 0x1000;
    if index > 0x1_0000 {
      assert address / 0x1000_0000 == index / 0x1_0000;
    }
  }

  /** The page whose entry a slot is. */
  function PageOf(s: Slot): nat {
    match s
    case Main(index) => index
    case Bank(bank, index) => (bank + 1) * 0x1_0000 + index
  }

  /** No two pages share an entry. */
  lemma SlotsAreDistinct(a: dword, b: dword)
    ensures PageOf(SlotOf(a)) == a / 0x1000
    ensures SlotOf(a) == SlotOf(b) ==> a / 0x1000 == b / 0x1000
  {
    SlotPage(a);
    SlotPage(b);
  }

  lemma SlotPage(a: dword)
    ensures PageOf(SlotOf(a)) == a / 0x1000
  {
    var index := a / 0x1000;
    assert a / 0x1000_0000 == index / 0x1_0000;
  }
}
