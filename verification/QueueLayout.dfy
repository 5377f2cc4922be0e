/** Where the three parts of a split virtqueue lie in memory. */
module QueueLayout {
  import opened RingIndices

  const PAGE_SIZE := 4096

  datatype Parts = Parts(desc: nat, avail: nat, used: nat)

  /** Sizes in bytes: 16 per descriptor; 2 per available entry and 8 per used entry, and three indices each. */
  function PartSizes(n: nat): Parts {
    Parts(16 * n, 2 * (3 + n), 2 * 3 + 8 * n)
  }

  /** Where entry `k` lies, after flags and index of two bytes each: section 2.6 of VirtIO v1.1. */
  function AvailEntry(k: nat): nat {
    2 + 2 + 2 * k
  }

  /** A used entry is an id and a length of four bytes each. */
  function UsedEntry(k: nat): nat {
    2 + 2 + (4 + 4) * k
  }

  /** A descriptor is an address of eight bytes, a length of four, flags and a successor of two each. */
  function DescriptorAt(k: nat): nat {
    (8 + 4 + 2 + 2) * k
  }

  /** Each part holds its entries and, after them, the event index of the other side, and nothing else. */
  lemma PartsHoldEntries(n: nat)
    ensures var p := PartSizes(n);
            p.desc == DescriptorAt(n) && p.avail == AvailEntry(n) + 2 && p.used == UsedEntry(n) + 2
  {
  }

  /** `(size + PAGE_SIZE) & !(PAGE_SIZE - 1)` */
  function AlignUp(size: nat): nat {
    (size + PAGE_SIZE) / PAGE_SIZE * PAGE_SIZE
  }

  function Pages(size: nat): nat {
    (size + PAGE_SIZE - 1) / PAGE_SIZE
  }

  /** Rounding up as section 2.6.2 of VirtIO v1.1 defines it. */
  function StandardAlign(size: nat): nat {
    (size + PAGE_SIZE - 1) / PAGE_SIZE * PAGE_SIZE
  }

  /** Offsets of the areas in the region that holds them, and the sizes of the regions. */
  datatype Layout =
    | Legacy(avail: nat, used: nat, pages: nat)
    | Modern(avail: nat, driverPages: nat, devicePages: nat)

  function AllocateLegacy(n: nat): Layout {
    var p := PartSizes(n);
    Legacy(p.desc, AlignUp(p.desc + p.avail), (AlignUp(p.desc + p.avail) + AlignUp(p.used)) / PAGE_SIZE)
  }

  function AllocateFlexible(n: nat): Layout {
    var p := PartSizes(n);
    Modern(p.desc, Pages(p.desc + p.avail), Pages(p.used))
  }

  /** `align_up` rounds up to a page except that it adds a page to sizes that are already whole. */
  lemma AlignUpExactly(size: nat)
    ensures AlignUp(size) == StandardAlign(size) <==> size % PAGE_SIZE != 0
    ensures size % PAGE_SIZE == 0 ==> AlignUp(size) == size + PAGE_SIZE
  {
  }

  lemma PowerOddOrEven(n: nat)
    requires IsPowerOfTwo(n)
    ensures n == 1 || n % 2 == 0
  {
  }

  /** No queue size makes the sizes that are rounded up whole pages. */
  lemma NeverWholePages(n: nat)
    requires IsPowerOfTwo(n)
    ensures (18 * n + 6) % PAGE_SIZE != 0 && (8 * n + 6) % PAGE_SIZE != 0
  {
    PowerOddOrEven(n);
    if n % 2 == 0 {
      var half := n / 2;
      assert 18 * n + 6 == 4 * (9 * half + 1) + 2;
      NotWhole(9 * half + 1);
      assert 8 * n + 6 == 4 * (2 * n + 1) + 2;
      NotWhole(2 * n + 1);
    }
  }

  lemma NotWhole(k: nat)
    ensures (4 * k + 2) % PAGE_SIZE != 0
  {
    var q := (4 * k + 2) / PAGE_SIZE;
    assert (4 * k + 2) % PAGE_SIZE == 4 * k + 2 - 4 * (1024 * q);
  }

  /** The legacy layout is the one section 2.6.2 of VirtIO v1.1 prescribes. */
  lemma LegacyMeetsStandard(n: nat)
    requires IsQueueSize(n)
    ensures var p, l := PartSizes(n), AllocateLegacy(n);
            && l.used == StandardAlign(p.desc + p.avail)
            && l.pages * PAGE_SIZE == StandardAlign(p.desc + p.avail) + StandardAlign(p.used)
  {
    NeverWholePages(n);
    AlignUpExactly(18 * n + 6);
    AlignUpExactly(8 * n + 6);
    WholePages(AlignUp(18 * n + 6) / PAGE_SIZE, AlignUp(8 * n + 6) / PAGE_SIZE);
  }

  lemma WholePages(a: nat, b: nat)
    ensures (a * PAGE_SIZE + b * PAGE_SIZE) / PAGE_SIZE == a + b
  {
  }

  lemma AlignUpBounds(size: nat)
    ensures size < AlignUp(size) <= size + PAGE_SIZE && AlignUp(size) % 4 == 0
  {
    var k := (size + PAGE_SIZE) / PAGE_SIZE;
    assert AlignUp(size) == 4 * (1024 * k);
  }

  /** Legacy: the areas are aligned to 16, 2 and 4, follow each other, and lie in the allocated pages. */
  lemma LegacyFits(n: nat)
    requires IsQueueSize(n)
    ensures var p, l := PartSizes(n), AllocateLegacy(n);
            && 0 + p.desc <= l.avail && l.avail + p.avail <= l.used && l.used + p.used <= l.pages * PAGE_SIZE
            && l.avail % 2 == 0 && l.used % 4 == 0
  {
    var p := PartSizes(n);
    AlignUpBounds(p.desc + p.avail);
    AlignUpBounds(p.used);
    WholePages((p.desc + p.avail + PAGE_SIZE) / PAGE_SIZE, (p.used + PAGE_SIZE) / PAGE_SIZE);
  }

  /** Flexible: the same within the driver's region, and the used area has a region of its own. */
  lemma FlexibleFits(n: nat)
    requires IsQueueSize(n)
    ensures var p, l := PartSizes(n), AllocateFlexible(n);
            && 0 + p.desc <= l.avail && l.avail + p.avail <= l.driverPages * PAGE_SIZE < l.avail + p.avail + PAGE_SIZE
            && p.used <= l.devicePages * PAGE_SIZE < p.used + PAGE_SIZE
            && l.avail % 2 == 0
  {
  }
}
