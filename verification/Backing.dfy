/**
 The memory backing a 3D resource: runs of physical pages, coalesced as page tables are updated.
 */
module Backing {

  const PAGE_SIZE := 4096
  const U32_LIMIT := 0x1_0000_0000

  datatype PageSize = Page4K | Page64K | Unknown

  datatype Pte = Pte(valid: bool, segment: nat, size: PageSize, pageAddress: nat)

  datatype MemEntry = MemEntry(addr: nat, length: nat)

  function Length(p: Pte): nat {
    match p.size
    case Page4K => 4 * 1024
    case Page64K => 64 * 1024
    case Unknown => 0
  }

  function Entry(p: Pte): MemEntry {
    MemEntry(p.pageAddress * PAGE_SIZE, Length(p))
  }

  /** The entries adjoin and their joint length fits in 32 bits. */
  predicate Mergeable(a: MemEntry, b: MemEntry) {
    a.addr + a.length == b.addr && a.length + b.length < U32_LIMIT
  }

  function Merged(a: MemEntry, b: MemEntry): MemEntry {
    MemEntry(a.addr, a.length + b.length)
  }

  // ----- The bytes behind a list of entries ---------------------------------------------------

  function Bytes(addr: nat, length: nat): (r: seq<nat>)
    ensures |r| == length
  {
    if length == 0 then [] else Bytes(addr, length - 1) + [addr + length - 1]
  }

  /** The addresses of the backing bytes, in order. */
  function Expand(entries: seq<MemEntry>): seq<nat> {
    if entries == [] then []
    else
      var last := entries[|entries| - 1];
      Expand(entries[..|entries| - 1]) + Bytes(last.addr, last.length)
  }

  function Entries(pages: seq<Pte>): (r: seq<MemEntry>)
    ensures |r| == |pages| && forall i | 0 <= i < |r| :: r[i] == Entry(pages[i])
  {
    seq(|pages|, i requires 0 <= i < |pages| => Entry(pages[i]))
  }

  function Total(entries: seq<MemEntry>): nat {
    if entries == [] then 0 else Total(entries[..|entries| - 1]) + entries[|entries| - 1].length
  }

  predicate LengthFits(entries: seq<MemEntry>, i: nat) {
    i < |entries| ==> entries[i].length < 0x1_0000_0000
  }

  /** The lengths of the entries have 32 bits. */
  ghost predicate FitsU32(entries: seq<MemEntry>) {
    forall i: nat :: LengthFits(entries, i)
  }

  predicate SplitAt(entries: seq<MemEntry>, i: nat) {
    i + 1 < |entries| ==> !Mergeable(entries[i], entries[i + 1])
  }

  /** No two neighbours could still be merged. */
  ghost predicate Coalesced(entries: seq<MemEntry>) {
    forall i: nat :: SplitAt(entries, i)
  }

  lemma {:induction false} BytesJoin(addr: nat, a: nat, b: nat)
    ensures Bytes(addr, a) + Bytes(addr + a, b) == Bytes(addr, a + b)
  {
    if b > 0 {
      BytesJoin(addr, a, b - 1);
      assert Bytes(addr, a) + Bytes(addr + a, b) == Bytes(addr, a) + Bytes(addr + a, b - 1) + [addr + a + b - 1];
    }
  }

  lemma Associative(x: seq<nat>, y: seq<nat>, z: seq<nat>)
    ensures (x + y) + z == x + (y + z)
  {
  }

  lemma {:induction false} ExpandConcat(a: seq<MemEntry>, b: seq<MemEntry>)
    ensures Expand(a + b) == Expand(a) + Expand(b)
  {
    if b == [] {
      assert a + b == a && Expand(b) == [];
    } else {
      var i, all := |b| - 1, a + b;
      ExpandConcat(a, b[..i]);
      assert all != [] && all[..|all| - 1] == a + b[..i] && all[|all| - 1] == b[i];
      assert Expand(all) == Expand(a + b[..i]) + Bytes(b[i].addr, b[i].length);
      Associative(Expand(a), Expand(b[..i]), Bytes(b[i].addr, b[i].length));
    }
  }

  lemma TotalConcat(a: seq<MemEntry>, b: seq<MemEntry>)
    ensures Total(a + b) == Total(a) + Total(b)
  {
    ExpandConcat(a, b);
    ExpandTotal(a);
    ExpandTotal(b);
    ExpandTotal(a + b);
  }

  lemma {:induction false} ExpandTotal(entries: seq<MemEntry>)
    ensures |Expand(entries)| == Total(entries)
  {
    if entries != [] {
      ExpandTotal(entries[..|entries| - 1]);
    }
  }

  // ----- Appending one entry ------------------------------------------------------------------

  /** Append `e`, growing the last entry when the two can be merged. */
  function Appended(entries: seq<MemEntry>, e: MemEntry): seq<MemEntry> {
    var n := |entries|;
    if n > 0 && Mergeable(entries[n - 1], e) then entries[..n - 1] + [Merged(entries[n - 1], e)] else entries + [e]
  }

  lemma AppendedExpand(entries: seq<MemEntry>, e: MemEntry)
    ensures Expand(Appended(entries, e)) == Expand(entries) + Bytes(e.addr, e.length)
    ensures Total(Appended(entries, e)) == Total(entries) + e.length
  {
    var n := |entries|;
    if n > 0 && Mergeable(entries[n - 1], e) {
      var last, m := entries[n - 1], Merged(entries[n - 1], e);
      BytesJoin(last.addr, last.length, e.length);
      assert (entries[..n - 1] + [m])[..n - 1] == entries[..n - 1];
      assert Expand(entries[..n - 1]) + Bytes(m.addr, m.length) == Expand(entries) + Bytes(e.addr, e.length);
    } else {
      assert (entries + [e])[..n] == entries;
    }
  }

  lemma AppendedCoalesced(entries: seq<MemEntry>, e: MemEntry)
    requires Coalesced(entries)
    ensures Coalesced(Appended(entries, e))
  {
    forall i: nat ensures SplitAt(Appended(entries, e), i) {
      assert SplitAt(entries, i);
    }
  }

  lemma AppendedFits(entries: seq<MemEntry>, e: MemEntry)
    requires FitsU32(entries) && e.length < 0x1_0000_0000
    ensures FitsU32(Appended(entries, e))
  {
    forall i: nat ensures LengthFits(Appended(entries, e), i) {
      assert LengthFits(entries, i);
    }
  }

  lemma ConcatFits(a: seq<MemEntry>, b: seq<MemEntry>)
    requires FitsU32(a) && FitsU32(b)
    ensures FitsU32(a + b)
  {
    forall i: nat ensures LengthFits(a + b, i) {
      assert LengthFits(a, i) && (i >= |a| ==> LengthFits(b, i - |a|));
    }
  }

  // ----- The operation ------------------------------------------------------------------------

  predicate AllValid(pages: seq<Pte>) {
    forall i | 0 <= i < |pages| :: pages[i].valid
  }

  /** What the code asserts of pages it is about to attach. */
  predicate Attachable(pages: seq<Pte>) {
    forall i | 0 <= i < |pages| :: pages[i].size != Unknown && pages[i].segment == 0
  }

  lemma EntriesSnoc(pages: seq<Pte>, i: nat)
    requires i < |pages|
    ensures Expand(Entries(pages[..i + 1])) ==
            Expand(Entries(pages[..i])) + Bytes(Entry(pages[i]).addr, Entry(pages[i]).length)
    ensures Total(Entries(pages[..i + 1])) == Total(Entries(pages[..i])) + Length(pages[i])
  {
    var longer := Entries(pages[..i + 1]);
    assert longer[..i] == Entries(pages[..i]);
  }

  // ----- Which bytes a page has ---------------------------------------------------------------

  /** How many bytes the pages before page `i` have. */
  function PageStart(pages: seq<Pte>, i: nat): nat
    requires i <= |pages|
  {
    if i == 0 then 0
    else
      PageStart(pages, i - 1) +
      (if pages[i - 1].size == Page4K then 4096 else if pages[i - 1].size == Page64K then 65536 else 0)
  }

  /** Byte `d` of the page with that number lies at position `start + d`. */
  predicate ByteAt(bytes: seq<nat>, start: nat, page: nat, d: nat) {
    start + d < |bytes| && bytes[start + d] == 4096 * page + d
  }

  /** From position `start` on, the bytes are those of a page: 4096 or 65536 of them. */
  ghost predicate PageAt(bytes: seq<nat>, start: nat, p: Pte) {
    && (p.size == Page4K ==> forall d: nat | d < 4096 :: ByteAt(bytes, start, p.pageAddress, d))
    && (p.size == Page64K ==> forall d: nat | d < 65536 :: ByteAt(bytes, start, p.pageAddress, d))
  }

  /** From position `at` on, the bytes are those of the pages, one page after the other. */
  ghost predicate PagesAt(bytes: seq<nat>, at: nat, pages: seq<Pte>) {
    forall i: nat | i < |pages| :: PageAt(bytes, at + PageStart(pages, i), pages[i])
  }

  lemma {:induction false} BytesAre(addr: nat, length: nat, d: nat)
    requires d < length
    ensures Bytes(addr, length)[d] == addr + d
  {
    if d < length - 1 {
      BytesAre(addr, length - 1, d);
    }
  }

  lemma ConcatAt(a: seq<nat>, b: seq<nat>, start: nat, page: nat, d: nat)
    ensures ByteAt(a, start, page, d) ==> ByteAt(a + b, start, page, d)
    ensures ByteAt(b, start, page, d) ==> ByteAt(a + b, |a| + start, page, d)
  {
    assert start + d < |b| ==> (a + b)[|a| + (start + d)] == b[start + d];
  }

  lemma PageAtConcat(a: seq<nat>, b: seq<nat>, start: nat, p: Pte)
    ensures PageAt(a, start, p) ==> PageAt(a + b, start, p)
    ensures PageAt(b, start, p) ==> PageAt(a + b, |a| + start, p)
  {
    var all, later := a + b, |a| + start;
    forall d: nat | ByteAt(a, start, p.pageAddress, d) ensures ByteAt(all, start, p.pageAddress, d) {
      ConcatAt(a, b, start, p.pageAddress, d);
    }
    forall d: nat | ByteAt(b, start, p.pageAddress, d) ensures ByteAt(all, later, p.pageAddress, d) {
      ConcatAt(a, b, start, p.pageAddress, d);
    }
  }

  /** The bytes of one entry are those of its page. */
  lemma OnePage(p: Pte)
    ensures PageAt(Bytes(Entry(p).addr, Entry(p).length), 0, p)
  {
    var own := Bytes(Entry(p).addr, Entry(p).length);
    forall d: nat | d < |own| ensures ByteAt(own, 0, p.pageAddress, d) {
      BytesAre(Entry(p).addr, Entry(p).length, d);
    }
  }

  lemma {:induction false} EntryLength(pages: seq<Pte>, n: nat)
    requires n <= |pages|
    ensures |Expand(Entries(pages[..n]))| == PageStart(pages, n)
  {
    if n > 0 {
      EntryLength(pages, n - 1);
      EntriesSnoc(pages, n - 1);
    }
  }

  /** A page stays where it is when more follow. */
  lemma {:induction false} EntryBytes(pages: seq<Pte>, n: nat, i: nat)
    requires i < n <= |pages|
    ensures PageAt(Expand(Entries(pages[..n])), PageStart(pages, i), pages[i])
  {
    var p := pages[n - 1];
    var before, own := Expand(Entries(pages[..n - 1])), Bytes(Entry(p).addr, Entry(p).length);
    EntriesSnoc(pages, n - 1);
    if i < n - 1 {
      EntryBytes(pages, n - 1, i);
      PageAtConcat(before, own, PageStart(pages, i), pages[i]);
    } else {
      EntryLength(pages, i);
      OnePage(p);
      PageAtConcat(before, own, 0, p);
    }
  }

  /** The entries of the pages stand for the bytes of the pages, before and after other bytes. */
  lemma PageBytes(pages: seq<Pte>, bytes: seq<nat>)
    ensures |Expand(Entries(pages))| == PageStart(pages, |pages|)
    ensures PagesAt(Expand(Entries(pages)) + bytes, 0, pages)
    ensures PagesAt(bytes + Expand(Entries(pages)), |bytes|, pages)
  {
    assert pages[..|pages|] == pages;
    EntryLength(pages, |pages|);
    var own := Expand(Entries(pages));
    forall i: nat | i < |pages|
      ensures PageAt(own + bytes, 0 + PageStart(pages, i), pages[i])
      ensures PageAt(bytes + own, |bytes| + PageStart(pages, i), pages[i])
    {
      EntryBytes(pages, |pages|, i);
      PageAtConcat(own, bytes, PageStart(pages, i), pages[i]);
      PageAtConcat(bytes, own, PageStart(pages, i), pages[i]);
    }
  }

  /** The entries of the pages, each merged into the one before it while that is possible. */
  method CoalescePages(pages: seq<Pte>) returns (entries: seq<MemEntry>, size: nat)
    ensures FitsU32(entries)
    ensures Coalesced(entries) && Expand(entries) == Expand(Entries(pages))
    ensures size == Total(Entries(pages)) == Total(entries)
  {
    entries, size := [], 0;
    for i := 0 to |pages|
      invariant FitsU32(entries)
      invariant Coalesced(entries) && Expand(entries) == Expand(Entries(pages[..i]))
      invariant size == Total(Entries(pages[..i])) == Total(entries)
    {
      var current := Entry(pages[i]);
      EntriesSnoc(pages, i);
      AppendedExpand(entries, current);
      AppendedCoalesced(entries, current);
      AppendedFits(entries, current);
      ghost var longer := Appended(entries, current);
      if |entries| > 0 && Mergeable(entries[|entries| - 1], current) {
        var previous := entries[|entries| - 1];
        entries := entries[..|entries| - 1] + [Merged(previous, current)];
      } else {
        entries := entries + [current];
      }
      assert entries == longer;
      size := size + current.length;
    }
    assert pages[..|pages|] == pages;
  }

  // ----- One update, as a relation, and sequences of them -------------------------------------

  datatype Resource = Resource(size: nat, lastOffset: nat, entries: seq<MemEntry>)

  /** The pages of one page-table update. */
  datatype Update = Update(offset: nat, pages: seq<Pte>)

  /** The update is attached: the resource is not full and every page is valid. */
  predicate Takes(r: Resource, u: Update) {
    Total(r.entries) < r.size && AllValid(u.pages)
  }

  /** The new bytes come after the old ones, or before them when the offset goes backwards. */
  function Placed(bytes: seq<nat>, last: nat, u: Update): seq<nat> {
    if u.offset < last then Expand(Entries(u.pages)) + bytes else bytes + Expand(Entries(u.pages))
  }

  ghost predicate Attaches(r: Resource, u: Update, r': Resource) {
    if Takes(r, u) then
      && r'.size == r.size && r'.lastOffset == u.offset
      && Expand(r'.entries) == Placed(Expand(r.entries), r.lastOffset, u)
      && Total(r'.entries) == Total(r.entries) + Total(Entries(u.pages))
      && (Coalesced(r.entries) && u.offset >= r.lastOffset ==> Coalesced(r'.entries))
      && (FitsU32(r.entries) ==> FitsU32(r'.entries))
    else r' == r
  }

  ghost predicate Run(r: Resource, updates: seq<Update>, r': Resource)
    decreases |updates|
  {
    if updates == [] then r == r'
    else exists r1 :: Attaches(r, updates[0], r1) && Run(r1, updates[1..], r')
  }

  /** The reference: the backing bytes themselves, with no entries to merge. */
  function BytesAfter(bytes: seq<nat>, last: nat, size: nat, updates: seq<Update>): seq<nat>
    decreases |updates|
  {
    if updates == [] then bytes
    else
      var u := updates[0];
      if |bytes| < size && AllValid(u.pages) then BytesAfter(Placed(bytes, last, u), u.offset, size, updates[1..])
      else BytesAfter(bytes, last, size, updates[1..])
  }

  /** Whatever updates arrive, the entries stand for the bytes of the reference. */
  lemma {:induction false} EntriesRefineBytes(r: Resource, updates: seq<Update>, r': Resource)
    requires Run(r, updates, r')
    ensures Expand(r'.entries) == BytesAfter(Expand(r.entries), r.lastOffset, r.size, updates)
    decreases |updates|
  {
    if updates != [] {
      var r1 :| Attaches(r, updates[0], r1) && Run(r1, updates[1..], r');
      ExpandTotal(r.entries);
      EntriesRefineBytes(r1, updates[1..], r');
    }
  }

  /** As long as offsets do not go backwards no two neighbours stay mergeable. */
  lemma {:induction false} InOrderStaysCoalesced(r: Resource, updates: seq<Update>, r': Resource)
    requires Run(r, updates, r') && Coalesced(r.entries)
    requires forall i, j | 0 <= i < j < |updates| :: updates[i].offset <= updates[j].offset
    requires forall i | 0 <= i < |updates| :: r.lastOffset <= updates[i].offset
    ensures Coalesced(r'.entries)
    decreases |updates|
  {
    if updates != [] {
      var r1 :| Attaches(r, updates[0], r1) && Run(r1, updates[1..], r');
      InOrderStaysCoalesced(r1, updates[1..], r');
    }
  }

  /** What one turn of `Append` keeps. */
  lemma AppendStep(before: seq<MemEntry>, entries: seq<MemEntry>, more: seq<MemEntry>, i: nat)
    requires i < |more| && Expand(entries) == Expand(before) + Expand(more[..i])
    ensures Expand(Appended(entries, more[i])) == Expand(before) + Expand(more[..i + 1])
    ensures Coalesced(entries) ==> Coalesced(Appended(entries, more[i]))
    ensures FitsU32(entries) && FitsU32(more) ==> FitsU32(Appended(entries, more[i]))
  {
    var entry := more[i];
    assert more[..i + 1][..i] == more[..i];
    Associative(Expand(before), Expand(more[..i]), Bytes(entry.addr, entry.length));
    AppendedExpand(entries, entry);
    if Coalesced(entries) {
      AppendedCoalesced(entries, entry);
    }
    if FitsU32(entries) && FitsU32(more) {
      assert LengthFits(more, i);
      AppendedFits(entries, entry);
    }
  }

  class Resource3D {
    const size: nat
    var lastOffset: nat
    var entries: seq<MemEntry>

    ghost function View(): Resource
      reads this
    {
      Resource(size, lastOffset, entries)
    }

    constructor (size: nat)
      ensures View() == Resource(size, 0, [])
    {
      this.size, lastOffset, entries := size, 0, [];
    }

    method TotalAttachedBytes() returns (total: nat)
      ensures total == Total(entries) == |Expand(entries)|
    {
      total := 0;
      for i := 0 to |entries|
        invariant total == Total(entries[..i])
      {
        assert entries[..i + 1][..i] == entries[..i];
        total := total + entries[i].length;
      }
      assert entries[..|entries|] == entries;
      ExpandTotal(entries);
    }

    method AppendEntry(entry: MemEntry)
      modifies this`entries
      ensures entries == Appended(old(entries), entry)
    {
      if |entries| > 0 && Mergeable(entries[|entries| - 1], entry) {
        var previous := entries[|entries| - 1];
        entries := entries[..|entries| - 1] + [Merged(previous, entry)];
      } else {
        entries := entries + [entry];
      }
    }

    /** Append the new entries one by one, the first merging with the last of the old ones if it can. */
    method Append(more: seq<MemEntry>)
      modifies this`entries
      ensures Expand(entries) == old(Expand(entries)) + Expand(more)
      ensures Total(entries) == old(Total(entries)) + Total(more)
      ensures old(Coalesced(entries)) ==> Coalesced(entries)
      ensures old(FitsU32(entries)) && FitsU32(more) ==> FitsU32(entries)
    {
      ghost var before := entries;
      for i := 0 to |more|
        invariant Expand(entries) == Expand(before) + Expand(more[..i])
        invariant Coalesced(before) ==> Coalesced(entries)
        invariant FitsU32(before) && FitsU32(more) ==> FitsU32(entries)
      {
        ghost var current := entries;
        AppendEntry(more[i]);
        AppendStep(before, current, more, i);
      }
      assert more[..|more|] == more;
      ExpandTotal(before);
      ExpandTotal(more);
      ExpandTotal(entries);
    }

    /**
     Attach the pages of one page-table update.  Nothing happens when the resource is already fully
     backed or a page is not valid.  Otherwise their bytes are put after the ones attached so far, or
     before them when the offset goes backwards.  The answer is whether the resource is fully backed.
     */
    method AttachPages(offset: nat, pages: seq<Pte>) returns (full: bool)
      requires Total(entries) < size && AllValid(pages) ==> Attachable(pages)
      modifies this
      ensures Attaches(old(View()), Update(offset, pages), View())
      ensures full <==> Total(entries) >= size
      ensures old(Total(entries)) < size && AllValid(pages) ==>
                var was, bytes := old(Expand(entries)), Expand(entries);
                && |bytes| == |was| + PageStart(pages, |pages|)
                && if offset < old(lastOffset)
                   then PagesAt(bytes, 0, pages) && was == bytes[PageStart(pages, |pages|)..]
                   else PagesAt(bytes, |was|, pages) && was == bytes[..|was|]
    {
      var attached := TotalAttachedBytes();
      if attached >= size {
        return true;
      }
      for i := 0 to |pages|
        invariant AllValid(pages[..i])
      {
        if !pages[i].valid {
          return false;
        }
      }
      assert pages[..|pages|] == pages;
      var more, added := CoalescePages(pages);
      if offset < lastOffset {
        ExpandConcat(more, entries);
        if FitsU32(entries) {
          ConcatFits(more, entries);
        }
        TotalConcat(more, entries);
        entries := more + entries;
      } else {
        Append(more);
      }
      PageBytes(pages, old(Expand(entries)));
      lastOffset := offset;
      return attached + added >= size;
    }
  }
}
