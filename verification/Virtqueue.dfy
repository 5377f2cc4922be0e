/**
 The split virtqueue as the driver keeps it: a free list and the chains in flight threaded through
 `next` fields of a shadow table, which is copied entry by entry to the table the device reads.
 */
module Virtqueue {
  import opened Collections
  import opened RingIndices
  import opened VirtqueueSpec

  const DESCRIPTOR_SIZE := 16

  /** Entry `k` of a linked list of descriptors; `size` ends the free list. */
  function Link(list: seq<nat>, k: nat, size: nat): nat {
    if k < |list| then list[k] else size
  }

  predicate FreeAt(shadow: seq<Descriptor>, free: seq<nat>, size: nat, k: nat) {
    k < |free| && free[k] < |shadow| && shadow[free[k]].next == Link(free, k + 1, size)
  }

  predicate FreeListOk(shadow: seq<Descriptor>, free: seq<nat>, freeHead: nat, size: nat) {
    && freeHead == Link(free, 0, size)
    && (forall k | 0 <= k < |free| :: FreeAt(shadow, free, size, k))
  }

  /** Descriptor `d` presents buffer `b`; only the last of a chain lacks the NEXT flag. */
  predicate Presents(d: Descriptor, b: Buffer, last: bool) {
    d.addr == b.addr && d.len == b.len && d.write == b.write && d.hasNext == !last && !d.indirect
  }

  /** A direct chain: `ids` linked in order, each presenting its buffer. */
  predicate DirectAt(table: seq<Descriptor>, ids: seq<nat>, bufs: seq<Buffer>, k: nat) {
    && k < |ids| == |bufs| && ids[k] < |table|
    && Presents(table[ids[k]], bufs[k], k + 1 == |ids|)
    && (k + 1 < |ids| ==> table[ids[k]].next == ids[k + 1])
  }

  predicate DirectOk(table: seq<Descriptor>, ids: seq<nat>, bufs: seq<Buffer>) {
    |ids| == |bufs| && forall k | 0 <= k < |ids| :: DirectAt(table, ids, bufs, k)
  }

  /** An indirect descriptor pointing at a list that presents the buffers. */
  predicate IndirectOk(d: Descriptor, list: Option<seq<Descriptor>>, dma: map<nat, seq<Descriptor>>,
                       bufs: seq<Buffer>) {
    && d.indirect && !d.hasNext && !d.write
    && d.len == DESCRIPTOR_SIZE * |bufs|
    && d.addr in dma && list == Some(dma[d.addr])
    && DirectOk(dma[d.addr], Range(|bufs|), bufs)
    && |dma[d.addr]| == |bufs|
  }

  predicate ChainOk(shadow: seq<Descriptor>, table: seq<Descriptor>, lists: seq<Option<seq<Descriptor>>>,
                    dma: map<nat, seq<Descriptor>>, c: Chain) {
    && |c.ids| > 0
    && |lists| == |shadow| == |table|
    && (forall k | 0 <= k < |c.ids| :: c.ids[k] < |table| && table[c.ids[k]] == shadow[c.ids[k]])
    && if IsIndirect(c) then IndirectOk(shadow[c.ids[0]], lists[c.ids[0]], dma, c.bufs)
       else DirectOk(shadow, c.ids, c.bufs) && forall k | 0 <= k < |c.ids| :: lists[c.ids[k]] == None
  }

  /** What ties the shadow table, the device's table and the indirect lists to the abstract queue. */
  ghost predicate Threaded(q: Queue, shadow: seq<Descriptor>, table: seq<Descriptor>,
                           lists: seq<Option<seq<Descriptor>>>, dma: map<nat, seq<Descriptor>>, freeHead: nat) {
    match q
    case Queue(size, _, _, free, chains, _, _, _, _) =>
      && |shadow| == |table| == |lists| == size
      && FreeListOk(shadow, free, freeHead, size)
      && (forall k | 0 <= k < |free| :: free[k] < |lists| && lists[free[k]] == None)
      && (forall j | 0 <= j < |chains| :: ChainOk(shadow, table, lists, dma, chains[j]))
      && (forall i, j | 0 <= i < j < |chains| && IsIndirect(chains[i]) && IsIndirect(chains[j]) ::
            shadow[chains[i].ids[0]].addr != shadow[chains[j].ids[0]].addr)
  }

  /** A chain none of whose entries changed is still well formed. */
  lemma ChainFrame(c: Chain,
                   shadow: seq<Descriptor>, table: seq<Descriptor>, lists: seq<Option<seq<Descriptor>>>,
                   dma: map<nat, seq<Descriptor>>,
                   shadow': seq<Descriptor>, table': seq<Descriptor>, lists': seq<Option<seq<Descriptor>>>,
                   dma': map<nat, seq<Descriptor>>)
    requires ChainOk(shadow, table, lists, dma, c)
    requires |shadow'| == |table'| == |lists'| == |shadow|
    requires forall x | x in c.ids && x < |shadow| ::
               shadow'[x] == shadow[x] && table'[x] == table[x] && lists'[x] == lists[x]
    requires IsIndirect(c) ==>
               shadow[c.ids[0]].addr in dma' && dma'[shadow[c.ids[0]].addr] == dma[shadow[c.ids[0]].addr]
    ensures ChainOk(shadow', table', lists', dma', c)
  {
    assert forall k | 0 <= k < |c.ids| :: c.ids[k] in c.ids;
    if !IsIndirect(c) {
      forall k: nat | k < |c.ids| ensures DirectAt(shadow', c.ids, c.bufs, k) {
        assert DirectAt(shadow, c.ids, c.bufs, k);
      }
    }
  }

  /** The entries `add_direct` leaves behind for the first `n` free descriptors. */
  predicate FilledDirect(free: seq<nat>, bufs: seq<Buffer>, size: nat,
                         shadow: seq<Descriptor>, table: seq<Descriptor>) {
    && |bufs| <= |free| && |shadow| == |table| == size
    && (forall k | 0 <= k < |bufs| ::
          && FilledAt(free, bufs[k], size, shadow, k, k + 1 < |bufs|)
          && FilledAt(free, bufs[k], size, table, k, k + 1 < |bufs|))
  }

  predicate FilledAt(free: seq<nat>, b: Buffer, size: nat, table: seq<Descriptor>, k: nat, hasNext: bool) {
    k < |free| && free[k] < |table| &&
    table[free[k]] == Descriptor(b.addr, b.len, hasNext, b.write, false, Link(free, k + 1, size))
  }

  predicate Injective(s: seq<nat>) {
    forall i, j | 0 <= i < j < |s| :: s[i] != s[j]
  }

  /** Writing descriptor `free[i]` keeps those filled before it. */
  lemma FillKeeps(free: seq<nat>, bufs: seq<Buffer>, size: nat, i: nat, t: seq<Descriptor>, t': seq<Descriptor>)
    requires Injective(free) && i < |bufs| <= |free| && free[i] < |t| == |t'|
    requires forall k | 0 <= k < i :: FilledAt(free, bufs[k], size, t, k, true)
    requires forall x | 0 <= x < |t| && x != free[i] :: t'[x] == t[x]
    ensures forall k | 0 <= k < i :: FilledAt(free, bufs[k], size, t', k, true)
  {
    forall k: nat | k < i ensures FilledAt(free, bufs[k], size, t', k, true) {
      assert FilledAt(free, bufs[k], size, t, k, true);
    }
  }

  /** And the links of those after it. */
  lemma FreeKeeps(free: seq<nat>, size: nat, i: nat, t: seq<Descriptor>, t': seq<Descriptor>)
    requires Injective(free) && i < |free| && free[i] < |t| == |t'|
    requires forall k | i <= k < |free| :: FreeAt(t, free, size, k)
    requires forall x | 0 <= x < |t| && x != free[i] :: t'[x] == t[x]
    ensures forall k | i < k < |free| :: FreeAt(t', free, size, k)
  {
    forall k: nat | i < k < |free| ensures FreeAt(t', free, size, k) {
      assert FreeAt(t, free, size, k);
    }
  }

  function First(s: seq<nat>, n: nat): set<nat>
    requires n <= |s|
  {
    set k | 0 <= k < n :: s[k]
  }

  lemma FreeInjective(q: Queue)
    requires Valid(q)
    ensures Injective(q.free) && forall k | 0 <= k < |q.free| :: q.free[k] < q.size
  {
    forall i: nat, j: nat | i < j < |q.free| ensures q.free[i] != q.free[j] {
      FreeDistinct(q, i, j);
    }
    forall k | 0 <= k < |q.free| ensures q.free[k] < q.size {
      FreeInRange(q, q.free[k]);
    }
  }

  /** Chains in flight are untouched by writes to descriptors that were free. */
  lemma ChainsKept(q: Queue, taken: set<nat>,
                   shadow: seq<Descriptor>, table: seq<Descriptor>, lists: seq<Option<seq<Descriptor>>>,
                   dma: map<nat, seq<Descriptor>>,
                   shadow': seq<Descriptor>, table': seq<Descriptor>, lists': seq<Option<seq<Descriptor>>>,
                   dma': map<nat, seq<Descriptor>>)
    requires Valid(q) && |shadow'| == |table'| == |lists'| == q.size && |shadow| == |table| == |lists| == q.size
    requires forall j | 0 <= j < |q.chains| :: ChainOk(shadow, table, lists, dma, q.chains[j])
    requires forall x | x in taken :: x in q.free
    requires forall x | 0 <= x < q.size && x !in taken ::
               shadow'[x] == shadow[x] && table'[x] == table[x] && lists'[x] == lists[x]
    requires forall a | a in dma :: a in dma' && dma'[a] == dma[a]
    ensures forall j | 0 <= j < |q.chains| :: ChainOk(shadow', table', lists', dma', q.chains[j])
    ensures forall j | 0 <= j < |q.chains| ::
              var head := q.chains[j].ids[0]; head < q.size && shadow'[head] == shadow[head]
  {
    forall j | 0 <= j < |q.chains|
      ensures ChainOk(shadow', table', lists', dma', q.chains[j])
      ensures var head := q.chains[j].ids[0]; head < q.size && shadow'[head] == shadow[head]
    {
      forall x | x in q.chains[j].ids ensures x !in taken && x < q.size {
        ChainNotFree(q, j, x);
      }
      ChainFrame(q.chains[j], shadow, table, lists, dma, shadow', table', lists', dma');
      assert q.chains[j].ids[0] in q.chains[j].ids;
    }
  }

  /** Taking the first `n` descriptors leaves the rest of the free list linked. */
  lemma FreeTailKept(q: Queue, n: nat, shadow: seq<Descriptor>, shadow': seq<Descriptor>, freeHead: nat)
    requires Valid(q) && |shadow| == |shadow'| == q.size && n <= |q.free|
    requires FreeListOk(shadow, q.free, freeHead, q.size)
    requires forall x | 0 <= x < q.size && x !in First(q.free, n) :: shadow'[x] == shadow[x]
    ensures FreeListOk(shadow', q.free[n..], Link(q.free, n, q.size), q.size)
  {
    FreeInjective(q);
    forall k: nat | k < |q.free[n..]| ensures FreeAt(shadow', q.free[n..], q.size, k) {
      assert FreeAt(shadow, q.free, q.size, n + k);
    }
  }

  /** The descriptors `add_direct` filled form the chain of the buffers. */
  lemma FilledChain(free: seq<nat>, bufs: seq<Buffer>, size: nat, shadow: seq<Descriptor>, table: seq<Descriptor>,
                    lists: seq<Option<seq<Descriptor>>>, dma: map<nat, seq<Descriptor>>)
    requires FilledDirect(free, bufs, size, shadow, table) && |bufs| > 0 && |lists| == size
    requires forall k | 0 <= k < |free| :: free[k] < size && lists[free[k]] == None
    ensures ChainOk(shadow, table, lists, dma, Chain(free[..|bufs|], bufs))
  {
    var n, ids := |bufs|, free[..|bufs|];
    forall k: nat | k < n ensures DirectAt(shadow, ids, bufs, k) && table[ids[k]] == shadow[ids[k]] {
      assert FilledAt(free, bufs[k], size, shadow, k, k + 1 < n);
      assert FilledAt(free, bufs[k], size, table, k, k + 1 < n);
    }
  }

  lemma DirectThreaded(q: Queue, bufs: seq<Buffer>,
                       shadow: seq<Descriptor>, table: seq<Descriptor>, lists: seq<Option<seq<Descriptor>>>,
                       dma: map<nat, seq<Descriptor>>, freeHead: nat,
                       shadow': seq<Descriptor>, table': seq<Descriptor>)
    requires Valid(q) && Threaded(q, shadow, table, lists, dma, freeHead)
    requires AddError(q, |bufs|) == None && Taken(q, |bufs|) == |bufs| <= |q.free|
    requires FilledDirect(q.free, bufs, q.size, shadow', table')
    requires forall x | 0 <= x < q.size && x !in First(q.free, |bufs|) ::
               shadow'[x] == shadow[x] && table'[x] == table[x]
    ensures Threaded(Added(q, bufs), shadow', table', lists, dma, Link(q.free, |bufs|, q.size))
  {
    var n, q' := |bufs|, Added(q, bufs);
    FreeTailKept(q, n, shadow, shadow', freeHead);
    ChainsKept(q, First(q.free, n), shadow, table, lists, dma, shadow', table', lists, dma);
    var c := Chain(q.free[..n], bufs);
    FilledChain(q.free, bufs, q.size, shadow', table', lists, dma);
    assert q'.chains == q.chains + [c] && !IsIndirect(c);
  }

  lemma IndirectThreaded(q: Queue, bufs: seq<Buffer>, listAddr: nat, list: seq<Descriptor>,
                         shadow: seq<Descriptor>, table: seq<Descriptor>, lists: seq<Option<seq<Descriptor>>>,
                         dma: map<nat, seq<Descriptor>>, freeHead: nat, d: Descriptor)
    requires Valid(q) && Threaded(q, shadow, table, lists, dma, freeHead)
    requires AddError(q, |bufs|) == None && Taken(q, |bufs|) == 1 && |bufs| > 1 && |q.free| > 0
    requires listAddr !in dma && |list| == |bufs| && DirectOk(list, Range(|bufs|), bufs)
    requires freeHead < q.size
    requires d == Descriptor(listAddr, DESCRIPTOR_SIZE * |bufs|, false, false, true, shadow[freeHead].next)
    ensures Threaded(Added(q, bufs), shadow[freeHead := d], table[freeHead := d], lists[freeHead := Some(list)],
                     dma[listAddr := list], shadow[freeHead].next)
  {
    var q' := Added(q, bufs);
    var shadow', table' := shadow[freeHead := d], table[freeHead := d];
    var lists', dma' := lists[freeHead := Some(list)], dma[listAddr := list];
    assert FreeAt(shadow, q.free, q.size, 0);
    assert q.free[0] in First(q.free, 1);
    FreeTailKept(q, 1, shadow, shadow', freeHead);
    FreeInjective(q);
    ChainsKept(q, First(q.free, 1), shadow, table, lists, dma, shadow', table', lists', dma');
    var c := Chain(q.free[..1], bufs);
    assert ChainOk(shadow', table', lists', dma', c);
    assert q'.chains == q.chains + [c];
  }

  /** The entries `recycle_descriptors` leaves behind for the chain `ids`. */
  predicate ReleasedAt(ids: seq<nat>, freeHead: nat, shadow: seq<Descriptor>, k: nat) {
    k < |ids| && ids[k] < |shadow| && shadow[ids[k]].next == Link(ids, k + 1, freeHead)
  }

  /** The released descriptor no longer names a buffer, for the driver and the device alike. */
  predicate ClearedAt(ids: seq<nat>, shadow: seq<Descriptor>, table: seq<Descriptor>, k: nat) {
    && k < |ids| && ids[k] < |shadow| == |table|
    && shadow[ids[k]].addr == 0 && shadow[ids[k]].len == 0 && table[ids[k]] == shadow[ids[k]]
  }

  lemma ChainInjective(q: Queue, j: nat)
    requires Valid(q) && j < |q.chains|
    ensures Injective(q.chains[j].ids) && forall k | 0 <= k < |q.chains[j].ids| :: q.chains[j].ids[k] < q.size
    ensures forall k | 0 <= k < |q.chains[j].ids| :: q.chains[j].ids[k] !in q.free
  {
    var ids := q.chains[j].ids;
    forall a: nat, b: nat | a < b < |ids| ensures ids[a] != ids[b] {
      ChainDistinct(q, j, a, b);
    }
    forall k | 0 <= k < |ids| ensures ids[k] < q.size && ids[k] !in q.free {
      ChainNotFree(q, j, ids[k]);
    }
  }

  /** Prepending a released chain gives a linked free list again. */
  lemma ReleasedFree(q: Queue, j: nat, shadow: seq<Descriptor>, shadow': seq<Descriptor>, freeHead: nat)
    requires Valid(q) && j < |q.chains| && |shadow| == |shadow'| == q.size
    requires FreeListOk(shadow, q.free, freeHead, q.size)
    requires forall k | 0 <= k < |q.chains[j].ids| :: ReleasedAt(q.chains[j].ids, freeHead, shadow', k)
    requires forall x | 0 <= x < q.size && x !in First(q.chains[j].ids, |q.chains[j].ids|) :: shadow'[x] == shadow[x]
    ensures FreeListOk(shadow', q.chains[j].ids + q.free, q.chains[j].ids[0], q.size)
  {
    var ids := q.chains[j].ids;
    ChainInjective(q, j);
    forall k: nat | k < |ids + q.free| ensures FreeAt(shadow', ids + q.free, q.size, k) {
      if k < |ids| {
        assert ReleasedAt(ids, freeHead, shadow', k);
      } else {
        assert FreeAt(shadow, q.free, q.size, k - |ids|);
        assert q.free[k - |ids|] !in First(ids, |ids|);
      }
    }
  }

  /** The other chains in flight keep their entries, lists and shared addresses. */
  lemma OthersKept(q: Queue, j: nat, i: nat,
                   shadow: seq<Descriptor>, table: seq<Descriptor>, lists: seq<Option<seq<Descriptor>>>,
                   dma: map<nat, seq<Descriptor>>,
                   shadow': seq<Descriptor>, table': seq<Descriptor>, lists': seq<Option<seq<Descriptor>>>,
                   dma': map<nat, seq<Descriptor>>)
    requires Valid(q) && j < |q.chains| && i < |q.chains| && i != j
    requires |shadow'| == |table'| == |lists'| == q.size && |shadow| == |table| == |lists| == q.size
    requires ChainOk(shadow, table, lists, dma, q.chains[i])
    requires forall x | 0 <= x < q.size && x !in First(q.chains[j].ids, |q.chains[j].ids|) ::
               shadow'[x] == shadow[x] && table'[x] == table[x] && lists'[x] == lists[x]
    requires IsIndirect(q.chains[i]) ==>
               var a := shadow[q.chains[i].ids[0]].addr; a in dma && a in dma' && dma'[a] == dma[a]
    ensures ChainOk(shadow', table', lists', dma', q.chains[i])
    ensures q.chains[i].ids[0] < q.size && shadow'[q.chains[i].ids[0]] == shadow[q.chains[i].ids[0]]
  {
    var c := q.chains[i];
    forall x | x in c.ids ensures x < q.size && x !in First(q.chains[j].ids, |q.chains[j].ids|) {
      ChainNotFree(q, i, x);
      ChainsDisjoint(q, i, j, x);
    }
    ChainFrame(c, shadow, table, lists, dma, shadow', table', lists', dma');
    assert c.ids[0] in c.ids;
  }

  lemma RecycledThreaded(q: Queue, j: nat,
                         shadow: seq<Descriptor>, table: seq<Descriptor>, lists: seq<Option<seq<Descriptor>>>,
                         dma: map<nat, seq<Descriptor>>, freeHead: nat,
                         shadow': seq<Descriptor>, table': seq<Descriptor>, lists': seq<Option<seq<Descriptor>>>,
                         dma': map<nat, seq<Descriptor>>)
    requires Valid(q) && Threaded(q, shadow, table, lists, dma, freeHead) && j < |q.chains|
    requires |shadow'| == |table'| == |lists'| == q.size
    requires var ids := q.chains[j].ids;
             && (forall k | 0 <= k < |ids| :: ReleasedAt(ids, freeHead, shadow', k))
             && (forall k | 0 <= k < |ids| :: ids[k] < q.size && lists'[ids[k]] == None)
             && (forall x | 0 <= x < q.size && x !in First(ids, |ids|) ::
                   shadow'[x] == shadow[x] && table'[x] == table[x] && lists'[x] == lists[x])
             && dma' == if IsIndirect(q.chains[j]) then dma - {shadow[ids[0]].addr} else dma
    ensures Threaded(Popped(q, j), shadow', table', lists', dma', q.chains[j].ids[0])
  {
    var ids, q' := q.chains[j].ids, Popped(q, j);
    ReleasedFree(q, j, shadow, shadow', freeHead);
    ChainInjective(q, j);
    forall k | 0 <= k < |q'.free| ensures q'.free[k] < q.size && lists'[q'.free[k]] == None {
      if k >= |ids| {
        assert q.free[k - |ids|] !in First(ids, |ids|);
        assert q'.free[k] == q.free[k - |ids|];
      }
    }
    forall i: nat | i < |q.chains| && i != j
      ensures ChainOk(shadow', table', lists', dma', q.chains[i])
      ensures q.chains[i].ids[0] < q.size && shadow'[q.chains[i].ids[0]] == shadow[q.chains[i].ids[0]]
    {
      assert ChainOk(shadow, table, lists, dma, q.chains[i]) && ChainOk(shadow, table, lists, dma, q.chains[j]);
      OthersKept(q, j, i, shadow, table, lists, dma, shadow', table', lists', dma');
    }
  }

  /** The indirect list for `bufs`: linked in order, the last entry without NEXT. */
  method BuildList(bufs: seq<Buffer>) returns (list: seq<Descriptor>)
    requires |bufs| > 0
    ensures |list| == |bufs| && DirectOk(list, Range(|bufs|), bufs)
  {
    var entries := new Descriptor[|bufs|](_ => Descriptor(0, 0, false, false, false, 0));
    for i := 0 to |bufs|
      invariant forall k | 0 <= k < i ::
                  entries[k] == Descriptor(bufs[k].addr, bufs[k].len, true, bufs[k].write, false, k + 1)
    {
      entries[i] := Descriptor(bufs[i].addr, bufs[i].len, true, bufs[i].write, false, i + 1);
    }
    entries[|bufs| - 1] := entries[|bufs| - 1].(hasNext := false);
    list := entries[..];
  }

  class VirtQueue {
    const size: nat
    const indirect: bool
    const eventIdx: bool
    const table: array<Descriptor>                      // desc
    const shadow: array<Descriptor>                     // desc_shadow
    const lists: array<Option<seq<Descriptor>>>         // indirect_lists
    const availRing: array<nat>
    var dma: map<nat, seq<Descriptor>>                  // indirect lists shared with the device, by address
    var numUsed: nat
    var freeHead: nat
    var availIdx: nat
    var lastUsedIdx: nat
    var usedEvent: nat
    var used: Used                                      // written by the device only
    ghost var free: seq<nat>
    ghost var chains: seq<Chain>

    ghost function View(): Queue
      reads this, availRing
    {
      Queue(size, indirect, eventIdx, free, chains, availRing[..], availIdx, usedEvent, lastUsedIdx)
    }

    ghost predicate Shape()
      reads this
    {
      && table.Length == shadow.Length == lists.Length == availRing.Length == size
      && table != shadow
      && (availRing as object) !in {table, shadow, lists} && (lists as object) !in {table, shadow}
    }

    ghost predicate Ok()
      reads this, shadow, table, lists, availRing
    {
      && Shape()
      && Valid(View())
      && Threaded(View(), shadow[..], table[..], lists[..], dma, freeHead)
      && numUsed == NumUsed(View())
      && |used.ring| == size
    }

    constructor Init(size: nat, indirect: bool, eventIdx: bool)
      requires IsQueueSize(size)
      ensures Ok() && View() == Empty(size, indirect, eventIdx)
      ensures used == Used(0, 0, seq(size, _ => UsedElem(0, 0)), 0)
      ensures fresh(table) && fresh(shadow) && fresh(lists) && fresh(availRing)
    {
      this.size, this.indirect, this.eventIdx := size, indirect, eventIdx;
      table := new Descriptor[size](i requires 0 <= i =>
        Descriptor(0, 0, false, false, false, if i + 1 < size then i + 1 else 0));
      shadow := new Descriptor[size](i requires 0 <= i => Descriptor(0, 0, false, false, false, i + 1));
      lists := new Option<seq<Descriptor>>[size](_ => None);
      availRing := new nat[size](_ => 0);
      dma, numUsed, freeHead, availIdx, lastUsedIdx, usedEvent := map[], 0, 0, 0, 0, 0;
      used := Used(0, 0, seq(size, _ => UsedElem(0, 0)), 0);
      free, chains := Range(size), [];
      new;
      EmptyValid(size, indirect, eventIdx);
      assert availRing[..] == seq(size, _ => 0);
      assert View() == Empty(size, indirect, eventIdx);
    }

    /** One turn of the loop in `add_direct`: fill the first free descriptor and publish it. */
    method TakeFree(b: Buffer) returns (id: nat)
      requires Shape() && freeHead < size
      modifies this`freeHead, shadow, table
      ensures id == old(freeHead) && freeHead == old(shadow[freeHead].next)
      ensures shadow[id] == table[id] == Descriptor(b.addr, b.len, true, b.write, false, freeHead)
      ensures forall x | 0 <= x < size && x != id :: shadow[x] == old(shadow[x]) && table[x] == old(table[x])
    {
      id := freeHead;
      shadow[id] := Descriptor(b.addr, b.len, true, b.write, false, shadow[id].next);
      freeHead := shadow[id].next;
      table[id] := shadow[id];
    }

    method ClearNext(id: nat)
      requires Shape() && id < size
      modifies shadow, table
      ensures shadow[id] == table[id] == old(shadow[id]).(hasNext := false)
      ensures forall x | 0 <= x < size && x != id :: shadow[x] == old(shadow[x]) && table[x] == old(table[x])
    {
      shadow[id] := shadow[id].(hasNext := false);
      table[id] := shadow[id];
    }

    method AddDirect(bufs: seq<Buffer>) returns (head: nat)
      requires Shape() && Injective(free) && FreeListOk(shadow[..], free, freeHead, size)
      requires 1 <= |bufs| <= |free|
      modifies this`freeHead, this`numUsed, shadow, table
      ensures head == free[0]
      ensures freeHead == Link(free, |bufs|, size) && numUsed == old(numUsed) + |bufs|
      ensures FilledDirect(free, bufs, size, shadow[..], table[..])
      ensures forall x | 0 <= x < size && x !in First(free, |bufs|) ::
                shadow[x] == old(shadow[x]) && table[x] == old(table[x])
    {
      ghost var taken := First(free, |bufs|);
      ghost var before := shadow[..];
      head := freeHead;
      var last := freeHead;
      var i := 0;
      while i < |bufs|
        modifies this`freeHead, shadow, table
        invariant 0 <= i <= |bufs|
        invariant freeHead == Link(free, i, size)
        invariant i > 0 ==> last == free[i - 1]
        invariant forall k | 0 <= k < i ::
                    && FilledAt(free, bufs[k], size, shadow[..], k, true)
                    && FilledAt(free, bufs[k], size, table[..], k, true)
        invariant forall k | i <= k < |free| :: FreeAt(shadow[..], free, size, k)
        invariant forall x | 0 <= x < size && x !in taken ::
                    shadow[x] == old(shadow[x]) && table[x] == old(table[x])
      {
        ghost var sh, tb := shadow[..], table[..];
        assert free[i] in taken && FreeAt(sh, free, size, i);
        last := TakeFree(bufs[i]);
        FillKeeps(free, bufs, size, i, sh, shadow[..]);
        FillKeeps(free, bufs, size, i, tb, table[..]);
        FreeKeeps(free, size, i, sh, shadow[..]);
        i := i + 1;
      }
      ghost var sh, tb := shadow[..], table[..];
      assert FilledAt(free, bufs[|bufs| - 1], size, sh, |bufs| - 1, true);
      ClearNext(last);
      forall k: nat | k < |bufs|
        ensures FilledAt(free, bufs[k], size, shadow[..], k, k + 1 < |bufs|)
        ensures FilledAt(free, bufs[k], size, table[..], k, k + 1 < |bufs|)
      {
        assert FilledAt(free, bufs[k], size, sh, k, true) && FilledAt(free, bufs[k], size, tb, k, true);
      }
      assert last in taken;
      numUsed := numUsed + |bufs|;
    }

    /** Builds the indirect list; `listAddr` is the address the HAL shares it at. */
    method AddIndirect(bufs: seq<Buffer>, listAddr: nat) returns (head: nat, ghost list: seq<Descriptor>)
      requires Shape() && |bufs| > 1 && freeHead < size && lists[freeHead] == None
      modifies this`freeHead, this`numUsed, this`dma, shadow, table, lists
      ensures head == old(freeHead) && freeHead == old(shadow[freeHead].next) && numUsed == old(numUsed) + 1
      ensures |list| == |bufs| && DirectOk(list, Range(|bufs|), bufs)
      ensures var d := Descriptor(listAddr, 16 * |bufs|, false, false, true, freeHead);
              shadow[..] == old(shadow[..])[head := d] && table[..] == old(table[..])[head := d]
      ensures lists[..] == old(lists[..])[head := Some(list)] && dma == old(dma)[listAddr := list]
    {
      head := freeHead;
      var entries := BuildList(bufs);
      list := entries;
      assert lists[head] == None;
      lists[head] := Some(entries);
      freeHead := shadow[head].next;
      shadow[head] := Descriptor(listAddr, DESCRIPTOR_SIZE * |bufs|, false, false, true, freeHead);
      dma := dma[listAddr := entries];
      table[head] := shadow[head];
      numUsed := numUsed + 1;
    }

    /** One turn of the loop in `recycle_descriptors`; returns the address to unshare and what follows. */
    method Release(id: nat, originalFreeHead: nat) returns (paddr: nat, next: Option<nat>)
      requires Shape() && id < size && numUsed > 0
      modifies this`numUsed, shadow, table
      ensures paddr == old(shadow[id].addr) && numUsed == old(numUsed) - 1
      ensures next == if old(shadow[id].hasNext) then Some(old(shadow[id].next)) else None
      ensures shadow[id].next == if old(shadow[id].hasNext) then old(shadow[id].next) else originalFreeHead
      ensures shadow[id].addr == 0 && shadow[id].len == 0 && table[id] == shadow[id]
      ensures forall x | 0 <= x < size && x != id :: shadow[x] == old(shadow[x]) && table[x] == old(table[x])
    {
      paddr := shadow[id].addr;
      shadow[id] := shadow[id].(addr := 0, len := 0);
      numUsed := numUsed - 1;
      next := if shadow[id].hasNext then Some(shadow[id].next) else None;
      if next.None? {
        shadow[id] := shadow[id].(next := originalFreeHead);
      }
      table[id] := shadow[id];
    }

    /** Walks a direct chain; no buffer is empty, and the chain is neither shorter nor longer than expected. */
    method RecycleDirect(head: nat, bufs: seq<Buffer>, ghost ids: seq<nat>) returns (unshared: seq<nat>)
      requires Shape() && Injective(ids) && 0 < |ids| <= numUsed && ids[0] == head
      requires DirectOk(shadow[..], ids, bufs) && NonEmpty(bufs)
      modifies this`freeHead, this`numUsed, shadow, table
      ensures freeHead == head && numUsed == old(numUsed) - |ids|
      ensures |unshared| == |bufs| && forall k | 0 <= k < |bufs| :: unshared[k] == bufs[k].addr
      ensures forall k | 0 <= k < |ids| :: ReleasedAt(ids, old(freeHead), shadow[..], k)
      ensures forall k | 0 <= k < |ids| :: ClearedAt(ids, shadow[..], table[..], k)
      ensures forall x | 0 <= x < size && x !in First(ids, |ids|) ::
                shadow[x] == old(shadow[x]) && table[x] == old(table[x])
    {
      var originalFreeHead := freeHead;
      freeHead := head;
      var next := Some(head);
      unshared := [];
      var i := 0;
      ghost var all := First(ids, |ids|);
      while i < |bufs|
        modifies this`numUsed, shadow, table
        invariant 0 <= i <= |bufs| && numUsed == old(numUsed) - i && |unshared| == i
        invariant next == if i < |ids| then Some(ids[i]) else None
        invariant forall k | 0 <= k < i :: unshared[k] == bufs[k].addr
        invariant forall k | 0 <= k < i :: ReleasedAt(ids, originalFreeHead, shadow[..], k)
        invariant forall k | 0 <= k < i :: ClearedAt(ids, shadow[..], table[..], k)
        invariant forall k | i <= k < |ids| :: DirectAt(shadow[..], ids, bufs, k)
        invariant forall x | 0 <= x < size && x !in all :: shadow[x] == old(shadow[x]) && table[x] == old(table[x])
      {
        ghost var sh, tb := shadow[..], table[..];
        assert DirectAt(sh, ids, bufs, i) && ids[i] in all;
        assert bufs[i].len != 0;
        assert next.Some?;
        var paddr, following := Release(next.value, originalFreeHead);
        unshared := unshared + [paddr];
        next := following;
        forall k: nat | k < i
          ensures ReleasedAt(ids, originalFreeHead, shadow[..], k) && ClearedAt(ids, shadow[..], table[..], k)
        {
          assert ReleasedAt(ids, originalFreeHead, sh, k) && ClearedAt(ids, sh, tb, k);
        }
        forall k: nat | i < k < |ids| ensures DirectAt(shadow[..], ids, bufs, k) {
          assert DirectAt(sh, ids, bufs, k);
        }
        i := i + 1;
      }
      assert next.None?;
    }

    method RecycleIndirect(head: nat, bufs: seq<Buffer>) returns (unshared: seq<nat>)
      requires Shape() && head < size && numUsed > 0
      requires IndirectOk(shadow[head], lists[head], dma, bufs) && NonEmpty(bufs)
      modifies this`freeHead, this`numUsed, this`dma, shadow, lists
      ensures freeHead == head && numUsed == old(numUsed) - 1
      ensures |unshared| == |bufs| + 1 && unshared[0] == old(shadow[head].addr)
      ensures forall k | 0 <= k < |bufs| :: unshared[k + 1] == bufs[k].addr
      ensures dma == old(dma) - {old(shadow[head].addr)}
      ensures shadow[head].next == old(freeHead) && lists[head] == None
      ensures shadow[head].addr == 0 && shadow[head].len == 0
      ensures forall x | 0 <= x < size && x != head :: shadow[x] == old(shadow[x]) && lists[x] == old(lists[x])
    {
      var originalFreeHead := freeHead;
      freeHead := head;
      var list := lists[head].value;
      lists[head] := None;
      var paddr := shadow[head].addr;
      shadow[head] := shadow[head].(addr := 0, len := 0);
      numUsed := numUsed - 1;
      shadow[head] := shadow[head].(next := originalFreeHead);
      unshared := [paddr];
      dma := dma - {paddr};
      assert |list| == |bufs|;
      for i := 0 to |bufs|
        invariant |unshared| == i + 1 && unshared[0] == paddr
        invariant forall k | 0 <= k < i :: unshared[k + 1] == bufs[k].addr
      {
        assert bufs[i].len != 0;
        assert DirectAt(list, Range(|bufs|), bufs, i);
        unshared := unshared + [list[i].addr];
      }
    }

    /** The descriptor half of `add`: a direct chain, or one descriptor for an indirect list. */
    method TakeChain(bufs: seq<Buffer>, listAddr: nat) returns (head: nat)
      requires Ok() && listAddr !in dma && AddError(View(), |bufs|) == None
      modifies this`freeHead, this`numUsed, this`dma, shadow, table, lists
      ensures Shape() && |free| > 0 && head == free[0]
      ensures Threaded(Added(View(), bufs), shadow[..], table[..], lists[..], dma, freeHead)
      ensures numUsed == NumUsed(Added(View(), bufs))
    {
      ghost var q := View();
      RoomMeansFree(q, |bufs|);
      FreeInjective(q);
      assert FreeAt(shadow[..], free, size, 0);
      ghost var sh, tb, li, d, fh := shadow[..], table[..], lists[..], dma, freeHead;
      if indirect && |bufs| > 1 {
        ghost var list;
        head, list := AddIndirect(bufs, listAddr);
        IndirectThreaded(q, bufs, listAddr, list, sh, tb, li, d, fh, shadow[head]);
      } else {
        head := AddDirect(bufs);
        DirectThreaded(q, bufs, sh, tb, li, d, fh, shadow[..], table[..]);
      }
    }

    /** The ring half of `add`. */
    method Publish(head: nat)
      requires IsPowerOfTwo(size) && size == availRing.Length
      modifies this`availIdx, availRing
      ensures availRing[..] == old(availRing[..])[Slot(old(availIdx), size) := head]
      ensures availIdx == WrappingInc(old(availIdx))
    {
      MaskIsSlot(availIdx, size);
      availRing[BitAnd(availIdx, size - 1)] := head;
      availIdx := WrappingInc(availIdx);
    }

    /** What `q` becomes once the chain at `head`, already built, is published. */
    method PublishChain(head: nat, ghost q: Queue)
      requires Shape() && IsPowerOfTwo(size) && |used.ring| == size
      requires Valid(q) && Threaded(q, shadow[..], table[..], lists[..], dma, freeHead) && numUsed == NumUsed(q)
      requires q == Queue(size, indirect, eventIdx, q.free, q.chains, availRing[..][Slot(availIdx, size) := head],
                          WrappingInc(availIdx), usedEvent, lastUsedIdx)
      modifies this`availIdx, this`free, this`chains, availRing
      ensures Ok() && View() == q
    {
      ghost var sh, tb, li := shadow[..], table[..], lists[..];
      Publish(head);
      free, chains := q.free, q.chains;
      assert shadow[..] == sh && table[..] == tb && lists[..] == li;
      assert View() == q;
    }

    method AddChain(bufs: seq<Buffer>, listAddr: nat) returns (head: nat)
      requires Ok() && listAddr !in dma && AddError(View(), |bufs|) == None && NonEmpty(bufs)
      modifies this`freeHead, this`numUsed, this`dma, this`availIdx, this`free, this`chains
      modifies shadow, table, lists, availRing
      ensures Ok() && |old(free)| > 0 && head == old(free)[0]
      ensures View() == Added(old(View()), bufs)
    {
      ghost var q := View();
      ghost var q' := Added(q, bufs);
      AddedValid(q, bufs);
      head := TakeChain(bufs, listAddr);
      assert View() == q && q'.avail == q.avail[Slot(q.availIdx, q.size) := head];
      PublishChain(head, q');
    }

    method AddSlices(inputs: seq<Slice>, outputs: seq<Slice>, listAddr: nat) returns (head: nat)
      requires Ok() && listAddr !in dma && AddError(View(), |inputs| + |outputs|) == None
      requires forall s | s in inputs + outputs :: 0 < s.len < 0x1_0000_0000
      modifies this`freeHead, this`numUsed, this`dma, this`availIdx, this`free, this`chains
      modifies shadow, table, lists, availRing
      ensures Ok() && |old(free)| > 0 && head == old(free)[0]
      ensures View() == Added(old(View()), Buffers(inputs, outputs))
      ensures Shows(ReadChain(table[..], dma, head), inputs, outputs)
    {
      SlicesNonEmpty(inputs, outputs);
      head := AddChain(Buffers(inputs, outputs), listAddr);
      LastShows(inputs, outputs);
    }

    /** Add buffers; the queue behaves as `Added`, or reports why it cannot. */
    method Add(inputs: seq<Slice>, outputs: seq<Slice>, listAddr: nat) returns (r: Result<nat>)
      requires Ok() && listAddr !in dma
      requires forall s | s in inputs + outputs :: 0 < s.len < 0x1_0000_0000
      modifies this`freeHead, this`numUsed, this`dma, this`availIdx, this`free, this`chains
      modifies shadow, table, lists, availRing
      ensures Ok()
      ensures var bufs := Buffers(inputs, outputs); var q := old(View());
              match AddError(q, |bufs|)
              case Some(e) => r == Err(e) && View() == q
              case None => View() == Added(q, bufs) && r == Result.Ok(q.free[0])
      ensures r.Ok? ==> Shows(ReadChain(table[..], dma, r.value), inputs, outputs)
    {
      var needed := |inputs| + |outputs|;
      if needed == 0 {
        return Err(InvalidParam);
      }
      if numUsed + 1 > size || needed > size || (!indirect && numUsed + needed > size) {
        return Err(QueueFull);
      }
      var head := AddSlices(inputs, outputs, listAddr);
      return Result.Ok(head);
    }

    /** The chain added last shows the device what was added. */
    lemma LastShows(inputs: seq<Slice>, outputs: seq<Slice>)
      requires Ok() && |chains| > 0 && chains[|chains| - 1].bufs == Buffers(inputs, outputs)
      ensures |chains[|chains| - 1].ids| > 0
      ensures Shows(ReadChain(table[..], dma, chains[|chains| - 1].ids[0]), inputs, outputs)
    {
      DeviceReads(|chains| - 1);
      BuffersShow(inputs, outputs);
    }

    /** The flag in the shadow tells the two kinds of chain apart. */
    lemma IndirectFlag(j: nat)
      requires Ok() && j < |chains|
      ensures |chains[j].ids| > 0 && chains[j].ids[0] < size && 0 < |chains[j].ids| <= numUsed
      ensures shadow[chains[j].ids[0]].indirect <==> IsIndirect(chains[j])
    {
      ChainInjective(View(), j);
      UsedCovers(View(), j);
      assert ChainOk(shadow[..], table[..], lists[..], dma, chains[j]);
      assert !IsIndirect(chains[j]) ==> DirectAt(shadow[..], chains[j].ids, chains[j].bufs, 0);
    }

    method RecycleIndirectChain(head: nat, bufs: seq<Buffer>, ghost j: nat) returns (unshared: seq<nat>)
      requires Ok() && IsToken(View(), j, head) && chains[j].bufs == bufs && IsIndirect(chains[j])
      modifies this`freeHead, this`numUsed, this`dma, shadow, table, lists
      ensures Shape() && Threaded(Popped(View(), j), shadow[..], table[..], lists[..], dma, freeHead)
      ensures numUsed == old(numUsed) - 1 && |unshared| == |bufs| + 1 && unshared[1..] == Addresses(bufs)
    {
      ghost var q, ids := View(), chains[j].ids;
      ghost var sh, tb, li, d, fh := shadow[..], table[..], lists[..], dma, freeHead;
      IndirectFlag(j);
      assert ChainOk(sh, tb, li, d, chains[j]);
      unshared := RecycleIndirect(head, bufs);
      assert ReleasedAt(ids, fh, shadow[..], 0);
      assert ids[0] in First(ids, 1);
      RecycledThreaded(q, j, sh, tb, li, d, fh, shadow[..], table[..], lists[..], dma);
    }

    method RecycleDirectChain(head: nat, bufs: seq<Buffer>, ghost j: nat) returns (unshared: seq<nat>)
      requires Ok() && IsToken(View(), j, head) && chains[j].bufs == bufs && !IsIndirect(chains[j])
      modifies this`freeHead, this`numUsed, this`dma, shadow, table, lists
      ensures Shape() && Threaded(Popped(View(), j), shadow[..], table[..], lists[..], dma, freeHead)
      ensures numUsed == old(numUsed) - |chains[j].ids| && unshared == Addresses(bufs)
    {
      ghost var q := View();
      ghost var sh, tb, li, d, fh := shadow[..], table[..], lists[..], dma, freeHead;
      IndirectFlag(j);
      ChainInjective(q, j);
      assert ChainOk(sh, tb, li, d, chains[j]);
      unshared := RecycleDirect(head, bufs, chains[j].ids);
      RecycledThreaded(q, j, sh, tb, li, d, fh, shadow[..], table[..], lists[..], dma);
    }

    /**
     Return the chain at `head` to the free list and its buffers, in order, to the caller; `j` is its
     position among those in flight.
     */
    method Recycle(head: nat, bufs: seq<Buffer>, ghost j: nat) returns (unshared: seq<nat>)
      requires Ok() && IsToken(View(), j, head) && chains[j].bufs == bufs
      modifies this`freeHead, this`numUsed, this`dma, shadow, table, lists
      ensures Shape() && Threaded(Popped(View(), j), shadow[..], table[..], lists[..], dma, freeHead)
      ensures numUsed == old(numUsed) - |chains[j].ids|
      ensures |unshared| == |bufs| + (if IsIndirect(chains[j]) then 1 else 0)
      ensures unshared[|unshared| - |bufs|..] == Addresses(bufs)
    {
      IndirectFlag(j);
      if shadow[head].indirect {
        unshared := RecycleIndirectChain(head, bufs, j);
      } else {
        unshared := RecycleDirectChain(head, bufs, j);
      }
    }

    /** Whether the device is to be told about what was added. */
    method NotifyNeeded() returns (b: bool)
      ensures b == ShouldNotify(eventIdx, availIdx, used.flags, used.availEvent)
    {
      if eventIdx {
        b := availIdx >= WrappingInc(used.availEvent);
      } else {
        assert BitAnd(used.flags / 2, 0) == 0;
        b := BitAnd(used.flags, 1) == 0;
      }
    }

    /** The token of the next used entry, without popping it. */
    method PeekUsed() returns (r: Option<nat>)
      requires Ok()
      ensures r == if CanPop(View(), used) then Some(NextToken(View(), used)) else None
      ensures r.Some? ==> r.value < 0x1_0000
    {
      if lastUsedIdx == used.idx {
        return None;
      }
      MaskIsSlot(lastUsedIdx, size);
      return Some(used.ring[BitAnd(lastUsedIdx, size - 1)].id % IDX_MODULUS);
    }

    /** Pop the next used entry if it is `token`'s; `j` is that chain's position among those in flight. */
    method PopUsed(token: nat, inputs: seq<Slice>, outputs: seq<Slice>, ghost j: nat) returns (r: Result<nat>)
      requires Ok()
      requires CanPop(View(), used) && NextToken(View(), used) == token ==>
                 IsToken(View(), j, token) && chains[j].bufs == Buffers(inputs, outputs)
      modifies this`freeHead, this`numUsed, this`dma, this`free, this`chains, this`lastUsedIdx, this`usedEvent
      modifies shadow, table, lists
      ensures Ok()
      ensures var q := old(View());
              if !CanPop(q, used) then r == Err(NotReady) && View() == q
              else if NextToken(q, used) != token then r == Err(WrongToken) && View() == q
              else r == Result.Ok(NextUsed(q, used).len) && j < |q.chains| && View() == Popped(q, j)
    {
      if lastUsedIdx == used.idx {
        return Err(NotReady);
      }
      MaskIsSlot(lastUsedIdx, size);
      var elem := used.ring[BitAnd(lastUsedIdx, size - 1)];
      if elem.id % IDX_MODULUS != token {
        return Err(WrongToken);
      }
      PopChain(token, Buffers(inputs, outputs), j);
      return Result.Ok(elem.len);
    }

    method PopChain(token: nat, bufs: seq<Buffer>, ghost j: nat)
      requires Ok() && IsToken(View(), j, token) && chains[j].bufs == bufs
      modifies this`freeHead, this`numUsed, this`dma, this`free, this`chains, this`lastUsedIdx, this`usedEvent
      modifies shadow, table, lists
      ensures Ok() && View() == Popped(old(View()), j)
    {
      ghost var q := View();
      ghost var q' := Popped(q, j);
      PoppedValid(q, j);
      var _ := Recycle(token, bufs, j);
      free, chains := q'.free, q'.chains;
      lastUsedIdx := WrappingInc(lastUsedIdx);
      if eventIdx {
        usedEvent := lastUsedIdx;
      }
      assert View() == q';
    }

    /** What the device reads at every head in flight is the buffers that were added, in order. */
    lemma DeviceReads(j: nat)
      requires Ok() && j < |chains|
      ensures ReadChain(table[..], dma, chains[j].ids[0]) == chains[j].bufs
    {
      assert ChainOk(shadow[..], table[..], lists[..], dma, chains[j]);
      UsedCovers(View(), j);
      UsedIsChainLength(View());
      ChainReads(shadow[..], table[..], lists[..], dma, chains[j]);
    }
  }

  /** The device following `next` from entry `i`, over at most `limit` descriptors. */
  function Walk(table: seq<Descriptor>, i: nat, limit: nat): seq<Buffer>
    decreases limit
  {
    if limit == 0 || i >= |table| then []
    else
      [Buffer(table[i].addr, table[i].len, table[i].write)] +
      if table[i].hasNext then Walk(table, table[i].next, limit - 1) else []
  }

  /** The device reading a chain from its head, through the indirect list if there is one. */
  function ReadChain(table: seq<Descriptor>, dma: map<nat, seq<Descriptor>>, head: nat): seq<Buffer> {
    if head < |table| && table[head].indirect then
      if table[head].addr in dma then Walk(dma[table[head].addr], 0, |dma[table[head].addr]|) else []
    else Walk(table, head, |table|)
  }

  lemma {:induction false} WalkReads(table: seq<Descriptor>, ids: seq<nat>, bufs: seq<Buffer>, k: nat, limit: nat)
    requires DirectOk(table, ids, bufs) && k < |ids| && |ids| - k <= limit
    ensures Walk(table, ids[k], limit) == bufs[k..]
    decreases |ids| - k
  {
    assert DirectAt(table, ids, bufs, k);
    if k + 1 < |ids| {
      WalkReads(table, ids, bufs, k + 1, limit - 1);
      assert bufs[k..] == [bufs[k]] + bufs[k + 1..];
    }
  }

  /** A chain as `add` leaves it reads as its buffers, direct or indirect. */
  lemma ChainReads(shadow: seq<Descriptor>, table: seq<Descriptor>, lists: seq<Option<seq<Descriptor>>>,
                   dma: map<nat, seq<Descriptor>>, c: Chain)
    requires ChainOk(shadow, table, lists, dma, c) && |c.ids| <= |table|
    ensures ReadChain(table, dma, c.ids[0]) == c.bufs
  {
    if IsIndirect(c) {
      WalkReads(dma[shadow[c.ids[0]].addr], Range(|c.bufs|), c.bufs, 0, |c.bufs|);
    } else {
      forall k: nat | k < |c.ids| ensures DirectAt(table, c.ids, c.bufs, k) {
        assert DirectAt(shadow, c.ids, c.bufs, k);
      }
      assert DirectAt(table, c.ids, c.bufs, 0);
      WalkReads(table, c.ids, c.bufs, 0, |table|);
    }
  }

  function Addresses(bufs: seq<Buffer>): (r: seq<nat>)
    ensures |r| == |bufs|
  {
    seq(|bufs|, i requires 0 <= i < |bufs| => bufs[i].addr)
  }

  lemma UsedCovers(q: Queue, j: nat)
    requires Valid(q) && j < |q.chains|
    ensures |q.chains[j].ids| <= NumUsed(q)
  {
    PoppedValid(q, j);
    UsedIsChainLength(Popped(q, j));
  }
}
