/**
 What a split virtqueue (section 2.6 of VirtIO v1.1) is, apart from how its free list and chains are
 threaded through the descriptor table: an ordered list of free descriptors, the chains in flight,
 and the two rings.
 */
module VirtqueueSpec {
  import opened Collections
  import opened RingIndices

  /** A buffer shared with the device; `write` marks the ones the device may write. */
  datatype Buffer = Buffer(addr: nat, len: nat, write: bool)

  datatype Slice = Slice(addr: nat, len: nat)

  /** The iteration order of `InputOutputIter`: inputs, then outputs, the latter device-writable. */
  function Buffers(inputs: seq<Slice>, outputs: seq<Slice>): (bufs: seq<Buffer>)
    ensures |bufs| == |inputs| + |outputs|
  {
    seq(|inputs|, i requires 0 <= i < |inputs| => Buffer(inputs[i].addr, inputs[i].len, false)) +
    seq(|outputs|, i requires 0 <= i < |outputs| => Buffer(outputs[i].addr, outputs[i].len, true))
  }

  /** What a device sees is the inputs, which it may only read, and then the outputs, which it may write. */
  predicate Shows(seen: seq<Buffer>, inputs: seq<Slice>, outputs: seq<Slice>) {
    && |seen| == |inputs| + |outputs|
    && (forall k | 0 <= k < |inputs| ::
          seen[k].addr == inputs[k].addr && seen[k].len == inputs[k].len && !seen[k].write)
    && (forall k | 0 <= k < |outputs| ::
          var b := seen[|inputs| + k]; b.addr == outputs[k].addr && b.len == outputs[k].len && b.write)
  }

  lemma BuffersShow(inputs: seq<Slice>, outputs: seq<Slice>)
    ensures Shows(Buffers(inputs, outputs), inputs, outputs)
  {
  }

  datatype Descriptor = Descriptor(addr: nat, len: nat, hasNext: bool, write: bool, indirect: bool, next: nat)

  datatype Error = QueueFull | NotReady | WrongToken | InvalidParam

  datatype Result<T> = Ok(value: T) | Err(error: Error)

  /** A chain in flight: the descriptors it occupies, head first, and the buffers it carries. */
  datatype Chain = Chain(ids: seq<nat>, bufs: seq<Buffer>)

  datatype Queue = Queue(
    size: nat,
    indirect: bool,
    eventIdx: bool,
    free: seq<nat>,
    chains: seq<Chain>,
    avail: seq<nat>,
    availIdx: nat,
    usedEvent: nat,
    lastUsed: nat)

  datatype UsedElem = UsedElem(id: nat, len: nat)

  /** The area the device writes. */
  datatype Used = Used(flags: nat, idx: nat, ring: seq<UsedElem>, availEvent: nat)

  function Empty(size: nat, indirect: bool, eventIdx: bool): Queue {
    Queue(size, indirect, eventIdx, Range(size), [], seq(size, _ => 0), 0, 0, 0)
  }

  /** All descriptors of the chains, with multiplicity. */
  function Ids(chains: seq<Chain>): multiset<nat> {
    if chains == [] then multiset{}
    else Ids(chains[..|chains| - 1]) + multiset(chains[|chains| - 1].ids)
  }

  predicate IsIndirect(c: Chain) {
    |c.ids| == 1 && |c.bufs| > 1
  }

  /** Free and in-flight descriptors partition 0..size. */
  ghost predicate Partition(q: Queue) {
    multiset(q.free) + Ids(q.chains) == multiset(Range(q.size))
  }

  predicate NonEmpty(bufs: seq<Buffer>) {
    forall k | 0 <= k < |bufs| :: bufs[k].len != 0
  }

  lemma SlicesNonEmpty(inputs: seq<Slice>, outputs: seq<Slice>)
    requires forall s | s in inputs + outputs :: 0 < s.len
    ensures NonEmpty(Buffers(inputs, outputs))
  {
    forall k | 0 <= k < |inputs| + |outputs| ensures Buffers(inputs, outputs)[k].len != 0 {
      assert (inputs + outputs)[k] in inputs + outputs;
    }
  }

  ghost predicate Valid(q: Queue) {
    match q
    case Queue(size, indirect, _, _, chains, avail, availIdx, _, lastUsed) =>
      && IsQueueSize(size)
      && Partition(q)
      && |avail| == size
      && availIdx < IDX_MODULUS && lastUsed < IDX_MODULUS
      && (forall j | 0 <= j < |chains| ::
            && 1 <= |chains[j].ids| <= |chains[j].bufs| <= size && NonEmpty(chains[j].bufs)
            && (|chains[j].ids| == |chains[j].bufs| || (indirect && |chains[j].ids| == 1)))
  }

  function NumUsed(q: Queue): int {
    q.size - |q.free|
  }

  // ----- The operations -----------------------------------------------------------------------

  function AddError(q: Queue, needed: nat): Option<Error> {
    if needed == 0 then Some(InvalidParam)
    else if NumUsed(q) + 1 > q.size || needed > q.size || (!q.indirect && NumUsed(q) + needed > q.size)
    then Some(QueueFull)
    else None
  }

  /** How many descriptors of the table a chain of `needed` buffers takes. */
  function Taken(q: Queue, needed: nat): nat {
    if q.indirect && needed > 1 then 1 else needed
  }

  function Added(q: Queue, bufs: seq<Buffer>): Queue
    requires 0 < q.size == |q.avail| && AddError(q, |bufs|) == None
  {
    var n := Taken(q, |bufs|);
    q.(free := q.free[n..],
    chains := q.chains + [Chain(q.free[..n], bufs)],
    avail := q.avail[Slot(q.availIdx, q.size) := q.free[0]],
    availIdx := WrappingInc(q.availIdx))
  }

  /** The chain whose head is `token`, by position. */
  predicate IsToken(q: Queue, j: nat, token: nat) {
    j < |q.chains| && |q.chains[j].ids| > 0 && q.chains[j].ids[0] == token
  }

  function Popped(q: Queue, j: nat): Queue
    requires j < |q.chains|
  {
    var lastUsed := WrappingInc(q.lastUsed);
    q.(free := q.chains[j].ids + q.free,
    chains := Without(q.chains, j),
    lastUsed := lastUsed,
    usedEvent := if q.eventIdx then lastUsed else q.usedEvent)
  }

  /** Whether the used ring holds an entry that has not been popped. */
  predicate CanPop(q: Queue, used: Used) {
    q.lastUsed != used.idx
  }

  /** The entry `pop_used` looks at. */
  function NextUsed(q: Queue, used: Used): UsedElem
    requires 0 < q.size == |used.ring|
  {
    used.ring[Slot(q.lastUsed, q.size)]
  }

  /** The token of that entry, cut to 16 bits. */
  function NextToken(q: Queue, used: Used): nat
    requires 0 < q.size == |used.ring|
  {
    NextUsed(q, used).id % IDX_MODULUS
  }

  /** Whether the device asked to be told about an available index of `availIdx`. */
  predicate ShouldNotify(eventIdx: bool, availIdx: nat, flags: nat, availEvent: nat) {
    if eventIdx then availIdx >= WrappingInc(availEvent)
    else flags % 2 == 0
  }

  // ----- Counting descriptors -----------------------------------------------------------------

  lemma {:induction false} IdsWithout(chains: seq<Chain>, j: nat)
    requires j < |chains|
    ensures Ids(chains) == Ids(Without(chains, j)) + multiset(chains[j].ids)
    decreases |chains|
  {
    var last, rest := |chains| - 1, Without(chains, j);
    if j == last {
      assert rest == chains[..last];
    } else {
      calc {
        Ids(chains);
        Ids(chains[..last]) + multiset(chains[last].ids);
        { IdsWithout(chains[..last], j); }
        Ids(Without(chains[..last], j)) + multiset(chains[j].ids) + multiset(chains[last].ids);
        {
          assert rest == Without(chains[..last], j) + [chains[last]];
          IdsSnoc(Without(chains[..last], j), chains[last]);
        }
        Ids(rest) + multiset(chains[j].ids);
      }
    }
  }

  lemma IdsSnoc(chains: seq<Chain>, c: Chain)
    ensures Ids(chains + [c]) == Ids(chains) + multiset(c.ids)
  {
    assert (chains + [c])[..|chains|] == chains;
  }

  /** No descriptor is in two places. */
  lemma FreeDistinct(q: Queue, i: nat, j: nat)
    requires Partition(q) && i < j < |q.free|
    ensures q.free[i] != q.free[j]
  {
    RepeatedCount(q.free, i, j);
    RangeCount(q.size, q.free[i]);
  }

  lemma ChainDistinct(q: Queue, j: nat, a: nat, b: nat)
    requires Partition(q) && j < |q.chains| && a < b < |q.chains[j].ids|
    ensures q.chains[j].ids[a] != q.chains[j].ids[b]
  {
    var ids := q.chains[j].ids;
    RepeatedCount(ids, a, b);
    RangeCount(q.size, ids[a]);
    IdsWithout(q.chains, j);
  }

  lemma ChainNotFree(q: Queue, j: nat, x: nat)
    requires Partition(q) && j < |q.chains| && x in q.chains[j].ids
    ensures x !in q.free && x < q.size
  {
    IdsWithout(q.chains, j);
    RangeCount(q.size, x);
    assert x in multiset(q.chains[j].ids);
    assert x in q.free ==> x in multiset(q.free);
  }

  lemma ChainsDisjoint(q: Queue, j: nat, k: nat, x: nat)
    requires Partition(q) && j < |q.chains| && k < |q.chains| && j != k && x in q.chains[j].ids
    ensures x !in q.chains[k].ids
  {
    IdsWithout(q.chains, j);
    var rest := Without(q.chains, j);
    var k' := if k < j then k else k - 1;
    IdsWithout(rest, k');
    RangeCount(q.size, x);
    assert x in multiset(q.chains[j].ids);
    var other := rest[k'].ids;
    assert x in other ==> x in multiset(other);
  }

  lemma FreeInRange(q: Queue, x: nat)
    requires Partition(q) && x in q.free
    ensures x < q.size
  {
    RangeCount(q.size, x);
    assert x in multiset(q.free);
  }

  function TotalIds(chains: seq<Chain>): nat {
    if chains == [] then 0 else TotalIds(chains[..|chains| - 1]) + |chains[|chains| - 1].ids|
  }

  lemma {:induction false} IdsSize(chains: seq<Chain>)
    ensures |Ids(chains)| == TotalIds(chains)
  {
    if chains != [] {
      IdsSize(chains[..|chains| - 1]);
    }
  }

  /** `num_used` is the total length of the chains in flight, and no more chains than descriptors. */
  lemma UsedIsChainLength(q: Queue)
    requires Valid(q)
    ensures NumUsed(q) == TotalIds(q.chains)
    ensures |q.chains| <= NumUsed(q) <= q.size
  {
    IdsSize(q.chains);
    assert |multiset(q.free)| + |Ids(q.chains)| == |multiset(Range(q.size))|;
    ChainsAtMostIds(q.chains);
  }

  lemma {:induction false} ChainsAtMostIds(chains: seq<Chain>)
    requires forall j | 0 <= j < |chains| :: 1 <= |chains[j].ids|
    ensures |chains| <= TotalIds(chains)
  {
    if chains != [] {
      ChainsAtMostIds(chains[..|chains| - 1]);
    }
  }

  /** Whenever `add` finds room, the free list is long enough for the chain it builds. */
  lemma RoomMeansFree(q: Queue, needed: nat)
    requires Valid(q) && AddError(q, needed) == None
    ensures 1 <= Taken(q, needed) <= |q.free|
  {
    UsedIsChainLength(q);
  }

  /** A chain is taken exactly when it has buffers, at most as many as the queue, and descriptors for it are free. */
  lemma AddErrorExactly(q: Queue, needed: nat)
    requires Valid(q)
    ensures AddError(q, needed) == Some(InvalidParam) <==> needed == 0
    ensures AddError(q, needed) == None <==>
              1 <= needed <= q.size && (if q.indirect then 1 else needed) <= |q.free|
    ensures AddError(q, needed) in {None, Some(InvalidParam), Some(QueueFull)}
  {
    UsedIsChainLength(q);
  }

  lemma EmptyValid(size: nat, indirect: bool, eventIdx: bool)
    requires IsQueueSize(size)
    ensures Valid(Empty(size, indirect, eventIdx))
  {
  }

  lemma AddedValid(q: Queue, bufs: seq<Buffer>)
    requires Valid(q) && AddError(q, |bufs|) == None && NonEmpty(bufs)
    ensures Valid(Added(q, bufs))
  {
    RoomMeansFree(q, |bufs|);
    var n := Taken(q, |bufs|);
    assert q.free == q.free[..n] + q.free[n..];
    IdsSnoc(q.chains, Chain(q.free[..n], bufs));
  }

  lemma PoppedValid(q: Queue, j: nat)
    requires Valid(q) && j < |q.chains|
    ensures Valid(Popped(q, j))
  {
    IdsWithout(q.chains, j);
  }

  /** Popping the chain just added puts the free list back as it was. */
  lemma AddPopRestoresFree(q: Queue, bufs: seq<Buffer>)
    requires Valid(q) && AddError(q, |bufs|) == None
    ensures var p := Popped(Added(q, bufs), |q.chains|);
            p.free == q.free && p.chains == q.chains
  {
    RoomMeansFree(q, |bufs|);
    var n := Taken(q, |bufs|);
    assert q.free[..n] + q.free[n..] == q.free;
    assert Without(q.chains + [Chain(q.free[..n], bufs)], |q.chains|) == q.chains;
  }
}
