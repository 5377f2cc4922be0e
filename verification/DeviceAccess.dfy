/**
 Adding and popping write by write: each descriptor, each shared list, the ring slot and the index are
 separate steps, between which the device may take, read and return chains.  The steps refine those
 of `VirtqueueRuns`, where adding and popping are single steps.
 */
module DeviceAccess {
  import opened Collections
  import opened RingIndices
  import opened VirtqueueSpec
  import opened Virtqueue
  import V = VirtqueueRuns

  datatype Memory = Memory(
    shadow: seq<Descriptor>,
    table: seq<Descriptor>,                // read by the device
    lists: seq<Option<seq<Descriptor>>>,
    dma: map<nat, seq<Descriptor>>,        // read by the device
    freeHead: nat)

  /** Where the driver is between two writes. */
  datatype Pc =
    | Idle
    | Filling(bufs: seq<Buffer>, head: nat, last: nat, i: nat)               // `add_direct`, `i` descriptors written
    | Listing(bufs: seq<Buffer>, listAddr: nat)                              // `add_indirect`, about to share the list
    | Pointing(bufs: seq<Buffer>, listAddr: nat)                             // about to write the descriptor
    | Chained(bufs: seq<Buffer>, head: nat)                                  // about to write the ring slot
    | Slotted(bufs: seq<Buffer>, head: nat)                                  // about to store the index
    | Releasing(j: nat, original: nat, next: Option<nat>, i: nat)            // recycling, `i` descriptors released
    | Unlisting(j: nat, original: nat)                                       // about to unshare the list
    | Released(j: nat)                                                       // about to store `last_used_idx`

  datatype State = State(
    run: V.System,
    mem: Memory,
    ring: seq<nat>,   // the available ring, read by the device
    pc: Pc,
    base: Memory)     // history: the memory when the call began

  datatype Step =
    | BeginAdd(bufs: seq<Buffer>, listAddr: nat)
    | BeginPop(j: nat)
    | Next                          // the driver's next write
    | Take                          // the device reads the next available entry
    | Return(head: nat, len: nat)   // and returns a chain it holds

  function InitMemory(size: nat): Memory {
    Memory(seq(size, i requires 0 <= i => Descriptor(0, 0, false, false, false, i + 1)),
           seq(size, i requires 0 <= i => Descriptor(0, 0, false, false, false, if i + 1 < size then i + 1 else 0)),
           seq(size, _ => None), map[], 0)
  }

  function Init(size: nat, indirect: bool, eventIdx: bool): State {
    State(V.Init(size, indirect, eventIdx), InitMemory(size), seq(size, _ => 0), Idle, InitMemory(size))
  }

  // ----- The writes ---------------------------------------------------------------------------

  predicate Within(m: Memory, id: nat) {
    id < |m.shadow| == |m.table| == |m.lists|
  }

  /** `write_desc`: the entry goes to the shadow and is copied to the device's table. */
  function WriteDesc(m: Memory, id: nat, d: Descriptor): Memory
    requires Within(m, id)
  {
    m.(shadow := m.shadow[id := d], table := m.table[id := d])
  }

  function FillFree(m: Memory, b: Buffer): Memory
    requires Within(m, m.freeHead)
  {
    var next := m.shadow[m.freeHead].next;
    WriteDesc(m, m.freeHead, Descriptor(b.addr, b.len, true, b.write, false, next)).(freeHead := next)
  }

  function Finish(m: Memory, last: nat): Memory
    requires Within(m, last)
  {
    WriteDesc(m, last, m.shadow[last].(hasNext := false))
  }

  function ListFor(bufs: seq<Buffer>): (list: seq<Descriptor>)
    ensures |list| == |bufs| && DirectOk(list, Range(|bufs|), bufs)
  {
    seq(|bufs|, k requires 0 <= k < |bufs| =>
      Descriptor(bufs[k].addr, bufs[k].len, k + 1 < |bufs|, bufs[k].write, false, k + 1))
  }

  function ShareList(m: Memory, bufs: seq<Buffer>, listAddr: nat): Memory
    requires Within(m, m.freeHead)
  {
    m.(lists := m.lists[m.freeHead := Some(ListFor(bufs))], dma := m.dma[listAddr := ListFor(bufs)])
  }

  function PointAtList(m: Memory, bufs: seq<Buffer>, listAddr: nat): Memory
    requires Within(m, m.freeHead)
  {
    var next := m.shadow[m.freeHead].next;
    var d := Descriptor(listAddr, DESCRIPTOR_SIZE * |bufs|, false, false, true, next);
    WriteDesc(m, m.freeHead, d).(freeHead := next)
  }

  function Release(m: Memory, id: nat, original: nat): Memory
    requires Within(m, id)
  {
    var d := m.shadow[id].(addr := 0, len := 0);
    WriteDesc(m, id, if d.hasNext then d else d.(next := original))
  }

  function Unlist(m: Memory, head: nat, original: nat): Memory
    requires Within(m, head)
  {
    m.(shadow := m.shadow[head := m.shadow[head].(addr := 0, len := 0, next := original)],
    lists := m.lists[head := None],
    dma := m.dma - {m.shadow[head].addr})
  }

  // ----- The steps ----------------------------------------------------------------------------

  predicate InFlight(s: State, j: nat) {
    j < |s.run.q.chains| && |s.run.q.chains[j].ids| > 0
  }

  /** The driver's next write is within bounds. */
  predicate NextEnabled(s: State) {
    match s.pc
    case Idle => false
    case Filling(bufs, _, last, i) => Within(s.mem, if i < |bufs| then s.mem.freeHead else last)
    case Listing(_, _) => Within(s.mem, s.mem.freeHead)
    case Pointing(_, _) => Within(s.mem, s.mem.freeHead)
    case Chained(_, _) => s.run.q.size > 0 && |s.ring| == s.run.q.size
    case Slotted(bufs, _) => V.Enabled(s.run, V.Add(bufs))
    case Releasing(j, _, next, i) =>
      InFlight(s, j) && (i < |s.run.q.chains[j].bufs| <==> next.Some?) && (next.Some? ==> Within(s.mem, next.value))
    case Unlisting(j, _) => InFlight(s, j) && Within(s.mem, s.run.q.chains[j].ids[0])
    case Released(j) => V.Enabled(s.run, V.Pop(j))
  }

  predicate Enabled(s: State, step: Step) {
    match step
    case BeginAdd(bufs, listAddr) =>
      s.pc == Idle && V.Enabled(s.run, V.Add(bufs)) && listAddr !in s.mem.dma
    case BeginPop(j) =>
      s.pc == Idle && V.Enabled(s.run, V.Pop(j)) && Within(s.mem, s.run.q.chains[j].ids[0])
    case Next => NextEnabled(s)
    case Take => V.Enabled(s.run, V.Take) && |s.ring| == s.run.q.size
    case Return(head, len) => V.Enabled(s.run, V.Return(head, len))
  }

  function ApplyNext(s: State): State
    requires NextEnabled(s)
  {
    match s.pc
    case Filling(bufs, head, last, i) =>
      if i < |bufs| then s.(mem := FillFree(s.mem, bufs[i]), pc := Filling(bufs, head, s.mem.freeHead, i + 1))
      else s.(mem := Finish(s.mem, last), pc := Chained(bufs, head))
    case Listing(bufs, listAddr) => s.(mem := ShareList(s.mem, bufs, listAddr), pc := Pointing(bufs, listAddr))
    case Pointing(bufs, listAddr) =>
      s.(mem := PointAtList(s.mem, bufs, listAddr), pc := Chained(bufs, s.mem.freeHead))
    case Chained(bufs, head) =>
      s.(ring := s.ring[Slot(s.run.q.availIdx, s.run.q.size) := head], pc := Slotted(bufs, head))
    case Slotted(bufs, _) => s.(run := V.Apply(s.run, V.Add(bufs)), pc := Idle, base := s.mem)
    case Releasing(j, original, next, i) =>
      if next.Some? then
        var d := s.mem.shadow[next.value];
        s.(mem := Release(s.mem, next.value, original),
        pc := Releasing(j, original, if d.hasNext then Some(d.next) else None, i + 1))
      else s.(pc := Released(j))
    case Unlisting(j, original) => s.(mem := Unlist(s.mem, s.run.q.chains[j].ids[0], original), pc := Released(j))
    case Released(j) => s.(run := V.Apply(s.run, V.Pop(j)), pc := Idle, base := s.mem)
  }

  function Apply(s: State, step: Step): State
    requires Enabled(s, step)
  {
    match step
    case BeginAdd(bufs, listAddr) =>
      s.(pc := if s.run.q.indirect && |bufs| > 1 then Listing(bufs, listAddr)
               else Filling(bufs, s.mem.freeHead, s.mem.freeHead, 0))
    case BeginPop(j) =>
      var head := s.run.q.chains[j].ids[0];
      s.(mem := s.mem.(freeHead := head),
      pc := if s.mem.shadow[head].indirect then Unlisting(j, s.mem.freeHead)
            else Releasing(j, s.mem.freeHead, Some(head), 0))
    case Next => ApplyNext(s)
    case Take =>
      s.(run := s.run.(nextAvail := WrappingInc(s.run.nextAvail), taken := s.run.taken + 1,
      holding := s.run.holding + multiset{s.ring[Slot(s.run.nextAvail, s.run.q.size)]}))
    case Return(head, len) => s.(run := V.Apply(s.run, V.Return(head, len)))
  }

  predicate Run(s: State, steps: seq<Step>, s': State)
    decreases |steps|
  {
    if steps == [] then s == s'
    else Enabled(s, steps[0]) && Run(Apply(s, steps[0]), steps[1..], s')
  }

  ghost predicate Reachable(s: State) {
    exists size, indirect, eventIdx, steps ::
      IsQueueSize(size) && Run(Init(size, indirect, eventIdx), steps, s)
  }

  // ----- The invariant ------------------------------------------------------------------------

  ghost predicate ThreadedIn(q: Queue, m: Memory) {
    Threaded(q, m.shadow, m.table, m.lists, m.dma, m.freeHead)
  }

  predicate Shaped(size: nat, m: Memory) {
    |m.shadow| == |m.table| == |m.lists| == size
  }

  /** Outside `ids` the entries are as they were. */
  predicate KeptOutside(ids: set<nat>, base: Memory, m: Memory) {
    && |m.shadow| == |base.shadow| && |m.table| == |base.table| && |m.lists| == |base.lists|
    && (forall x | 0 <= x < |m.shadow| && x !in ids :: m.shadow[x] == base.shadow[x])
    && (forall x | 0 <= x < |m.table| && x !in ids :: m.table[x] == base.table[x])
  }

  predicate FilledUpTo(free: seq<nat>, bufs: seq<Buffer>, size: nat, i: nat, base: Memory, m: Memory) {
    && i <= |bufs| <= |free| && Shaped(size, m) && Shaped(size, base)
    && m.lists == base.lists && m.dma == base.dma
    && m.freeHead == Link(free, i, size)
    && (forall k | 0 <= k < i ::
          FilledAt(free, bufs[k], size, m.shadow, k, true) && FilledAt(free, bufs[k], size, m.table, k, true))
    && KeptOutside(First(free, i), base, m)
  }

  predicate ReleasedUpTo(c: Chain, size: nat, i: nat, base: Memory, m: Memory) {
    && i <= |c.ids| && 0 < |c.ids| && Shaped(size, m) && Shaped(size, base)
    && m.lists == base.lists && m.dma == base.dma && m.freeHead == c.ids[0]
    && (forall k | 0 <= k < i :: ReleasedAt(c.ids, base.freeHead, m.shadow, k))
    && KeptOutside(First(c.ids, i), base, m)
  }

  /** The driver is adding `bufs`, and the chain will take `n` descriptors. */
  predicate Adding(s: State, bufs: seq<Buffer>, n: nat) {
    V.Enabled(s.run, V.Add(bufs)) && Taken(s.run.q, |bufs|) == n <= |s.run.q.free| && n > 0
  }

  predicate Popping(s: State, j: nat) {
    V.Enabled(s.run, V.Pop(j)) && s.ring == s.run.q.avail
  }

  ghost predicate PcOk(s: State) {
    match s.pc
    case Idle => s.mem == s.base && s.ring == s.run.q.avail
    case Filling(bufs, head, last, i) =>
      && Adding(s, bufs, |bufs|) && s.ring == s.run.q.avail
      && head == s.run.q.free[0] && i <= |bufs| && (i > 0 ==> last == s.run.q.free[i - 1])
      && FilledUpTo(s.run.q.free, bufs, s.run.q.size, i, s.base, s.mem)
    case Listing(bufs, listAddr) =>
      && Adding(s, bufs, 1) && |bufs| > 1 && s.ring == s.run.q.avail
      && listAddr !in s.base.dma && s.mem == s.base
    case Pointing(bufs, listAddr) =>
      && Adding(s, bufs, 1) && |bufs| > 1 && s.ring == s.run.q.avail
      && listAddr !in s.base.dma && Within(s.base, s.base.freeHead) && s.mem == ShareList(s.base, bufs, listAddr)
    case Chained(bufs, head) =>
      && Adding(s, bufs, Taken(s.run.q, |bufs|)) && s.ring == s.run.q.avail
      && head == s.run.q.free[0] && ThreadedIn(Added(s.run.q, bufs), s.mem)
    case Slotted(bufs, head) =>
      && Adding(s, bufs, Taken(s.run.q, |bufs|)) && s.ring == Added(s.run.q, bufs).avail
      && ThreadedIn(Added(s.run.q, bufs), s.mem)
    case Releasing(j, original, next, i) =>
      && Popping(s, j) && !IsIndirect(s.run.q.chains[j]) && original == s.base.freeHead
      && next == (if i < |s.run.q.chains[j].ids| then Some(s.run.q.chains[j].ids[i]) else None)
      && ReleasedUpTo(s.run.q.chains[j], s.run.q.size, i, s.base, s.mem)
    case Unlisting(j, original) =>
      && Popping(s, j) && IsIndirect(s.run.q.chains[j]) && original == s.base.freeHead
      && s.mem == s.base.(freeHead := s.run.q.chains[j].ids[0])
    case Released(j) => Popping(s, j) && ThreadedIn(Popped(s.run.q, j), s.mem)
  }

  /** A chain is being recycled once popping it has begun. */
  predicate BeingRecycled(pc: Pc, i: nat) {
    (pc.Releasing? || pc.Unlisting? || pc.Released?) && pc.j == i
  }

  ghost predicate Inv(s: State) {
    match s
    case State(run, _, _, _, base) => V.Inv(run) && ThreadedIn(run.q, base) && PcOk(s)
  }

  lemma InitInv(size: nat, indirect: bool, eventIdx: bool)
    requires IsQueueSize(size)
    ensures Inv(Init(size, indirect, eventIdx))
  {
    V.InitInv(size, indirect, eventIdx);
    var m := InitMemory(size);
    forall k: nat | k < size ensures FreeAt(m.shadow, Range(size), size, k) {
    }
    assert ThreadedIn(Empty(size, indirect, eventIdx), m);
  }

  // ----- The device's steps -------------------------------------------------------------------

  /** The ring entry the device reads is the one the specification has, whatever the driver is doing. */
  lemma RingEntry(s: State, k: nat)
    requires Inv(s) && s.run.taken <= k < s.run.added
    ensures |s.ring| == s.run.q.size && s.ring[Slot(k, s.run.q.size)] == s.run.q.avail[Slot(k, s.run.q.size)]
  {
    if s.pc.Slotted? {
      V.AddRoom(s.run, s.pc.bufs);
      SlotOfCut(s.run.added, s.run.q.size);
      SlotsDiffer(k, s.run.added, s.run.q.size);
    }
  }

  lemma TakeRefines(s: State)
    requires Inv(s) && Enabled(s, Take)
    ensures Apply(s, Take).run == V.Apply(s.run, V.Take)
  {
    V.CanTakeExactly(s.run);
    SlotOfCut(s.run.taken, s.run.q.size);
    RingEntry(s, s.run.taken);
  }

  /** An entry the driver is popping is not overwritten by the device returning more chains. */
  lemma NextUsedKept(r: V.System, head: nat, len: nat)
    requires V.Shaped(r) && IsQueueSize(r.q.size) && V.Counters(r) && V.Enabled(r, V.Return(head, len))
    requires r.popped < r.returned < r.popped + r.q.size
    ensures NextUsed(r.q, V.Apply(r, V.Return(head, len)).used) == NextUsed(r.q, r.used)
  {
    SlotOfCut(r.popped, r.q.size);
    SlotOfCut(r.returned, r.q.size);
    SlotsDiffer(r.popped, r.returned, r.q.size);
  }

  lemma CanPopKept(r: V.System, head: nat, len: nat)
    requires V.Inv(r) && V.Enabled(r, V.Return(head, len)) && CanPop(r.q, r.used)
    ensures r.popped < r.returned < r.popped + r.q.size
    ensures CanPop(r.q, V.Apply(r, V.Return(head, len)).used)
  {
    V.CanPopExactly(r);
    V.Occupancy(r);
    V.StepInv(r, V.Return(head, len));
    V.CanPopExactly(V.Apply(r, V.Return(head, len)));
  }

  lemma ReturnKeepsPop(r: V.System, head: nat, len: nat, j: nat)
    requires V.Inv(r) && V.Enabled(r, V.Return(head, len)) && V.Enabled(r, V.Pop(j))
    ensures V.Enabled(V.Apply(r, V.Return(head, len)), V.Pop(j))
  {
    CanPopKept(r, head, len);
    NextUsedKept(r, head, len);
  }

  lemma RecycledPoppable(s: State, j: nat)
    requires PcOk(s) && BeingRecycled(s.pc, j)
    ensures V.Enabled(s.run, V.Pop(j))
  {
  }

  /** The driver's side looks at the queue alone, and at the used entry it is popping. */
  lemma DeviceFrame(s: State, run: V.System)
    requires PcOk(s) && run.q == s.run.q && V.Shaped(run)
    requires forall j | BeingRecycled(s.pc, j) :: V.Enabled(run, V.Pop(j))
    ensures PcOk(s.(run := run))
  {
    match s.pc
    case Releasing(j, _, _, _) => assert BeingRecycled(s.pc, j);
    case Unlisting(j, _) => assert BeingRecycled(s.pc, j);
    case Released(j) => assert BeingRecycled(s.pc, j);
    case _ =>
  }

  lemma TakeInv(s: State)
    requires Inv(s) && Enabled(s, Take)
    ensures Inv(Apply(s, Take))
  {
    TakeRefines(s);
    V.StepInv(s.run, V.Take);
    DeviceFrame(s, V.Apply(s.run, V.Take));
  }

  lemma ReturnInv(s: State, head: nat, len: nat)
    requires Inv(s) && Enabled(s, Return(head, len))
    ensures Inv(Apply(s, Return(head, len)))
  {
    V.StepInv(s.run, V.Return(head, len));
    forall j: nat | BeingRecycled(s.pc, j) ensures V.Enabled(V.Apply(s.run, V.Return(head, len)), V.Pop(j)) {
      RecycledPoppable(s, j);
      ReturnKeepsPop(s.run, head, len, j);
    }
    DeviceFrame(s, V.Apply(s.run, V.Return(head, len)));
  }

  // ----- The driver's steps -------------------------------------------------------------------

  lemma BeginAddInv(s: State, bufs: seq<Buffer>, listAddr: nat)
    requires Inv(s) && Enabled(s, BeginAdd(bufs, listAddr))
    ensures Inv(Apply(s, BeginAdd(bufs, listAddr)))
  {
    RoomMeansFree(s.run.q, |bufs|);
  }

  lemma BeginPopInv(s: State, j: nat)
    requires Inv(s) && Enabled(s, BeginPop(j))
    ensures Inv(Apply(s, BeginPop(j)))
  {
    var q, c := s.run.q, s.run.q.chains[j];
    assert ChainOk(s.mem.shadow, s.mem.table, s.mem.lists, s.mem.dma, c);
    assert !IsIndirect(c) ==> DirectAt(s.mem.shadow, c.ids, c.bufs, 0);
  }

  /** The free descriptor written next is the one after those written so far, still linked as before. */
  lemma NextFree(q: Queue, bufs: seq<Buffer>, i: nat, base: Memory, m: Memory)
    requires Valid(q) && ThreadedIn(q, base) && FilledUpTo(q.free, bufs, q.size, i, base, m) && i < |bufs|
    ensures m.freeHead == q.free[i] < q.size && m.shadow[q.free[i]].next == Link(q.free, i + 1, q.size)
  {
    FreeInjective(q);
    assert FreeAt(base.shadow, q.free, q.size, i);
    assert q.free[i] !in First(q.free, i);
  }

  lemma FillKeeps(q: Queue, bufs: seq<Buffer>, i: nat, base: Memory, m: Memory)
    requires Valid(q) && ThreadedIn(q, base) && FilledUpTo(q.free, bufs, q.size, i, base, m) && i < |bufs|
    ensures Within(m, m.freeHead) && FilledUpTo(q.free, bufs, q.size, i + 1, base, FillFree(m, bufs[i]))
  {
    NextFree(q, bufs, i, base, m);
    FreeInjective(q);
    var m' := FillFree(m, bufs[i]);
    forall k: nat | k < i + 1
      ensures FilledAt(q.free, bufs[k], q.size, m'.shadow, k, true)
      ensures FilledAt(q.free, bufs[k], q.size, m'.table, k, true)
    {
      if k < i {
        assert FilledAt(q.free, bufs[k], q.size, m.shadow, k, true);
        assert FilledAt(q.free, bufs[k], q.size, m.table, k, true);
      }
    }
    assert q.free[i] in First(q.free, i + 1);
    assert First(q.free, i) <= First(q.free, i + 1);
  }

  lemma FinishThreads(q: Queue, bufs: seq<Buffer>, base: Memory, m: Memory)
    requires Valid(q) && ThreadedIn(q, base) && FilledUpTo(q.free, bufs, q.size, |bufs|, base, m)
    requires AddError(q, |bufs|) == None && Taken(q, |bufs|) == |bufs| > 0
    ensures Within(m, q.free[|bufs| - 1]) && ThreadedIn(Added(q, bufs), Finish(m, q.free[|bufs| - 1]))
  {
    var n, last := |bufs|, q.free[|bufs| - 1];
    FreeInjective(q);
    assert FilledAt(q.free, bufs[n - 1], q.size, m.shadow, n - 1, true);
    var m' := Finish(m, last);
    forall k: nat | k < n
      ensures FilledAt(q.free, bufs[k], q.size, m'.shadow, k, k + 1 < n)
      ensures FilledAt(q.free, bufs[k], q.size, m'.table, k, k + 1 < n)
    {
      assert FilledAt(q.free, bufs[k], q.size, m.shadow, k, true);
      assert FilledAt(q.free, bufs[k], q.size, m.table, k, true);
    }
    assert last in First(q.free, n);
    DirectThreaded(q, bufs, base.shadow, base.table, base.lists, base.dma, base.freeHead, m'.shadow, m'.table);
  }

  lemma FillingInv(s: State)
    requires Inv(s) && s.pc.Filling?
    ensures NextEnabled(s) && Inv(ApplyNext(s))
  {
    var q, bufs, i := s.run.q, s.pc.bufs, s.pc.i;
    if i < |bufs| {
      NextFree(q, bufs, i, s.base, s.mem);
      FillKeeps(q, bufs, i, s.base, s.mem);
    } else {
      FinishThreads(q, bufs, s.base, s.mem);
    }
  }

  /** The list head is the first free descriptor. */
  lemma FirstFree(q: Queue, m: Memory)
    requires Valid(q) && ThreadedIn(q, m) && |q.free| > 0
    ensures Within(m, m.freeHead) && m.freeHead == q.free[0]
  {
    FreeInjective(q);
    assert FreeAt(m.shadow, q.free, q.size, 0);
  }

  lemma ListingInv(s: State)
    requires Inv(s) && (s.pc.Listing? || s.pc.Pointing?)
    ensures NextEnabled(s) && Inv(ApplyNext(s))
  {
    var q, m, bufs, listAddr := s.run.q, s.base, s.pc.bufs, s.pc.listAddr;
    FirstFree(q, m);
    if s.pc.Pointing? {
      IndirectThreaded(q, bufs, listAddr, ListFor(bufs), m.shadow, m.table, m.lists, m.dma, m.freeHead,
                       Descriptor(listAddr, DESCRIPTOR_SIZE * |bufs|, false, false, true, m.shadow[m.freeHead].next));
    }
  }

  lemma PublishInv(s: State)
    requires Inv(s) && (s.pc.Chained? || s.pc.Slotted?)
    ensures NextEnabled(s) && Inv(ApplyNext(s))
  {
    if s.pc.Slotted? {
      V.StepInv(s.run, V.Add(s.pc.bufs));
    }
  }

  lemma ReleaseKeeps(q: Queue, j: nat, i: nat, base: Memory, m: Memory)
    requires Valid(q) && ThreadedIn(q, base) && j < |q.chains| && !IsIndirect(q.chains[j])
    requires ReleasedUpTo(q.chains[j], q.size, i, base, m) && i < |q.chains[j].ids|
    ensures var c := q.chains[j];
            && |c.ids| == |c.bufs| && Within(m, c.ids[i])
            && m.shadow[c.ids[i]].hasNext == (i + 1 < |c.ids|)
            && (i + 1 < |c.ids| ==> m.shadow[c.ids[i]].next == c.ids[i + 1])
            && ReleasedUpTo(c, q.size, i + 1, base, Release(m, c.ids[i], base.freeHead))
  {
    var c := q.chains[j];
    ChainInjective(q, j);
    assert ChainOk(base.shadow, base.table, base.lists, base.dma, c);
    assert DirectAt(base.shadow, c.ids, c.bufs, i);
    assert c.ids[i] !in First(c.ids, i) && c.ids[i] in First(c.ids, i + 1);
    assert First(c.ids, i) <= First(c.ids, i + 1);
    var m' := Release(m, c.ids[i], base.freeHead);
    forall k: nat | k < i + 1 ensures ReleasedAt(c.ids, base.freeHead, m'.shadow, k) {
      if k < i {
        assert ReleasedAt(c.ids, base.freeHead, m.shadow, k);
      }
    }
  }

  lemma ReleasedThreads(q: Queue, j: nat, base: Memory, m: Memory)
    requires Valid(q) && ThreadedIn(q, base) && j < |q.chains| && !IsIndirect(q.chains[j])
    requires ReleasedUpTo(q.chains[j], q.size, |q.chains[j].ids|, base, m)
    ensures ThreadedIn(Popped(q, j), m)
  {
    assert ChainOk(base.shadow, base.table, base.lists, base.dma, q.chains[j]);
    ChainInjective(q, j);
    RecycledThreaded(q, j, base.shadow, base.table, base.lists, base.dma, base.freeHead,
                     m.shadow, m.table, m.lists, m.dma);
  }

  lemma ReleasingInv(s: State)
    requires Inv(s) && s.pc.Releasing?
    ensures NextEnabled(s) && Inv(ApplyNext(s))
  {
    var q, j, i := s.run.q, s.pc.j, s.pc.i;
    assert ChainOk(s.base.shadow, s.base.table, s.base.lists, s.base.dma, q.chains[j]);
    if i < |q.chains[j].ids| {
      ReleaseKeeps(q, j, i, s.base, s.mem);
    } else {
      ReleasedThreads(q, j, s.base, s.mem);
    }
  }

  lemma UnlistingInv(s: State)
    requires Inv(s) && s.pc.Unlisting?
    ensures NextEnabled(s) && Inv(ApplyNext(s))
  {
    var q, j, m := s.run.q, s.pc.j, s.base;
    var ids := q.chains[j].ids;
    assert ChainOk(m.shadow, m.table, m.lists, m.dma, q.chains[j]);
    var m' := Unlist(s.mem, ids[0], m.freeHead);
    assert ReleasedAt(ids, m.freeHead, m'.shadow, 0);
    assert ids[0] in First(ids, 1);
    RecycledThreaded(q, j, m.shadow, m.table, m.lists, m.dma, m.freeHead, m'.shadow, m'.table, m'.lists, m'.dma);
  }

  lemma ReleasedInv(s: State)
    requires Inv(s) && s.pc.Released?
    ensures NextEnabled(s) && Inv(ApplyNext(s))
  {
    V.StepInv(s.run, V.Pop(s.pc.j));
  }

  /** A call under way always has a next write, and it keeps the invariant. */
  lemma NextInv(s: State)
    requires Inv(s) && s.pc != Idle
    ensures NextEnabled(s) && Inv(ApplyNext(s))
  {
    match s.pc
    case Filling(_, _, _, _) => FillingInv(s);
    case Listing(_, _) => ListingInv(s);
    case Pointing(_, _) => ListingInv(s);
    case Chained(_, _) => PublishInv(s);
    case Slotted(_, _) => PublishInv(s);
    case Releasing(_, _, _, _) => ReleasingInv(s);
    case Unlisting(_, _) => UnlistingInv(s);
    case Released(_) => ReleasedInv(s);
  }

  lemma StepInv(s: State, step: Step)
    requires Inv(s) && Enabled(s, step)
    ensures Inv(Apply(s, step))
  {
    match step
    case BeginAdd(bufs, listAddr) => BeginAddInv(s, bufs, listAddr);
    case BeginPop(j) => BeginPopInv(s, j);
    case Next => NextInv(s);
    case Take => TakeInv(s);
    case Return(head, len) => ReturnInv(s, head, len);
  }

  lemma {:induction false} RunInv(s: State, steps: seq<Step>, s': State)
    requires Inv(s) && Run(s, steps, s')
    ensures Inv(s')
    decreases |steps|
  {
    if steps != [] {
      StepInv(s, steps[0]);
      RunInv(Apply(s, steps[0]), steps[1..], s');
    }
  }

  lemma ReachableInv(s: State)
    requires Reachable(s)
    ensures Inv(s)
  {
    var size, indirect, eventIdx, steps :|
      IsQueueSize(size) && Run(Init(size, indirect, eventIdx), steps, s);
    InitInv(size, indirect, eventIdx);
    RunInv(Init(size, indirect, eventIdx), steps, s);
  }

  // ----- What the device sees -----------------------------------------------------------------

  lemma FillingChain(s: State, i: nat)
    requires Inv(s) && s.pc.Filling? && i < |s.run.q.chains|
    ensures var m := s.mem; ChainOk(m.shadow, m.table, m.lists, m.dma, s.run.q.chains[i])
  {
    var q, m, b := s.run.q, s.mem, s.base;
    ChainsKept(q, First(q.free, s.pc.i), b.shadow, b.table, b.lists, b.dma, m.shadow, m.table, m.lists, m.dma);
  }

  lemma ListingChain(s: State, i: nat)
    requires Inv(s) && (s.pc.Listing? || s.pc.Pointing?) && i < |s.run.q.chains|
    ensures var m := s.mem; ChainOk(m.shadow, m.table, m.lists, m.dma, s.run.q.chains[i])
  {
    var q, m, b := s.run.q, s.mem, s.base;
    FirstFree(q, b);
    ChainsKept(q, {q.free[0]}, b.shadow, b.table, b.lists, b.dma, m.shadow, m.table, m.lists, m.dma);
  }

  lemma AddedChain(s: State, i: nat)
    requires Inv(s) && (s.pc.Chained? || s.pc.Slotted?) && i < |s.run.q.chains|
    ensures var m := s.mem; ChainOk(m.shadow, m.table, m.lists, m.dma, s.run.q.chains[i])
  {
    assert s.run.q.chains[i] == Added(s.run.q, s.pc.bufs).chains[i];
  }

  lemma ReleasingChain(s: State, i: nat)
    requires Inv(s) && (s.pc.Releasing? || s.pc.Unlisting?) && i < |s.run.q.chains| && i != s.pc.j
    ensures var m := s.mem; ChainOk(m.shadow, m.table, m.lists, m.dma, s.run.q.chains[i])
  {
    var q, m, b := s.run.q, s.mem, s.base;
    assert ChainOk(b.shadow, b.table, b.lists, b.dma, q.chains[i]);
    OthersKept(q, s.pc.j, i, b.shadow, b.table, b.lists, b.dma, m.shadow, m.table, m.lists, m.dma);
  }

  lemma ReleasedChain(s: State, i: nat)
    requires Inv(s) && s.pc.Released? && i < |s.run.q.chains| && i != s.pc.j
    ensures var m := s.mem; ChainOk(m.shadow, m.table, m.lists, m.dma, s.run.q.chains[i])
  {
    var k := if i < s.pc.j then i else i - 1;
    assert s.run.q.chains[i] == Popped(s.run.q, s.pc.j).chains[k];
  }

  /** Whatever write comes next, a chain in flight that is not being recycled is whole. */
  lemma ChainWhole(s: State, i: nat)
    requires Inv(s) && i < |s.run.q.chains| && !BeingRecycled(s.pc, i)
    ensures var m := s.mem; ChainOk(m.shadow, m.table, m.lists, m.dma, s.run.q.chains[i])
  {
    match s.pc
    case Idle =>
    case Filling(_, _, _, _) => FillingChain(s, i);
    case Listing(_, _) => ListingChain(s, i);
    case Pointing(_, _) => ListingChain(s, i);
    case Chained(_, _) => AddedChain(s, i);
    case Slotted(_, _) => AddedChain(s, i);
    case Releasing(_, _, _, _) => ReleasingChain(s, i);
    case Unlisting(_, _) => ReleasingChain(s, i);
    case Released(_) => ReleasedChain(s, i);
  }

  lemma HeadsDistinct(q: Queue, i: nat, j: nat)
    requires Valid(q) && i < j < |q.chains|
    ensures V.Heads(q.chains)[i] != V.Heads(q.chains)[j]
  {
    ChainsDisjoint(q, i, j, q.chains[i].ids[0]);
  }

  /** A head in two places would be two chains. */
  lemma HeadOnce(q: Queue, h: nat)
    requires Valid(q)
    ensures multiset(V.Heads(q.chains))[h] <= 1
  {
    var heads := V.Heads(q.chains);
    if h in heads {
      var i: nat :| i < |heads| && heads[i] == h;
      CountWithout(heads, i);
      var rest := Without(heads, i);
      if h in multiset(rest) {
        assert h in rest;
        var k: nat :| k < |rest| && rest[k] == h;
        var i' := if k < i then k else k + 1;
        HeadsDistinct(q, if i < i' then i else i', if i < i' then i' else i);
      }
    }
  }

  /** The chain being recycled is the oldest one returned, so the device no longer has it. */
  lemma RecycledReturned(s: State, j: nat)
    requires Inv(s) && BeingRecycled(s.pc, j)
    ensures j < |s.run.q.chains| && V.Heads(s.run.q.chains)[j] in multiset(V.Unpopped(s.run))
  {
    RecycledPoppable(s, j);
    V.CanPopExactly(s.run);
    var _ := V.NextIsInFlight(s.run);
    assert V.Unpopped(s.run)[0] == V.Heads(s.run.q.chains)[j];
  }

  /** The chain of a head that waits in the ring or that the device holds, and reads there. */
  lemma ReadsAt(s: State, h: nat) returns (i: nat)
    requires Inv(s) && (h in s.run.holding || h in V.Waiting(s.run))
    ensures i < |s.run.q.chains| && |s.run.q.chains[i].ids| > 0 && s.run.q.chains[i].ids[0] == h
    ensures ReadChain(s.mem.table, s.mem.dma, h) == s.run.q.chains[i].bufs
  {
    var q, heads := s.run.q, V.Heads(s.run.q.chains);
    assert h in V.Waiting(s.run) ==> h in multiset(V.Waiting(s.run));
    assert h in multiset(heads);
    i :| 0 <= i < |heads| && heads[i] == h;
    if BeingRecycled(s.pc, i) {
      RecycledReturned(s, i);
      HeadOnce(q, h);
      assert false;
    }
    ChainWhole(s, i);
    ChainReads(s.mem.shadow, s.mem.table, s.mem.lists, s.mem.dma, q.chains[i]);
  }

  /**
   In every state of every run, between any two writes of the driver: each head the device holds is
   that of a chain in flight, and following the descriptors from it in shared memory gives exactly
   the buffers of that chain, in order.
   */
  lemma DeviceReadsItsChains(s: State, h: nat)
    requires Reachable(s) && h in s.run.holding
    ensures exists i: nat :: IsToken(s.run.q, i, h) && ReadChain(s.mem.table, s.mem.dma, h) == s.run.q.chains[i].bufs
  {
    ReachableInv(s);
    var i := ReadsAt(s, h);
    assert IsToken(s.run.q, i, h);
  }

  lemma EntryWaits(s: State, k: nat)
    requires Inv(s) && s.run.taken <= k < s.run.added
    ensures |s.ring| == s.run.q.size > 0 && s.ring[Slot(k, s.run.q.size)] in V.Waiting(s.run)
  {
    RingEntry(s, k);
    assert V.Waiting(s.run)[k - s.run.taken] == s.ring[Slot(k, s.run.q.size)];
  }

  /** And so it is for every head it finds in the ring below the index, before it takes it. */
  lemma DeviceReadsWhatItTakes(s: State, k: nat)
    requires Reachable(s) && s.run.taken <= k < s.run.added
    ensures |s.ring| == s.run.q.size > 0
    ensures var h := s.ring[Slot(k, s.run.q.size)];
            exists i: nat :: IsToken(s.run.q, i, h) && ReadChain(s.mem.table, s.mem.dma, h) == s.run.q.chains[i].bufs
  {
    ReachableInv(s);
    EntryWaits(s, k);
    var i := ReadsAt(s, s.ring[Slot(k, s.run.q.size)]);
    assert IsToken(s.run.q, i, s.ring[Slot(k, s.run.q.size)]);
  }

  lemma TakeProceeds(s: State)
    requires Inv(s) && V.Enabled(s.run, V.Take)
    ensures Enabled(s, Take)
  {
    V.CanTakeExactly(s.run);
    RingEntry(s, s.run.taken);
  }

  lemma PopProceeds(s: State, j: nat)
    requires Inv(s) && s.pc == Idle && V.Enabled(s.run, V.Pop(j))
    ensures Enabled(s, BeginPop(j))
  {
    assert ChainOk(s.mem.shadow, s.mem.table, s.mem.lists, s.mem.dma, s.run.q.chains[j]);
  }

  /** A call under way always has a next write, and what could begin in one step can begin here. */
  lemma CallsProceed(s: State)
    requires Reachable(s)
    ensures s.pc != Idle ==> Enabled(s, Next)
    ensures V.Enabled(s.run, V.Take) ==> Enabled(s, Take)
    ensures forall j | s.pc == Idle && V.Enabled(s.run, V.Pop(j)) :: Enabled(s, BeginPop(j))
  {
    ReachableInv(s);
    if s.pc != Idle {
      NextInv(s);
    }
    if V.Enabled(s.run, V.Take) {
      TakeProceeds(s);
    }
    forall j: nat | s.pc == Idle && V.Enabled(s.run, V.Pop(j)) ensures Enabled(s, BeginPop(j)) {
      PopProceeds(s, j);
    }
  }

  /** Each step is one of `VirtqueueRuns`, seen from there, or none. */
  lemma StepRefines(s: State, step: Step)
    requires Inv(s) && Enabled(s, step)
    ensures Apply(s, step).run == s.run || exists v :: V.Enabled(s.run, v) && Apply(s, step).run == V.Apply(s.run, v)
  {
    match step
    case Take => TakeRefines(s); assert V.Enabled(s.run, V.Take);
    case Return(head, len) => assert V.Enabled(s.run, V.Return(head, len));
    case Next =>
      if s.pc.Slotted? {
        assert V.Enabled(s.run, V.Add(s.pc.bufs));
      } else if s.pc.Released? {
        assert V.Enabled(s.run, V.Pop(s.pc.j));
      }
    case _ =>
  }

  lemma {:induction false} RunRefines(s: State, steps: seq<Step>, s': State) returns (abstracted: seq<V.Step>)
    requires Inv(s) && Run(s, steps, s')
    ensures V.Run(s.run, abstracted, s'.run)
    decreases |steps|
  {
    if steps == [] {
      abstracted := [];
    } else {
      var mid := Apply(s, steps[0]);
      StepInv(s, steps[0]);
      StepRefines(s, steps[0]);
      var rest := RunRefines(mid, steps[1..], s');
      if mid.run == s.run {
        abstracted := rest;
      } else {
        var v :| V.Enabled(s.run, v) && mid.run == V.Apply(s.run, v);
        abstracted := [v] + rest;
        assert abstracted[1..] == rest;
      }
    }
  }

  /** So every theorem about runs in which adding and popping are single steps holds write by write. */
  lemma WritesRefineRuns(s: State)
    requires Reachable(s)
    ensures V.Reachable(s.run)
  {
    var size, indirect, eventIdx, steps :|
      IsQueueSize(size) && Run(Init(size, indirect, eventIdx), steps, s);
    InitInv(size, indirect, eventIdx);
    var abstracted := RunRefines(Init(size, indirect, eventIdx), steps, s);
    assert V.Run(V.Init(size, indirect, eventIdx), abstracted, s.run);
  }
}
