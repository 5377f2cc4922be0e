/**
 Runs of a virtqueue: a driver adding and popping, and a device that takes available entries in
 order and returns the chains in whatever order it likes.  The counters of the history are
 unbounded; the indices in shared memory are those counters cut to 16 bits.
 */
module VirtqueueRuns {
  import opened Collections
  import opened RingIndices
  import opened VirtqueueSpec

  datatype System = System(
    q: Queue,
    used: Used,
    nextAvail: nat,          // the device's own 16-bit position in the available ring
    holding: multiset<nat>,  // heads the device has taken and not returned
    // history
    added: nat, taken: nat, returned: nat, popped: nat,
    tickets: seq<nat>,       // tickets[j] is the number of the add that made chain j
    delivered: seq<nat>)     // tickets in the order they were popped

  datatype Step =
    | Add(bufs: seq<Buffer>)
    | Take
    | Return(head: nat, len: nat)
    | Pop(j: nat)

  function Init(size: nat, indirect: bool, eventIdx: bool): System {
    var used := Used(0, 0, seq(size, _ => UsedElem(0, 0)), 0);
    System(Empty(size, indirect, eventIdx), used, 0, multiset{}, 0, 0, 0, 0, [], [])
  }

  predicate Shaped(s: System) {
    0 < s.q.size == |s.q.avail| == |s.used.ring|
  }

  predicate Enabled(s: System, step: Step) {
    Shaped(s) &&
    match step
    case Add(bufs) => AddError(s.q, |bufs|) == None && NonEmpty(bufs)
    case Take => s.nextAvail != s.q.availIdx
    case Return(head, _) => head in s.holding
    case Pop(j) => CanPop(s.q, s.used) && IsToken(s.q, j, NextToken(s.q, s.used))
  }

  function Apply(s: System, step: Step): System
    requires Enabled(s, step)
  {
    match step
    case Add(bufs) => s.(q := Added(s.q, bufs), added := s.added + 1, tickets := s.tickets + [s.added])
    case Take =>
      s.(nextAvail := WrappingInc(s.nextAvail), taken := s.taken + 1,
      holding := s.holding + multiset{s.q.avail[Slot(s.nextAvail, s.q.size)]})
    case Return(head, len) =>
      s.(holding := s.holding - multiset{head}, returned := s.returned + 1,
      used := s.used.(idx := WrappingInc(s.used.idx),
      ring := s.used.ring[Slot(s.used.idx, s.q.size) := UsedElem(head, len)]))
    case Pop(j) =>
      s.(q := Popped(s.q, j), popped := s.popped + 1,
      tickets := if j < |s.tickets| then Without(s.tickets, j) else s.tickets,
      delivered := if j < |s.tickets| then s.delivered + [s.tickets[j]] else s.delivered)
  }

  predicate Run(s: System, steps: seq<Step>, s': System)
    decreases |steps|
  {
    if steps == [] then s == s'
    else Enabled(s, steps[0]) && Run(Apply(s, steps[0]), steps[1..], s')
  }

  ghost predicate Reachable(s: System) {
    exists size, indirect, eventIdx, steps ::
      IsQueueSize(size) && Run(Init(size, indirect, eventIdx), steps, s)
  }

  // ----- The invariant ------------------------------------------------------------------------

  /** The heads of the chains in flight. */
  function Heads(chains: seq<Chain>): (r: seq<nat>)
    ensures |r| == |chains|
  {
    seq<nat>(|chains|, j requires 0 <= j < |chains| => if |chains[j].ids| > 0 then chains[j].ids[0] else 0)
  }

  /** The `n` available entries from number `first` on. */
  function AvailEntries(avail: seq<nat>, first: nat, n: nat): (r: seq<nat>)
    requires |avail| > 0
    ensures |r| == n
  {
    seq<nat>(n, i requires 0 <= i < n => avail[Slot(first + i, |avail|)])
  }

  /** The heads named by the `n` used entries from number `first` on. */
  function UsedEntries(ring: seq<UsedElem>, first: nat, n: nat): (r: seq<nat>)
    requires |ring| > 0
    ensures |r| == n
  {
    seq<nat>(n, i requires 0 <= i < n => ring[Slot(first + i, |ring|)].id)
  }

  ghost predicate Counters(s: System) {
    && s.popped <= s.returned <= s.taken <= s.added
    && s.added - s.popped == |s.q.chains| == |s.tickets|
    && s.q.availIdx == Cut(s.added)
    && s.nextAvail == Cut(s.taken)
    && s.used.idx == Cut(s.returned)
    && s.q.lastUsed == Cut(s.popped)
  }

  /** The heads are those waiting in the available ring, those the device holds, and those used. */
  ghost predicate Accounted(heads: seq<nat>, waiting: seq<nat>, holding: multiset<nat>, used: seq<nat>) {
    multiset(heads) == multiset(waiting) + holding + multiset(used)
  }

  function Waiting(s: System): seq<nat>
    requires Shaped(s) && s.taken <= s.added
  {
    AvailEntries(s.q.avail, s.taken, s.added - s.taken)
  }

  function Unpopped(s: System): seq<nat>
    requires Shaped(s) && s.popped <= s.returned
  {
    UsedEntries(s.used.ring, s.popped, s.returned - s.popped)
  }

  /** Each chain in flight is waiting in the available ring, with the device, or in the used ring. */
  ghost predicate Located(s: System) {
    Shaped(s) && s.taken <= s.added && s.popped <= s.returned &&
    Accounted(Heads(s.q.chains), Waiting(s), s.holding, Unpopped(s))
  }

  ghost predicate Ticketed(s: System) {
    multiset(s.tickets) + multiset(s.delivered) == multiset(Range(s.added))
  }

  /** With event indices the device is asked to interrupt for the next entry the driver will pop. */
  predicate EventOk(s: System) {
    s.q.eventIdx ==> s.q.usedEvent == Cut(s.popped)
  }

  ghost predicate Inv(s: System) {
    Shaped(s) && Valid(s.q) && Counters(s) && Located(s) && Ticketed(s) && EventOk(s)
  }

  // ----- How the pieces change ----------------------------------------------------------------

  /** Publishing entry `first + n` leaves the `n` before it alone, as long as they fit in the ring. */
  lemma AvailWrite(avail: seq<nat>, first: nat, n: nat, h: nat)
    requires n < |avail|
    ensures var avail' := avail[Slot(first + n, |avail|) := h];
            AvailEntries(avail', first, n + 1) == AvailEntries(avail, first, n) + [h]
  {
    var avail' := avail[Slot(first + n, |avail|) := h];
    var longer := AvailEntries(avail', first, n + 1);
    forall i: nat | i < n ensures longer[i] == AvailEntries(avail, first, n)[i] {
      SlotsDiffer(first + i, first + n, |avail|);
    }
    assert longer[n] == h;
  }

  lemma UsedWrite(ring: seq<UsedElem>, first: nat, n: nat, e: UsedElem)
    requires n < |ring|
    ensures var ring' := ring[Slot(first + n, |ring|) := e];
            UsedEntries(ring', first, n + 1) == UsedEntries(ring, first, n) + [e.id]
  {
    var ring' := ring[Slot(first + n, |ring|) := e];
    var longer := UsedEntries(ring', first, n + 1);
    forall i: nat | i < n ensures longer[i] == UsedEntries(ring, first, n)[i] {
      SlotsDiffer(first + i, first + n, |ring|);
    }
    assert longer[n] == e.id;
  }

  /** Everything in flight is somewhere, so each stretch of a ring in use is at most the ring. */
  lemma Occupancy(s: System)
    requires Inv(s)
    ensures s.added - s.taken <= |s.q.chains| <= s.q.size
    ensures s.returned - s.popped + |s.holding| <= |s.q.chains|
    ensures |s.holding| == s.taken - s.returned
  {
    UsedIsChainLength(s.q);
    assert |multiset(Heads(s.q.chains))| == |multiset(Waiting(s))| + |s.holding| + |multiset(Unpopped(s))|;
  }

  // ----- Each step keeps the invariant --------------------------------------------------------

  lemma InitInv(size: nat, indirect: bool, eventIdx: bool)
    requires IsQueueSize(size)
    ensures Inv(Init(size, indirect, eventIdx))
  {
    EmptyValid(size, indirect, eventIdx);
  }

  lemma AddRoom(s: System, bufs: seq<Buffer>)
    requires Inv(s) && Enabled(s, Add(bufs))
    ensures s.added - s.taken < s.q.size && 1 <= Taken(s.q, |bufs|) <= |s.q.free|
  {
    RoomMeansFree(s.q, |bufs|);
    UsedIsChainLength(s.q);
    Occupancy(s);
  }

  /** The device sees something to take exactly when an added chain has not been taken. */
  lemma CanTakeExactly(s: System)
    requires Inv(s)
    ensures s.nextAvail != s.q.availIdx <==> s.taken < s.added
  {
    Occupancy(s);
    CutsAgree(s.taken, s.added);
  }

  lemma CanPopExactly(s: System)
    requires Inv(s)
    ensures CanPop(s.q, s.used) <==> s.popped < s.returned
  {
    Occupancy(s);
    CutsAgree(s.popped, s.returned);
  }

  lemma StepValid(s: System, step: Step)
    requires Inv(s) && Enabled(s, step)
    ensures Shaped(Apply(s, step)) && Valid(Apply(s, step).q)
  {
    match step
    case Add(bufs) => AddedValid(s.q, bufs);
    case Pop(j) => PoppedValid(s.q, j);
    case _ =>
  }

  /** What a step moves on is behind what it moves towards. */
  predicate Progresses(s: System, step: Step) {
    match step
    case Add(_) => true
    case Take => s.taken < s.added
    case Return(_, _) => s.returned < s.taken
    case Pop(_) => s.popped < s.returned
  }

  lemma StepProgresses(s: System, step: Step)
    requires Inv(s) && Enabled(s, step)
    ensures Progresses(s, step)
  {
    Occupancy(s);
    CanTakeExactly(s);
    CanPopExactly(s);
  }

  lemma AddCounters(s: System, bufs: seq<Buffer>)
    requires Counters(s) && Enabled(s, Add(bufs))
    ensures Counters(Apply(s, Add(bufs)))
  {
    CutSucc(s.added);
  }

  lemma TakeCounters(s: System)
    requires Counters(s) && Enabled(s, Take) && s.taken < s.added
    ensures Counters(Apply(s, Take))
  {
    CutSucc(s.taken);
  }

  lemma ReturnCounters(s: System, head: nat, len: nat)
    requires Counters(s) && Enabled(s, Return(head, len)) && s.returned < s.taken
    ensures Counters(Apply(s, Return(head, len)))
  {
    CutSucc(s.returned);
  }

  lemma PopCounters(s: System, j: nat)
    requires Counters(s) && Enabled(s, Pop(j)) && s.popped < s.returned
    ensures Counters(Apply(s, Pop(j)))
  {
    CutSucc(s.popped);
    assert Apply(s, Pop(j)).q.lastUsed == WrappingInc(s.q.lastUsed);
  }

  lemma StepCounters(s: System, step: Step)
    requires Counters(s) && Enabled(s, step) && Progresses(s, step)
    ensures Counters(Apply(s, step))
  {
    match step
    case Add(bufs) => AddCounters(s, bufs);
    case Take => TakeCounters(s);
    case Return(head, len) => ReturnCounters(s, head, len);
    case Pop(j) => PopCounters(s, j);
  }

  lemma StepTicketed(s: System, step: Step)
    requires Ticketed(s) && |s.tickets| == |s.q.chains| && Enabled(s, step)
    ensures Ticketed(Apply(s, step))
  {
    match step
    case Add(_) => assert Range(s.added + 1) == Range(s.added) + [s.added];
    case Pop(j) => CountWithout(s.tickets, j);
    case _ =>
  }

  lemma StepEvent(s: System, step: Step)
    requires EventOk(s) && s.q.lastUsed == Cut(s.popped) && Enabled(s, step)
    ensures EventOk(Apply(s, step))
  {
    CutSucc(s.popped);
  }

  lemma AccountTake(heads: seq<nat>, waiting: seq<nat>, holding: multiset<nat>, used: seq<nat>)
    requires Accounted(heads, waiting, holding, used) && waiting != []
    ensures Accounted(heads, waiting[1..], holding + multiset{waiting[0]}, used)
  {
    assert waiting == [waiting[0]] + waiting[1..];
  }

  lemma AccountReturn(heads: seq<nat>, waiting: seq<nat>, holding: multiset<nat>, used: seq<nat>, h: nat)
    requires Accounted(heads, waiting, holding, used) && h in holding
    ensures Accounted(heads, waiting, holding - multiset{h}, used + [h])
  {
    assert holding == (holding - multiset{h}) + multiset{h};
  }

  lemma AccountPop(heads: seq<nat>, waiting: seq<nat>, holding: multiset<nat>, used: seq<nat>, j: nat)
    requires Accounted(heads, waiting, holding, used) && used != [] && j < |heads| && heads[j] == used[0]
    ensures Accounted(Without(heads, j), waiting, holding, used[1..])
  {
    CountWithout(heads, j);
    assert used == [used[0]] + used[1..];
    var rest, others := multiset(Without(heads, j)), multiset(waiting) + holding;
    forall x: nat ensures rest[x] == (others + multiset(used[1..]))[x] {
      assert multiset(heads)[x] == rest[x] + multiset{used[0]}[x];
    }
  }

  lemma AddLocated(s: System, bufs: seq<Buffer>)
    requires Located(s) && Enabled(s, Add(bufs)) && 1 <= Taken(s.q, |bufs|) <= |s.q.free|
    requires s.added - s.taken < s.q.size && Slot(s.q.availIdx, s.q.size) == Slot(s.added, s.q.size)
    ensures Located(Apply(s, Add(bufs)))
  {
    var s', h := Apply(s, Add(bufs)), s.q.free[0];
    AvailWrite(s.q.avail, s.taken, s.added - s.taken, h);
    assert Heads(s'.q.chains) == Heads(s.q.chains) + [h];
    assert Waiting(s') == Waiting(s) + [h];
  }

  lemma TakeLocated(s: System)
    requires Located(s) && Enabled(s, Take) && s.taken < s.added
    requires Slot(s.nextAvail, s.q.size) == Slot(s.taken, s.q.size)
    ensures Located(Apply(s, Take))
  {
    AccountTake(Heads(s.q.chains), Waiting(s), s.holding, Unpopped(s));
    assert Waiting(Apply(s, Take)) == Waiting(s)[1..];
  }

  lemma ReturnLocated(s: System, head: nat, len: nat)
    requires Located(s) && Enabled(s, Return(head, len)) && s.returned - s.popped < s.q.size
    requires Slot(s.used.idx, s.q.size) == Slot(s.returned, s.q.size)
    ensures Located(Apply(s, Return(head, len)))
  {
    UsedWrite(s.used.ring, s.popped, s.returned - s.popped, UsedElem(head, len));
    AccountReturn(Heads(s.q.chains), Waiting(s), s.holding, Unpopped(s), head);
  }

  /** What `peek_used` finds is the oldest entry returned and not popped, and it names a chain in flight. */
  lemma NextIsInFlight(s: System) returns (j: nat)
    requires Inv(s) && s.popped < s.returned
    ensures IsToken(s.q, j, NextToken(s.q, s.used))
    ensures NextToken(s.q, s.used) == s.used.ring[Slot(s.popped, s.q.size)].id
  {
    SlotOfCut(s.popped, s.q.size);
    var h := Unpopped(s)[0];
    assert h in multiset(Unpopped(s));
    assert h in multiset(Heads(s.q.chains));
    j :| 0 <= j < |s.q.chains| && Heads(s.q.chains)[j] == h;
    ChainNotFree(s.q, j, h);
  }

  lemma HeadsWithout(chains: seq<Chain>, j: nat)
    requires j < |chains|
    ensures Heads(Without(chains, j)) == Without(Heads(chains), j)
  {
    forall i | 0 <= i < |chains| - 1 ensures Heads(Without(chains, j))[i] == Without(Heads(chains), j)[i] {
      assert Heads(Without(chains, j))[i] == if i < j then Heads(chains)[i] else Heads(chains)[i + 1];
    }
  }

  lemma UsedTail(ring: seq<UsedElem>, first: nat, n: nat)
    requires |ring| > 0 && n > 0
    ensures UsedEntries(ring, first + 1, n - 1) == UsedEntries(ring, first, n)[1..]
  {
    var tail, shorter := UsedEntries(ring, first, n)[1..], UsedEntries(ring, first + 1, n - 1);
    forall i | 0 <= i < n - 1 ensures shorter[i] == tail[i] {
      assert first + (i + 1) == first + 1 + i;
    }
  }

  lemma PopLocated(s: System, j: nat)
    requires Located(s) && Enabled(s, Pop(j)) && s.popped < s.returned
    requires s.q.chains[j].ids[0] == s.used.ring[Slot(s.popped, s.q.size)].id
    ensures Located(Apply(s, Pop(j)))
  {
    var s' := Apply(s, Pop(j));
    AccountPop(Heads(s.q.chains), Waiting(s), s.holding, Unpopped(s), j);
    HeadsWithout(s.q.chains, j);
    UsedTail(s.used.ring, s.popped, s.returned - s.popped);
    assert Heads(s'.q.chains) == Without(Heads(s.q.chains), j);
    assert Waiting(s') == Waiting(s) && Unpopped(s') == Unpopped(s)[1..];
  }

  lemma StepInv(s: System, step: Step)
    requires Inv(s) && Enabled(s, step)
    ensures Inv(Apply(s, step))
  {
    StepValid(s, step);
    StepProgresses(s, step);
    StepCounters(s, step);
    StepTicketed(s, step);
    StepEvent(s, step);
    match step
    case Add(bufs) =>
      AddRoom(s, bufs);
      SlotOfCut(s.added, s.q.size);
      AddLocated(s, bufs);
    case Take =>
      CanTakeExactly(s);
      SlotOfCut(s.taken, s.q.size);
      TakeLocated(s);
    case Return(head, len) =>
      Occupancy(s);
      SlotOfCut(s.returned, s.q.size);
      ReturnLocated(s, head, len);
    case Pop(j) =>
      CanPopExactly(s);
      var _ := NextIsInFlight(s);
      PopLocated(s, j);
  }

  lemma {:induction false} RunInv(s: System, steps: seq<Step>, s': System)
    requires Inv(s) && Run(s, steps, s')
    ensures Inv(s')
    decreases |steps|
  {
    if steps != [] {
      StepInv(s, steps[0]);
      RunInv(Apply(s, steps[0]), steps[1..], s');
    }
  }

  lemma ReachableInv(s: System)
    requires Reachable(s)
    ensures Inv(s)
  {
    var size, indirect, eventIdx, steps :|
      IsQueueSize(size) && Run(Init(size, indirect, eventIdx), steps, s);
    InitInv(size, indirect, eventIdx);
    RunInv(Init(size, indirect, eventIdx), steps, s);
  }

  // ----- What holds over whole runs, across any number of wraps -------------------------------

  /** Free and in-flight descriptors partition 0..size and `num_used` is the total chain length. */
  lemma DescriptorsPartition(s: System)
    requires Reachable(s)
    ensures multiset(s.q.free) + Ids(s.q.chains) == multiset(Range(s.q.size))
    ensures s.q.size - |s.q.free| == TotalIds(s.q.chains)
  {
    ReachableInv(s);
    UsedIsChainLength(s.q);
  }

  /** An available entry the device has not taken is never overwritten. */
  lemma AvailableNotOverwritten(s: System, bufs: seq<Buffer>, k: nat)
    requires Reachable(s) && Enabled(s, Add(bufs)) && s.taken <= k < s.added
    ensures Apply(s, Add(bufs)).q.avail[Slot(k, s.q.size)] == s.q.avail[Slot(k, s.q.size)]
  {
    ReachableInv(s);
    AddRoom(s, bufs);
    SlotOfCut(s.added, s.q.size);
    SlotsDiffer(k, s.added, s.q.size);
  }

  /** Nor is a used entry the driver has not popped. */
  lemma UsedNotOverwritten(s: System, head: nat, len: nat, k: nat)
    requires Reachable(s) && Enabled(s, Return(head, len)) && s.popped <= k < s.returned
    ensures Apply(s, Return(head, len)).used.ring[Slot(k, s.q.size)] == s.used.ring[Slot(k, s.q.size)]
  {
    ReachableInv(s);
    Occupancy(s);
    SlotOfCut(s.returned, s.q.size);
    SlotsDiffer(k, s.returned, s.q.size);
  }

  /**
   `can_pop` holds exactly when an entry was returned and not popped, and then the token peeked is
   that of a chain in flight, so popping it does not report a wrong token or meet a free descriptor.
   */
  lemma CanPopMeansUnpopped(s: System)
    requires Reachable(s)
    ensures CanPop(s.q, s.used) <==> s.popped < s.returned
    ensures CanPop(s.q, s.used) ==> exists j :: Enabled(s, Pop(j))
  {
    ReachableInv(s);
    CanPopExactly(s);
    if s.popped < s.returned {
      var j := NextIsInFlight(s);
      assert Enabled(s, Pop(j));
    }
  }

  /** With event indices, what the driver has asked for is always the next entry it will pop. */
  lemma UsedEventFollows(s: System)
    requires Reachable(s) && s.q.eventIdx
    ensures s.q.usedEvent == s.q.lastUsed == Cut(s.popped)
  {
    ReachableInv(s);
  }

  /** Every add is popped at most once, and once nothing is in flight, exactly once. */
  lemma PoppedExactlyOnce(s: System, ticket: nat)
    requires Reachable(s)
    ensures multiset(s.delivered)[ticket] + multiset(s.tickets)[ticket] == if ticket < s.added then 1 else 0
    ensures s.q.chains == [] ==> multiset(s.delivered)[ticket] == if ticket < s.added then 1 else 0
  {
    ReachableInv(s);
    RangeCount(s.added, ticket);
  }
}
