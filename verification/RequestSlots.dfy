/**
 The driver's request slots on top of a virtqueue.  A request waits in a channel, is given a free
 slot, is added to the virtqueue as one input and one output buffer, and is found again from the
 token the device returns.
 */
module RequestSlots {
  import opened Collections
  import opened RingIndices
  import opened VirtqueueSpec
  import opened Virtqueue

  /** `callback` stands for what is to be done with the response. */
  datatype Request = Request(input: Slice, output: Slice, callback: nat)

  /** What the driver keeps. */
  datatype Driver = Driver(
    free: seq<nat>,
    requests: seq<Option<Request>>,  // inputs, outputs and callbacks, by slot
    indices: seq<Option<nat>>,       // the slot of each token
    waiting: seq<Request>)           // the channel

  /** With the bookkeeping of the model. */
  datatype Slots = Slots(
    d: Driver,
    busy: seq<nat>,                  // the slot of each chain in flight
    leaked: seq<nat>)                // slots taken by requests the virtqueue refused

  function Chained(r: Request): (bufs: seq<Buffer>)
    ensures |bufs| == 2
  {
    Buffers([r.input], [r.output])
  }

  function Fresh(size: nat): Slots {
    Slots(Driver(Range(size), seq(size, _ => None), seq(size, _ => None), []), [], [])
  }

  /**
   A slot is free and the channel yields its waiting request number `pick.value`.  Which request it
   yields, or that it yields none, is up to the channel: pushes to it may overtake each other.
   */
  predicate Picks(s: Slots, pick: Option<nat>) {
    s.d.free != [] && pick.Some? && pick.value < |s.d.waiting|
  }

  predicate Shaped(q: Queue, s: Slots) {
    && 0 < q.size == |q.avail| == |s.d.requests| == |s.d.indices|
    && (s.d.free != [] ==> s.d.free[0] < q.size)
  }

  // ----- What a request and a response do -----------------------------------------------------

  /** The virtqueue after `request`. */
  function QueueRequested(q: Queue, s: Slots, pick: Option<nat>): Queue
    requires Shaped(q, s)
  {
    if Picks(s, pick) && AddError(q, 2) == None then Added(q, Chained(s.d.waiting[pick.value])) else q
  }

  /** The slots after `request`; with no room in the virtqueue the slot and the request are gone. */
  function Requested(q: Queue, s: Slots, pick: Option<nat>): Slots
    requires Shaped(q, s)
  {
    if s.d.free == [] then s
    else if !Picks(s, pick) then s.(d := s.d.(free := s.d.free[1..] + [s.d.free[0]]))
    else
      var k := pick.value;
      Pushed(q, s.(d := s.d.(free := s.d.free[1..], waiting := Without(s.d.waiting, k))), s.d.free[0], s.d.waiting[k])
  }

  /** Slot `i` holds `r`, and the token the virtqueue gives it leads back to `i`. */
  function Pushed(q: Queue, s: Slots, i: nat, r: Request): Slots
    requires |s.d.requests| == |s.d.indices| == q.size && i < q.size
  {
    var d := s.d.(requests := s.d.requests[i := Some(r)]);
    if AddError(q, 2) != None then s.(d := d, leaked := s.leaked + [i])
    else
      var indices := if q.free == [] || q.free[0] >= q.size then d.indices else d.indices[q.free[0] := Some(i)];
      s.(d := d.(indices := indices), busy := s.busy + [i])
  }

  lemma TokenInRange(q: Queue)
    requires Valid(q)
    ensures AddError(q, 2) == None ==> q.free != [] && q.free[0] < q.size
  {
    if AddError(q, 2) == None {
      RoomMeansFree(q, 2);
      FreeInRange(q, q.free[0]);
    }
  }

  /** The slots after the response to chain `j`, which came back as `token`. */
  function Responded(s: Slots, token: nat, j: nat): Slots
    requires j < |s.busy| && token < |s.d.indices| && s.busy[j] < |s.d.requests|
  {
    var i := s.busy[j];
    s.(d := s.d.(free := s.d.free + [i], requests := s.d.requests[i := None], indices := s.d.indices[token := None]),
    busy := Without(s.busy, j))
  }

  // ----- The invariant ------------------------------------------------------------------------

  /** Every slot is free, in flight or leaked, and only one of these. */
  ghost predicate SlotsAccounted(size: nat, s: Slots) {
    multiset(s.d.free) + multiset(s.busy) + multiset(s.leaked) == multiset(Range(size))
  }

  /** Chain `j` can be found from its token, and its slot holds the buffers it carries. */
  predicate Linked(q: Queue, s: Slots, j: nat) {
    && j < |q.chains| && j < |s.busy| && |q.chains[j].ids| > 0
    && var token, i := q.chains[j].ids[0], s.busy[j];
    && token < |s.d.indices| && s.d.indices[token] == Some(i)
    && i < |s.d.requests| && s.d.requests[i].Some? && q.chains[j].bufs == Chained(s.d.requests[i].value)
  }

  ghost predicate InFlight(q: Queue, token: nat) {
    exists j: nat :: IsToken(q, j, token)
  }

  ghost predicate SlotsOk(q: Queue, s: Slots) {
    && |s.d.requests| == |s.d.indices| == q.size
    && |s.busy| == |q.chains|
    && SlotsAccounted(q.size, s)
    && (forall j: nat | j < |q.chains| :: Linked(q, s, j))
    && (forall t: nat | t < q.size && s.d.indices[t].Some? :: InFlight(q, t))
  }

  lemma SlotInRange(size: nat, s: Slots, i: nat)
    requires SlotsAccounted(size, s) && (i in s.d.free || i in s.busy)
    ensures i < size
  {
    RangeCount(size, i);
    assert i in multiset(s.d.free) || i in multiset(s.busy);
  }

  lemma FreeSlotNotBusy(size: nat, s: Slots, j: nat)
    requires SlotsAccounted(size, s) && j < |s.busy| && s.d.free != []
    ensures s.busy[j] != s.d.free[0]
  {
    RangeCount(size, s.busy[j]);
    assert s.busy[j] in multiset(s.busy);
    assert s.d.free[0] in multiset(s.d.free);
  }

  lemma BusySlotsDiffer(size: nat, s: Slots, j: nat, k: nat)
    requires SlotsAccounted(size, s) && j < |s.busy| && k < |s.busy| && j != k
    ensures s.busy[j] != s.busy[k]
  {
    RangeCount(size, s.busy[j]);
    if j < k {
      RepeatedCount(s.busy, j, k);
    } else {
      RepeatedCount(s.busy, k, j);
    }
  }

  lemma RequestedAccounted(q: Queue, s: Slots, pick: Option<nat>)
    requires Shaped(q, s) && SlotsAccounted(q.size, s)
    ensures SlotsAccounted(q.size, Requested(q, s, pick))
  {
    if s.d.free != [] {
      assert s.d.free == [s.d.free[0]] + s.d.free[1..];
    }
  }

  lemma RespondedAccounted(size: nat, s: Slots, token: nat, j: nat)
    requires SlotsAccounted(size, s) && j < |s.busy| && token < |s.d.indices| && s.busy[j] < |s.d.requests|
    ensures SlotsAccounted(size, Responded(s, token, j))
  {
    assert s.busy == s.busy[..j] + [s.busy[j]] + s.busy[j + 1..];
  }

  /** A request keeps the links of the chains already in flight. */
  lemma RequestedLinked(q: Queue, s: Slots, pick: Option<nat>, j: nat)
    requires Valid(q) && SlotsOk(q, s) && Shaped(q, s) && Picks(s, pick) && AddError(q, 2) == None
    requires j <= |q.chains|
    ensures Linked(QueueRequested(q, s, pick), Requested(q, s, pick), j)
  {
    RoomMeansFree(q, 2);
    FreeInRange(q, q.free[0]);
    if j < |q.chains| {
      assert Linked(q, s, j);
      ChainNotFree(q, j, q.chains[j].ids[0]);
      FreeSlotNotBusy(q.size, s, j);
    }
  }

  lemma RefusedLinked(q: Queue, s: Slots, pick: Option<nat>, j: nat)
    requires SlotsOk(q, s) && Shaped(q, s) && Picks(s, pick) && AddError(q, 2) != None
    requires j < |q.chains|
    ensures Linked(q, Requested(q, s, pick), j)
  {
    assert Linked(q, s, j);
    FreeSlotNotBusy(q.size, s, j);
  }

  lemma RequestedInFlight(q: Queue, s: Slots, pick: Option<nat>, t: nat)
    requires Valid(q) && SlotsOk(q, s) && Shaped(q, s) && t < q.size && Requested(q, s, pick).d.indices[t].Some?
    ensures InFlight(QueueRequested(q, s, pick), t)
  {
    if Picks(s, pick) && AddError(q, 2) == None {
      RoomMeansFree(q, 2);
      var q' := QueueRequested(q, s, pick);
      assert q.free[0] == t ==> IsToken(q', |q.chains|, t);
      if s.d.indices[t].Some? {
        assert InFlight(q, t);
        var j: nat :| IsToken(q, j, t);
        assert IsToken(q', j, t);
      }
    } else {
      assert InFlight(q, t);
    }
  }

  lemma RequestedOk(q: Queue, s: Slots, pick: Option<nat>)
    requires Valid(q) && SlotsOk(q, s) && Shaped(q, s)
    ensures SlotsOk(QueueRequested(q, s, pick), Requested(q, s, pick))
  {
    var q', s' := QueueRequested(q, s, pick), Requested(q, s, pick);
    RequestedAccounted(q, s, pick);
    forall j: nat | j < |q'.chains| ensures Linked(q', s', j) {
      if !Picks(s, pick) {
        assert Linked(q, s, j);
      } else if AddError(q, 2) == None {
        RequestedLinked(q, s, pick, j);
      } else {
        RefusedLinked(q, s, pick, j);
      }
    }
    forall t: nat | t < q.size && s'.d.indices[t].Some? ensures InFlight(q', t) {
      RequestedInFlight(q, s, pick, t);
    }
  }

  lemma RespondedLinked(q: Queue, s: Slots, j: nat, k: nat)
    requires Valid(q) && SlotsOk(q, s) && j < |q.chains| && k < |q.chains| && k != j
    ensures Linked(q, s, j) && Linked(q, s, k)
    ensures Linked(Popped(q, j), Responded(s, q.chains[j].ids[0], j), if k < j then k else k - 1)
  {
    assert Linked(q, s, j) && Linked(q, s, k);
    ChainsDisjoint(q, j, k, q.chains[j].ids[0]);
    BusySlotsDiffer(q.size, s, j, k);
  }

  lemma RespondedInFlight(q: Queue, s: Slots, j: nat, t: nat)
    requires SlotsOk(q, s) && j < |q.chains| && Linked(q, s, j)
    requires t < q.size && Responded(s, q.chains[j].ids[0], j).d.indices[t].Some?
    ensures InFlight(Popped(q, j), t)
  {
    assert InFlight(q, t);
    var k: nat :| IsToken(q, k, t);
    assert IsToken(Popped(q, j), if k < j then k else k - 1, t);
  }

  lemma RespondedOk(q: Queue, s: Slots, j: nat)
    requires Valid(q) && SlotsOk(q, s) && j < |q.chains|
    ensures Linked(q, s, j)
    ensures SlotsOk(Popped(q, j), Responded(s, q.chains[j].ids[0], j))
  {
    assert Linked(q, s, j);
    var token := q.chains[j].ids[0];
    var q', s' := Popped(q, j), Responded(s, token, j);
    RespondedAccounted(q.size, s, token, j);
    forall k: nat | k < |q'.chains| ensures Linked(q', s', k) {
      RespondedLinked(q, s, j, if k < j then k else k + 1);
    }
    forall t: nat | t < q.size && s'.d.indices[t].Some? ensures InFlight(q', t) {
      RespondedInFlight(q, s, j, t);
    }
  }

  // ----- Room ---------------------------------------------------------------------------------

  predicate AllSingle(chains: seq<Chain>) {
    forall j | 0 <= j < |chains| :: |chains[j].ids| == 1
  }

  lemma {:induction false} SinglesTotal(chains: seq<Chain>)
    requires AllSingle(chains)
    ensures TotalIds(chains) == |chains|
  {
    if chains != [] {
      SinglesTotal(chains[..|chains| - 1]);
    }
  }

  /** With indirect descriptors every request takes one descriptor, as it takes one slot. */
  lemma IndirectCount(q: Queue, s: Slots)
    requires Valid(q) && SlotsOk(q, s) && q.indirect && AllSingle(q.chains)
    ensures NumUsed(q) == |s.busy| == q.size - |s.d.free| - |s.leaked|
  {
    UsedIsChainLength(q);
    SinglesTotal(q.chains);
    assert |multiset(s.d.free)| + |multiset(s.busy)| + |multiset(s.leaked)| == |multiset(Range(q.size))|;
  }

  /** A free slot means room, so the virtqueue refuses no request. */
  lemma FreeSlotMeansRoom(q: Queue, s: Slots)
    requires Valid(q) && SlotsOk(q, s) && q.indirect && AllSingle(q.chains) && q.size >= 2 && s.d.free != []
    ensures AddError(q, 2) == None
  {
    IndirectCount(q, s);
  }

  // ----- The queue object ---------------------------------------------------------------------

  class RequestQueue {
    const queue: VirtQueue
    var d: Driver  // the fields `free`, `buffers` and `chan`
    ghost var busy: seq<nat>
    ghost var leaked: seq<nat>

    ghost function View(): Slots
      reads this
    {
      Slots(d, busy, leaked)
    }

    ghost predicate Ok()
      reads this, queue, queue.shadow, queue.table, queue.lists, queue.availRing
    {
      queue.Ok() && SlotsOk(queue.View(), View()) && SlicesOk(d.waiting)
    }

    constructor (size: nat, indirect: bool, eventIdx: bool)
      requires IsQueueSize(size)
      ensures Ok() && View() == Fresh(size) && queue.View() == Empty(size, indirect, eventIdx)
    {
      queue := new VirtQueue.Init(size, indirect, eventIdx);
      d := Driver(Range(size), seq(size, _ => None), seq(size, _ => None), []);
      busy, leaked := [], [];
    }

    method AddToQueue(r: Request, listAddr: nat) returns (token: Result<nat>)
      requires queue.Ok() && listAddr !in queue.dma && RequestOk(r)
      modifies queue, queue.shadow, queue.table, queue.lists, queue.availRing
      ensures queue.Ok() && queue.used == old(queue.used)
      ensures match AddError(old(queue.View()), 2)
              case Some(e) => token == Err(e) && queue.View() == old(queue.View())
              case None =>
                && |old(queue.View()).free| > 0 && token == Result.Ok(old(queue.View()).free[0])
                && queue.View() == Added(old(queue.View()), Chained(r))
    {
      TokenInRange(queue.View());
      token := queue.Add([r.input], [r.output], listAddr);
    }

    /** Give slot `i` to request `r` and hand it to the device. */
    method PushToDevice(i: nat, r: Request, listAddr: nat) returns (e: Option<Error>)
      requires queue.Ok() && listAddr !in queue.dma && RequestOk(r)
      requires i < |d.requests| == |d.indices| == queue.size
      modifies this`d, queue, queue.shadow, queue.table, queue.lists, queue.availRing
      ensures queue.Ok() && queue.used == old(queue.used)
      ensures e == AddError(old(queue.View()), 2)
      ensures e == None ==> queue.View() == Added(old(queue.View()), Chained(r))
      ensures e != None ==> queue.View() == old(queue.View())
      ensures d == Pushed(old(queue.View()), old(View()), i, r).d
    {
      ghost var q, s := queue.View(), View();
      TokenInRange(q);
      d := d.(requests := d.requests[i := Some(r)]);
      var token := AddToQueue(r, listAddr);
      if token.Err? {
        return Some(token.error);
      }
      d := d.(indices := d.indices[token.value := Some(i)]);
      assert d == Pushed(q, s, i, r).d;
      return None;
    }

    method StartNext(pick: Option<nat>, listAddr: nat) returns (r: Result<bool>)
      requires queue.Ok() && Shaped(queue.View(), View()) && listAddr !in queue.dma
      requires pick.Some? ==> pick.value < |d.waiting| && RequestOk(d.waiting[pick.value])
      modifies this`d, queue, queue.shadow, queue.table, queue.lists, queue.availRing
      ensures queue.Ok() && queue.used == old(queue.used)
      ensures queue.View() == QueueRequested(old(queue.View()), old(View()), pick)
      ensures d == Requested(old(queue.View()), old(View()), pick).d
      ensures r == if !Picks(old(View()), pick) then Result.Ok(false)
                   else match AddError(old(queue.View()), 2) case None => Result.Ok(true) case Some(e) => Err(e)
    {
      if d.free == [] {
        return Result.Ok(false);
      }
      var i := d.free[0];
      if pick == None {
        d := d.(free := d.free[1..] + [i]);
        return Result.Ok(false);
      }
      var buffer := d.waiting[pick.value];
      d := d.(free := d.free[1..], waiting := Without(d.waiting, pick.value));
      var e := PushToDevice(i, buffer, listAddr);
      r := if e == None then Result.Ok(true) else Err(e.value);
    }

    /** Start the waiting request the channel yields, if there is a free slot for it. */
    method Request(pick: Option<nat>, listAddr: nat) returns (r: Result<bool>)
      requires Ok() && listAddr !in queue.dma && (pick.Some? ==> pick.value < |d.waiting|)
      modifies this, queue, queue.shadow, queue.table, queue.lists, queue.availRing
      ensures Ok() && queue.used == old(queue.used)
      ensures Shaped(old(queue.View()), old(View()))
      ensures queue.View() == QueueRequested(old(queue.View()), old(View()), pick)
      ensures View() == Requested(old(queue.View()), old(View()), pick)
      ensures old(d.free) != [] ==>
                d.free == if pick.Some? then old(d.free)[1..] else old(d.free)[1..] + [old(d.free)[0]]
      ensures r == if !Picks(old(View()), pick) then Result.Ok(false)
                   else match AddError(old(queue.View()), 2) case None => Result.Ok(true) case Some(e) => Err(e)
    {
      ghost var q, s := queue.View(), View();
      ShapedOk(q, s);
      r := StartNext(pick, listAddr);
      busy, leaked := Requested(q, s, pick).busy, Requested(q, s, pick).leaked;
      RequestedOk(q, s, pick);
      assert View() == Requested(q, s, pick);
      assert queue.View() == QueueRequested(q, s, pick);
    }

    /** The slot is free again. */
    method MarkFree(i: nat)
      requires i < |d.requests|
      modifies this`d
      ensures d == old(d).(requests := old(d).requests[i := None], free := old(d).free + [i])
    {
      d := d.(requests := d.requests[i := None], free := d.free + [i]);
    }

    /** Pop the next used entry and find its slot; `j` is the position of its chain among those in flight. */
    method PopFromDevice(ghost j: nat) returns (slot: Option<nat>)
      requires queue.Ok()
      requires CanPop(queue.View(), queue.used) ==>
                 IsToken(queue.View(), j, NextToken(queue.View(), queue.used)) && Linked(queue.View(), View(), j)
      modifies this`d, queue, queue.shadow, queue.table, queue.lists, queue.availRing
      ensures queue.Ok() && queue.used == old(queue.used)
      ensures var q, s := old(queue.View()), old(View());
              if !CanPop(q, queue.used) then slot == None && d == s.d && queue.View() == q
              else
                && Linked(q, s, j) && slot == Some(s.busy[j])
                && d == s.d.(indices := s.d.indices[q.chains[j].ids[0] := None])
                && queue.View() == Popped(q, j)
    {
      var token := queue.PeekUsed();
      if token == None {
        return None;
      }
      var i := d.indices[token.value].value;
      var buffer := d.requests[i].value;
      var _ := queue.PopUsed(token.value, [buffer.input], [buffer.output], j);
      d := d.(indices := d.indices[token.value := None]);
      return Some(i);
    }

    method FinishNext(ghost j: nat) returns (r: Option<Request>)
      requires queue.Ok()
      requires CanPop(queue.View(), queue.used) ==>
                 IsToken(queue.View(), j, NextToken(queue.View(), queue.used)) && Linked(queue.View(), View(), j)
      modifies this`d, queue, queue.shadow, queue.table, queue.lists, queue.availRing
      ensures queue.Ok() && queue.used == old(queue.used)
      ensures var q, s := old(queue.View()), old(View());
              if !CanPop(q, queue.used) then r == None && d == s.d && queue.View() == q
              else
                && Linked(q, s, j)
                && r == s.d.requests[s.busy[j]]
                && d == Responded(s, q.chains[j].ids[0], j).d
                && queue.View() == Popped(q, j)
    {
      ghost var q, s := queue.View(), View();
      var slot := PopFromDevice(j);
      if slot == None {
        return None;
      }
      assert slot.value < |d.requests| && d.requests == s.d.requests;
      r := d.requests[slot.value];
      MarkFree(slot.value);
      assert d == Responded(s, q.chains[j].ids[0], j).d;
    }

    /**
     Take one response from the device and say which request's callback it completes; the device
     returns chains that are in flight, and `j` is the position of this one.
     */
    method Response(ghost j: nat) returns (r: Option<Request>)
      requires Ok()
      requires CanPop(queue.View(), queue.used) ==> IsToken(queue.View(), j, NextToken(queue.View(), queue.used))
      modifies this`d, this`busy, queue, queue.shadow, queue.table, queue.lists, queue.availRing
      ensures Ok() && queue.used == old(queue.used)
      ensures var q, s := old(queue.View()), old(View());
              if !CanPop(q, queue.used) then r == None && View() == s && queue.View() == q
              else
                && Linked(q, s, j)
                && r == s.d.requests[s.busy[j]] && d.free == s.d.free + [s.busy[j]]
                && View() == Responded(s, q.chains[j].ids[0], j)
                && queue.View() == Popped(q, j)
    {
      ghost var q, s := queue.View(), View();
      assert CanPop(q, queue.used) ==> Linked(q, s, j);
      r := FinishNext(j);
      if r != None {
        busy := Without(busy, j);
        RespondedOk(q, s, j);
        assert View() == Responded(s, q.chains[j].ids[0], j);
        assert queue.View() == Popped(q, j);
      }
    }
  }

  predicate SlicesOk(rs: seq<Request>) {
    forall k | 0 <= k < |rs| :: RequestOk(rs[k])
  }

  /** What the virtqueue asks of buffers: not empty, and a length of 32 bits. */
  predicate RequestOk(r: Request) {
    SliceOk(r.input) && SliceOk(r.output)
  }

  predicate SliceOk(s: Slice) {
    0 < s.len < 0x1_0000_0000
  }

  lemma ShapedOk(q: Queue, s: Slots)
    requires Valid(q) && SlotsOk(q, s)
    ensures Shaped(q, s)
  {
    if s.d.free != [] {
      SlotInRange(q.size, s, s.d.free[0]);
    }
  }
}
