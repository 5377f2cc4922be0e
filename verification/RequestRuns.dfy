/**
 Runs of the request queue: callers submitting, the driver starting requests and handling responses,
 and a device that takes and returns chains as it likes.  Every submission has a ticket, its number;
 the channel may yield waiting requests in any order, as its two-level queue does.
 */
module RequestRuns {
  import opened Collections
  import opened RingIndices
  import opened VirtqueueSpec
  import opened RequestSlots
  import V = VirtqueueRuns

  datatype State = State(
    core: V.System,
    slots: Slots,
    // history
    submitted: seq<Request>,  // by ticket
    queue: seq<nat>,          // tickets of the requests waiting in the channel
    flying: seq<nat>,         // ticket of each chain in flight
    lost: seq<nat>,           // tickets refused by the virtqueue
    answered: seq<nat>,       // tickets in the order of their responses
    completed: seq<Request>)  // requests whose callbacks ran, in that order

  datatype Step =
    | Submit(r: Request)
    | Start(pick: Option<nat>)
    | Device(step: V.Step)
    | Respond(j: nat)

  function Init(size: nat, indirect: bool, eventIdx: bool): State {
    State(V.Init(size, indirect, eventIdx), Fresh(size), [], [], [], [], [], [])
  }

  predicate Enabled(s: State, step: Step) {
    match step
    case Submit(r) => RequestOk(r)
    case Start(pick) =>
      && Shaped(s.core.q, s.slots) && V.Shaped(s.core)
      && (pick.Some? ==> pick.value < |s.slots.d.waiting| && pick.value < |s.queue|)
      && (Accepted(s, pick) ==> V.Enabled(s.core, V.Add(Chained(s.slots.d.waiting[pick.value]))))
    case Device(d) => (d.Take? || d.Return?) && V.Enabled(s.core, d)
    case Respond(j) => V.Enabled(s.core, V.Pop(j)) && Linked(s.core.q, s.slots, j) && j < |s.flying|
  }

  /** The channel yields a request, there is a slot for it, and the virtqueue takes it. */
  predicate Accepted(s: State, pick: Option<nat>) {
    Picks(s.slots, pick) && AddError(s.core.q, 2) == None
  }

  /** The request found by following the token through `indices`. */
  function Lookup(d: Driver, token: nat): Option<Request> {
    if token < |d.indices| && d.indices[token].Some? && d.indices[token].value < |d.requests|
    then d.requests[d.indices[token].value] else None
  }

  function Apply(s: State, step: Step): State
    requires Enabled(s, step)
  {
    match step
    case Submit(r) =>
      s.(slots := s.slots.(d := s.slots.d.(waiting := s.slots.d.waiting + [r])),
      submitted := s.submitted + [r], queue := s.queue + [|s.submitted|])
    case Start(pick) =>
      var s1 := s.(slots := Requested(s.core.q, s.slots, pick));
      if !Picks(s.slots, pick) then s1
      else if !Accepted(s, pick) then
        s1.(queue := Without(s.queue, pick.value), lost := s.lost + [s.queue[pick.value]])
      else
        s1.(core := V.Apply(s.core, V.Add(Chained(s.slots.d.waiting[pick.value]))),
        queue := Without(s.queue, pick.value), flying := s.flying + [s.queue[pick.value]])
    case Device(d) => s.(core := V.Apply(s.core, d))
    case Respond(j) =>
      var token := s.core.q.chains[j].ids[0];
      s.(core := V.Apply(s.core, V.Pop(j)),
      slots := Responded(s.slots, token, j),
      flying := Without(s.flying, j), answered := s.answered + [s.flying[j]],
      completed := s.completed + [Lookup(s.slots.d, token).value])
  }

  predicate Run(s: State, steps: seq<Step>, s': State)
    decreases |steps|
  {
    if steps == [] then s == s'
    else Enabled(s, steps[0]) && Run(Apply(s, steps[0]), steps[1..], s')
  }

  ghost predicate Reachable(s: State) {
    exists size: nat, indirect, eventIdx, steps ::
      IsQueueSize(size) && Run(Init(size, indirect, eventIdx), steps, s)
  }

  // ----- The invariant ------------------------------------------------------------------------

  /** Position `i` of the channel holds the request its ticket says. */
  predicate Queued(s: State, i: nat) {
    && i < |s.queue| && s.queue[i] < |s.submitted|
    && i < |s.slots.d.waiting| && s.slots.d.waiting[i] == s.submitted[s.queue[i]]
  }

  /** The slot of chain `j` holds the request its ticket says. */
  predicate Carried(s: State, j: nat) {
    && j < |s.flying| && s.flying[j] < |s.submitted|
    && j < |s.slots.busy| && s.slots.busy[j] < |s.slots.d.requests|
    && s.slots.d.requests[s.slots.busy[j]] == Some(s.submitted[s.flying[j]])
  }

  /** The `k`-th callback that ran is that of the `k`-th ticket answered. */
  predicate Answered(s: State, k: nat) {
    && k < |s.answered| && s.answered[k] < |s.submitted|
    && k < |s.completed| && s.completed[k] == s.submitted[s.answered[k]]
  }

  predicate History(s: State) {
    && |s.queue| == |s.slots.d.waiting| && |s.flying| == |s.core.q.chains| && |s.answered| == |s.completed|
    && (forall i: nat | i < |s.queue| :: Queued(s, i))
    && (forall j: nat | j < |s.flying| :: Carried(s, j))
    && (forall k: nat | k < |s.completed| :: Answered(s, k))
    && (forall n: nat | n < |s.submitted| :: RequestOk(s.submitted[n]))
  }

  /** Every ticket is waiting, in flight, answered or lost, and only one of these. */
  ghost predicate Tally(n: nat, queue: seq<nat>, flying: seq<nat>, answered: seq<nat>, lost: seq<nat>) {
    multiset(queue) + multiset(flying) + multiset(answered) + multiset(lost) == multiset(Range(n))
  }

  predicate Roomy(q: Queue) {
    q.indirect && q.size >= 2
  }

  ghost predicate Books(s: State) {
    && Tally(|s.submitted|, s.queue, s.flying, s.answered, s.lost)
    && |s.lost| == |s.slots.leaked|
    && (Roomy(s.core.q) ==> AllSingle(s.core.q.chains) && s.slots.leaked == [])
  }

  ghost predicate Inv(s: State) {
    V.Inv(s.core) && SlotsOk(s.core.q, s.slots) && History(s) && Books(s)
  }

  lemma InitInv(size: nat, indirect: bool, eventIdx: bool)
    requires IsQueueSize(size)
    ensures Inv(Init(size, indirect, eventIdx))
  {
    V.InitInv(size, indirect, eventIdx);
  }

  // ----- Tickets ------------------------------------------------------------------------------

  lemma TallySubmit(n: nat, queue: seq<nat>, flying: seq<nat>, answered: seq<nat>, lost: seq<nat>)
    requires Tally(n, queue, flying, answered, lost)
    ensures Tally(n + 1, queue + [n], flying, answered, lost)
  {
    assert Range(n + 1) == Range(n) + [n];
  }

  lemma TallyFly(n: nat, queue: seq<nat>, flying: seq<nat>, answered: seq<nat>, lost: seq<nat>, i: nat)
    requires Tally(n, queue, flying, answered, lost) && i < |queue|
    ensures Tally(n, Without(queue, i), flying + [queue[i]], answered, lost)
  {
    CountWithout(queue, i);
  }

  lemma TallyLose(n: nat, queue: seq<nat>, flying: seq<nat>, answered: seq<nat>, lost: seq<nat>, i: nat)
    requires Tally(n, queue, flying, answered, lost) && i < |queue|
    ensures Tally(n, Without(queue, i), flying, answered, lost + [queue[i]])
  {
    CountWithout(queue, i);
  }

  lemma TallyAnswer(n: nat, queue: seq<nat>, flying: seq<nat>, answered: seq<nat>, lost: seq<nat>, j: nat)
    requires Tally(n, queue, flying, answered, lost) && j < |flying|
    ensures Tally(n, queue, Without(flying, j), answered + [flying[j]], lost)
  {
    CountWithout(flying, j);
  }

  // ----- Each step keeps the invariant --------------------------------------------------------

  lemma SubmitInv(s: State, r: Request)
    requires Inv(s) && Enabled(s, Submit(r))
    ensures Inv(Apply(s, Submit(r)))
  {
    var s' := Apply(s, Submit(r));
    TallySubmit(|s.submitted|, s.queue, s.flying, s.answered, s.lost);
    forall i: nat | i < |s'.queue| ensures Queued(s', i) {
      assert i < |s.queue| ==> Queued(s, i);
    }
    forall j: nat | j < |s.flying| ensures Linked(s'.core.q, s'.slots, j) && Carried(s', j) {
      assert Linked(s.core.q, s.slots, j) && Carried(s, j);
    }
    forall k: nat | k < |s.completed| ensures Answered(s', k) {
      assert Answered(s, k);
    }
  }

  lemma StartCore(s: State, pick: Option<nat>)
    requires Inv(s) && Enabled(s, Start(pick))
    ensures var s' := Apply(s, Start(pick));
            && V.Inv(s'.core) && s'.core.q == QueueRequested(s.core.q, s.slots, pick)
            && s'.slots == Requested(s.core.q, s.slots, pick)
  {
    if Accepted(s, pick) {
      V.StepInv(s.core, V.Add(Chained(s.slots.d.waiting[pick.value])));
    }
  }

  lemma StartQueued(s: State, pick: Option<nat>, i: nat)
    requires History(s) && Enabled(s, Start(pick)) && i < |Apply(s, Start(pick)).queue|
    ensures Queued(Apply(s, Start(pick)), i)
  {
    if Picks(s.slots, pick) {
      var i' := if i < pick.value then i else i + 1;
      assert Queued(s, i');
    } else {
      assert Queued(s, i);
    }
  }

  lemma StartCarried(s: State, pick: Option<nat>, j: nat)
    requires Inv(s) && Enabled(s, Start(pick)) && j < |Apply(s, Start(pick)).flying|
    ensures Carried(Apply(s, Start(pick)), j)
  {
    if j < |s.flying| {
      assert Carried(s, j);
      if s.slots.d.free != [] {
        FreeSlotNotBusy(s.core.q.size, s.slots, j);
      }
    } else {
      assert Queued(s, pick.value);
    }
  }

  lemma StartRoomy(s: State, pick: Option<nat>)
    requires Inv(s) && Enabled(s, Start(pick)) && Roomy(s.core.q)
    ensures AllSingle(Apply(s, Start(pick)).core.q.chains) && Apply(s, Start(pick)).slots.leaked == []
  {
    if Picks(s.slots, pick) {
      FreeSlotMeansRoom(s.core.q, s.slots);
      RoomMeansFree(s.core.q, 2);
    }
  }

  lemma StartHistory(s: State, pick: Option<nat>)
    requires Inv(s) && Enabled(s, Start(pick))
    ensures History(Apply(s, Start(pick)))
  {
    var s' := Apply(s, Start(pick));
    forall i: nat | i < |s'.queue| ensures Queued(s', i) {
      StartQueued(s, pick, i);
    }
    forall j: nat | j < |s'.flying| ensures Carried(s', j) {
      StartCarried(s, pick, j);
    }
    forall k: nat | k < |s'.completed| ensures Answered(s', k) {
      assert Answered(s, k);
    }
  }

  lemma StartTally(s: State, pick: Option<nat>)
    requires Tally(|s.submitted|, s.queue, s.flying, s.answered, s.lost) && |s.lost| == |s.slots.leaked|
    requires Enabled(s, Start(pick))
    ensures var s' := Apply(s, Start(pick));
            Tally(|s'.submitted|, s'.queue, s'.flying, s'.answered, s'.lost) && |s'.lost| == |s'.slots.leaked|
  {
    if Picks(s.slots, pick) {
      TallyFly(|s.submitted|, s.queue, s.flying, s.answered, s.lost, pick.value);
      TallyLose(|s.submitted|, s.queue, s.flying, s.answered, s.lost, pick.value);
    }
  }

  lemma StartInv(s: State, pick: Option<nat>)
    requires Inv(s) && Enabled(s, Start(pick))
    ensures Inv(Apply(s, Start(pick)))
  {
    StartCore(s, pick);
    StartHistory(s, pick);
    StartTally(s, pick);
    RequestedOk(s.core.q, s.slots, pick);
    if Roomy(s.core.q) {
      StartRoomy(s, pick);
    }
  }

  lemma DeviceInv(s: State, step: V.Step)
    requires Inv(s) && Enabled(s, Device(step))
    ensures Inv(Apply(s, Device(step)))
  {
    var s' := Apply(s, Device(step));
    V.StepInv(s.core, step);
    forall i: nat | i < |s.queue| ensures Queued(s', i) {
      assert Queued(s, i);
    }
    forall j: nat | j < |s.flying| ensures Carried(s', j) {
      assert Carried(s, j);
    }
    forall k: nat | k < |s.completed| ensures Answered(s', k) {
      assert Answered(s, k);
    }
  }

  /** Following the token leads to the request that was submitted under that chain's ticket. */
  lemma LookupFinds(s: State, j: nat)
    requires Inv(s) && j < |s.core.q.chains|
    ensures Linked(s.core.q, s.slots, j) && Carried(s, j)
    ensures Lookup(s.slots.d, s.core.q.chains[j].ids[0]) == Some(s.submitted[s.flying[j]])
  {
    assert Linked(s.core.q, s.slots, j) && Carried(s, j);
  }

  lemma RespondCarried(s: State, j: nat, k: nat)
    requires Inv(s) && Enabled(s, Respond(j)) && k < |s.flying| - 1
    ensures Carried(Apply(s, Respond(j)), k)
  {
    var k' := if k < j then k else k + 1;
    assert Carried(s, k');
    BusySlotsDiffer(s.core.q.size, s.slots, j, k');
  }

  lemma RespondAnswered(s: State, j: nat, k: nat)
    requires Inv(s) && Enabled(s, Respond(j)) && k <= |s.completed|
    ensures Answered(Apply(s, Respond(j)), k)
  {
    LookupFinds(s, j);
    assert k < |s.completed| ==> Answered(s, k);
  }

  lemma RespondHistory(s: State, j: nat)
    requires Inv(s) && Enabled(s, Respond(j))
    ensures History(Apply(s, Respond(j)))
  {
    var s' := Apply(s, Respond(j));
    forall i: nat | i < |s'.queue| ensures Queued(s', i) {
      assert Queued(s, i);
    }
    forall k: nat | k < |s'.flying| ensures Carried(s', k) {
      RespondCarried(s, j, k);
    }
    forall k: nat | k < |s'.completed| ensures Answered(s', k) {
      RespondAnswered(s, j, k);
    }
  }

  lemma RespondCore(s: State, j: nat)
    requires V.Inv(s.core) && SlotsOk(s.core.q, s.slots) && Enabled(s, Respond(j))
    ensures var s' := Apply(s, Respond(j)); V.Inv(s'.core) && SlotsOk(s'.core.q, s'.slots)
  {
    V.StepInv(s.core, V.Pop(j));
    RespondedOk(s.core.q, s.slots, j);
  }

  lemma RespondBooks(s: State, j: nat)
    requires Books(s) && Enabled(s, Respond(j))
    ensures Books(Apply(s, Respond(j)))
  {
    TallyAnswer(|s.submitted|, s.queue, s.flying, s.answered, s.lost, j);
  }

  lemma RespondInv(s: State, j: nat)
    requires Inv(s) && Enabled(s, Respond(j))
    ensures Inv(Apply(s, Respond(j)))
  {
    RespondCore(s, j);
    RespondHistory(s, j);
    RespondBooks(s, j);
  }

  lemma StepInv(s: State, step: Step)
    requires Inv(s) && Enabled(s, step)
    ensures Inv(Apply(s, step))
  {
    match step
    case Submit(r) => SubmitInv(s, r);
    case Start(pick) => StartInv(s, pick);
    case Device(d) => DeviceInv(s, d);
    case Respond(j) => RespondInv(s, j);
  }

  lemma {:induction false} RunInv(s: State, steps: seq<Step>, s': State)
    requires Inv(s) && Run(s, steps, s')
    ensures Inv(s')
    decreases |steps|
  {
    if steps != [] {
      StepInv(s, steps[0]);
      RunInv(Apply(s, steps[0]), steps[1..], s');
    }
  }

  lemma ReachableInv(s: State)
    requires Reachable(s)
    ensures Inv(s)
  {
    var size: nat, indirect, eventIdx, steps :|
      IsQueueSize(size) && Run(Init(size, indirect, eventIdx), steps, s);
    InitInv(size, indirect, eventIdx);
    RunInv(Init(size, indirect, eventIdx), steps, s);
  }

  lemma AnswersKept(s: State, step: Step)
    requires Enabled(s, step) && (step.Start? || step.Device?)
    ensures Apply(s, step).submitted == s.submitted && Apply(s, step).answered == s.answered
  {
  }

  /** A ticket in flight has not been answered. */
  lemma FlyingNotAnswered(s: State, j: nat)
    requires Inv(s) && j < |s.flying|
    ensures s.flying[j] < |s.submitted| && s.flying[j] !in s.answered
  {
    var n := s.flying[j];
    RangeCount(|s.submitted|, n);
    assert n in multiset(s.flying);
    assert n in s.answered ==> n in multiset(s.answered);
  }

  // ----- Free slots -----------------------------------------------------------------------------

  /** Slot number `k` of the free queue holds nothing. */
  predicate EmptyAt(d: Driver, k: nat) {
    k < |d.free| ==> d.free[k] < |d.requests| && d.requests[d.free[k]] == None
  }

  ghost predicate FreeEmpty(d: Driver) {
    forall k: nat :: EmptyAt(d, k)
  }

  lemma FreeSlotsDiffer(size: nat, s: Slots, i: nat, j: nat)
    requires SlotsAccounted(size, s) && i < j < |s.d.free|
    ensures s.d.free[i] != s.d.free[j]
  {
    RepeatedCount(s.d.free, i, j);
    RangeCount(size, s.d.free[i]);
  }

  lemma StartEmpty(s: State, pick: Option<nat>)
    requires Inv(s) && Enabled(s, Start(pick)) && FreeEmpty(s.slots.d)
    ensures FreeEmpty(Apply(s, Start(pick)).slots.d)
  {
    var d, d' := s.slots.d, Apply(s, Start(pick)).slots.d;
    forall k: nat ensures EmptyAt(d', k) {
      assert EmptyAt(d, k) && EmptyAt(d, k + 1) && EmptyAt(d, 0);
      if k + 1 < |d.free| {
        FreeSlotsDiffer(s.core.q.size, s.slots, 0, k + 1);
      }
    }
  }

  lemma RespondEmpty(s: State, j: nat)
    requires Inv(s) && Enabled(s, Respond(j)) && FreeEmpty(s.slots.d)
    ensures FreeEmpty(Apply(s, Respond(j)).slots.d)
  {
    var d, d' := s.slots.d, Apply(s, Respond(j)).slots.d;
    forall k: nat ensures EmptyAt(d', k) {
      assert EmptyAt(d, k);
    }
  }

  lemma {:induction false} RunEmpty(s: State, steps: seq<Step>, s': State)
    requires Inv(s) && FreeEmpty(s.slots.d) && Run(s, steps, s')
    ensures FreeEmpty(s'.slots.d)
    decreases |steps|
  {
    if steps != [] {
      StepInv(s, steps[0]);
      match steps[0] {
        case Start(pick) => StartEmpty(s, pick);
        case Respond(j) => RespondEmpty(s, j);
        case Submit(r) =>
          forall k: nat ensures EmptyAt(Apply(s, steps[0]).slots.d, k) {
            assert EmptyAt(s.slots.d, k);
          }
        case Device(_) =>
      }
      RunEmpty(Apply(s, steps[0]), steps[1..], s');
    }
  }

  /** A free slot holds no request: its buffers and callback were given up when it was freed. */
  lemma FreeSlotsEmpty(s: State, k: nat)
    requires Reachable(s) && k < |s.slots.d.free|
    ensures s.slots.d.free[k] < |s.slots.d.requests| && s.slots.d.requests[s.slots.d.free[k]] == None
  {
    var size: nat, indirect, eventIdx, steps :|
      IsQueueSize(size) && Run(Init(size, indirect, eventIdx), steps, s);
    InitInv(size, indirect, eventIdx);
    forall i: nat ensures EmptyAt(Fresh(size).d, i) {
    }
    RunEmpty(Init(size, indirect, eventIdx), steps, s);
    assert EmptyAt(s.slots.d, k);
  }

  // ----- What every run keeps -----------------------------------------------------------------

  /** Free and busy slots partition 0..size, and as many are busy as descriptors are used. */
  lemma SlotsPartition(s: State)
    requires Reachable(s) && Roomy(s.core.q)
    ensures multiset(s.slots.d.free) + multiset(s.slots.busy) == multiset(Range(s.core.q.size))
    ensures |s.slots.busy| == NumUsed(s.core.q)
  {
    ReachableInv(s);
    IndirectCount(s.core.q, s.slots);
    assert multiset(s.slots.leaked) == multiset{};
  }

  /** `indices` maps the tokens in flight one to one onto the busy slots, and nothing else. */
  lemma TokensOntoBusySlots(s: State, j: nat, k: nat, token: nat)
    requires Reachable(s) && j < |s.core.q.chains| && k < |s.core.q.chains| && token < s.core.q.size
    ensures Linked(s.core.q, s.slots, j) && Linked(s.core.q, s.slots, k)
    ensures s.slots.d.indices[s.core.q.chains[j].ids[0]] == Some(s.slots.busy[j])
    ensures j != k ==> s.slots.busy[j] != s.slots.busy[k]
    ensures token < |s.slots.d.indices| && (s.slots.d.indices[token].Some? <==> InFlight(s.core.q, token))
  {
    ReachableInv(s);
    var q := s.core.q;
    assert Linked(q, s.slots, j) && Linked(q, s.slots, k);
    if j != k {
      BusySlotsDiffer(q.size, s.slots, j, k);
    }
    if InFlight(q, token) {
      var i: nat :| IsToken(q, i, token);
      assert Linked(q, s.slots, i);
    }
  }

  /** The driver can always try to start what the channel yields. */
  lemma StartAlwaysEnabled(s: State, pick: Option<nat>)
    requires Reachable(s) && (pick.Some? ==> pick.value < |s.slots.d.waiting|)
    ensures Enabled(s, Start(pick))
  {
    ReachableInv(s);
    ShapedOk(s.core.q, s.slots);
    assert pick.Some? ==> Queued(s, pick.value);
  }

  /** A request that gets a slot is refused exactly when its two buffers do not fit the virtqueue. */
  lemma RefusedExactly(s: State, pick: Option<nat>)
    requires Reachable(s) && Picks(s.slots, pick)
    ensures !Accepted(s, pick) <==>
              s.core.q.size < 2 || (!s.core.q.indirect && NumUsed(s.core.q) + 2 > s.core.q.size)
    ensures Roomy(s.core.q) ==> Accepted(s, pick) && s.lost == []
  {
    ReachableInv(s);
    if s.core.q.indirect && s.core.q.size >= 2 {
      FreeSlotMeansRoom(s.core.q, s.slots);
    }
  }

  /** Handling a response never fails: whatever the device returned leads to the request it answers. */
  lemma ResponseFindsRequest(s: State) returns (j: nat)
    requires Reachable(s) && CanPop(s.core.q, s.core.used)
    ensures Enabled(s, Respond(j)) && Carried(s, j)
    ensures Lookup(s.slots.d, NextToken(s.core.q, s.core.used)) == Some(s.submitted[s.flying[j]])
    ensures s.core.q.chains[j].bufs == Chained(s.submitted[s.flying[j]])
  {
    ReachableInv(s);
    V.CanPopExactly(s.core);
    j := V.NextIsInFlight(s.core);
    LookupFinds(s, j);
  }

  /** The chain of a request shows the device the command to read, then the response to write. */
  lemma DeviceSeesRequest(s: State, j: nat)
    requires Reachable(s) && j < |s.core.q.chains|
    ensures j < |s.flying| && s.flying[j] < |s.submitted|
    ensures var r := s.submitted[s.flying[j]];
            s.core.q.chains[j].bufs ==
            [Buffer(r.input.addr, r.input.len, false), Buffer(r.output.addr, r.output.len, true)]
  {
    ReachableInv(s);
    LookupFinds(s, j);
    var r := s.submitted[s.flying[j]];
    BuffersShow([r.input], [r.output]);
  }

  /**
   Whatever order the channel and the device choose, every submission, by ticket, is waiting, in
   flight, answered or lost, exactly once; an answer runs the callback of the request submitted under
   that ticket; and with indirect descriptors none is lost.
   */
  lemma EachAnsweredOnce(s: State, n: nat, k: nat)
    requires Reachable(s) && n < |s.submitted|
    ensures multiset(s.queue)[n] + multiset(s.flying)[n] + multiset(s.answered)[n] + multiset(s.lost)[n] == 1
    ensures |s.completed| == |s.answered|
    ensures k < |s.completed| ==> s.answered[k] < |s.submitted| && s.completed[k] == s.submitted[s.answered[k]]
    ensures Roomy(s.core.q) ==> s.lost == []
    ensures Roomy(s.core.q) && s.slots.d.waiting == [] && s.core.q.chains == [] ==> multiset(s.answered)[n] == 1
  {
    ReachableInv(s);
    RangeCount(|s.submitted|, n);
    assert k < |s.completed| ==> Answered(s, k);
  }

  // ----- Without indirect descriptors ---------------------------------------------------------

  lemma {:induction false} RunExtends(s: State, steps: seq<Step>, s': State, step: Step)
    requires Run(s, steps, s') && Enabled(s', step)
    ensures Run(s, steps + [step], Apply(s', step))
    decreases |steps|
  {
    if steps == [] {
      assert Run(Apply(s, step), [], Apply(s, step));
      assert [step][1..] == [];
    } else {
      RunExtends(Apply(s, steps[0]), steps[1..], s', step);
      assert (steps + [step])[1..] == steps[1..] + [step];
    }
  }

  lemma ReachableStep(s: State, step: Step)
    requires Reachable(s) && Enabled(s, step)
    ensures Reachable(Apply(s, step))
  {
    var size: nat, indirect, eventIdx, steps :|
      IsQueueSize(size) && Run(Init(size, indirect, eventIdx), steps, s);
    RunExtends(Init(size, indirect, eventIdx), steps, s, step);
  }

  /** Two requests are waiting in a queue of two descriptors without indirect ones. */
  lemma TwoWaiting(r: Request)
    requires RequestOk(r)
    ensures Reachable(Apply(Apply(Init(2, false, false), Submit(r)), Submit(r)))
  {
    var s0 := Init(2, false, false);
    assert IsQueueSize(2) && Run(s0, [], s0);
    ReachableStep(s0, Submit(r));
    ReachableStep(Apply(s0, Submit(r)), Submit(r));
  }

  /** After the first is started one slot is free, but no descriptor. */
  lemma OneStarted(r: Request) returns (s: State)
    requires RequestOk(r)
    ensures Reachable(s) && s.lost == [] && s.queue == [1] && |s.slots.d.free| == 1 && |s.slots.d.waiting| == 1
    ensures AddError(s.core.q, 2) != None
  {
    TwoWaiting(r);
    var s2 := Apply(Apply(Init(2, false, false), Submit(r)), Submit(r));
    StartAlwaysEnabled(s2, Some(0));
    ReachableStep(s2, Start(Some(0)));
    s := Apply(s2, Start(Some(0)));
  }

  /** Starting the second loses it, and its slot is gone. */
  lemma DirectRequestLost(r: Request)
    requires RequestOk(r)
    ensures exists s :: Reachable(s) && s.lost == [1] && s.slots.d.free == [] && |s.slots.leaked| == 1
  {
    var s := OneStarted(r);
    ReachableInv(s);
    StartAlwaysEnabled(s, Some(0));
    ReachableStep(s, Start(Some(0)));
    assert Reachable(Apply(s, Start(Some(0))));
  }
}
