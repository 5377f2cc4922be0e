/**
 Virtio fences and the DXGK fences waiting for them, access by access, on any number of threads.
 `next_fence` counts before it pushes, `signal` and `query` read the counter before they look at the
 vector, and a pass over the queued submissions takes the queue's lock twice: once to go through
 them, and once to put back those that timed out.  Time is left open: any submission that is not
 ready may be found timed out.
 */
module FencePasses {
  import opened Collections
  import T = FenceTracking

  /** Where a thread is. */
  datatype Pc =
    | Idle
    | Pushing(v: nat)                             // `next_fence`: counted, not yet pushed
    | Signalling(v: nat, bound: nat)              // `signal`: the counter has been read
    | Handling                                    // responses were handled, a pass will follow
    | Submitting(fence: T.Fence)                  // `submit_fence`: about to query
    | Querying(fence: T.Fence, bound: nat)        // the counter has been read
    | Queueing(fence: T.Fence)                    // not ready: about to queue it
    | Passing                                     // about to take the lock for a pass
    | Scanning(kept: seq<T.Fence>, rest: seq<T.Fence>, again: seq<T.Fence>, read: Option<nat>)   // holding it
    | Requeueing(again: seq<T.Fence>)             // released it, about to put back what timed out

  datatype Shared = Shared(
    t: T.Tracker,
    queue: seq<T.Fence>,
    holder: Option<nat>,       // who holds the queue's lock over several accesses
    // history
    issued: set<nat>,          // virtio fences whose `next_fence` has returned
    signalled: set<nat>,
    submitted: seq<T.Fence>,
    reported: seq<T.Fence>,
    late: bool)                // a due submission was put back with no pass to come, and none has begun since

  datatype State = State(g: Shared, pcs: seq<Pc>)

  datatype Act =
    | Count | Push                          // `next_fence`
    | StartSignal(v: nat) | Remove          // `signal`
    | Submit(fence: T.Fence) | Enqueue      // `submit_fence`
    | LoadCounter | Test(timedOut: bool)    // `query`, and what follows from it
    | Lock | Unlock | Requeue               // a pass

  datatype Step = By(t: nat, act: Act)

  function Init(threads: nat): State {
    State(Shared(T.Tracker(0, []), [], None, {}, {}, [], [], false), seq(threads, _ => Idle))
  }

  predicate Ready(t: T.Tracker, fence: T.Fence, bound: nat) {
    fence.virtioFence < bound && fence.virtioFence !in t.unsignaled
  }

  predicate Due(g: Shared, fence: T.Fence) {
    fence.virtioFence in g.signalled
  }

  /** The thread will certainly make a pass. */
  predicate WillPass(pc: Pc) {
    pc.Signalling? || pc.Handling? || pc.Queueing? || pc.Passing?
  }

  predicate Awaited(pcs: seq<Pc>) {
    exists t :: 0 <= t < |pcs| && WillPass(pcs[t])
  }

  predicate ActEnabled(g: Shared, pc: Pc, act: Act) {
    match act
    case Count => pc.Idle?
    case Push => pc.Pushing?
    case StartSignal(v) => (pc.Idle? || pc.Handling?) && v in g.issued
    case Remove => pc.Signalling?
    case Submit(_) => pc.Idle?
    case Enqueue => pc.Queueing? && g.holder == None
    case LoadCounter => pc.Submitting? || (pc.Scanning? && pc.read == None && pc.rest != [])
    case Test(_) => pc.Querying? || (pc.Scanning? && pc.read.Some? && pc.rest != [])
    case Lock => (pc.Idle? || pc.Handling? || pc.Passing?) && g.holder == None
    case Unlock => pc.Scanning? && pc.rest == []
    case Requeue => pc.Requeueing? && g.holder == None
  }

  predicate Enabled(s: State, step: Step) {
    step.t < |s.pcs| && ActEnabled(s.g, s.pcs[step.t], step.act)
  }

  /** What the thread does next with its own state. */
  function NextPc(g: Shared, pc: Pc, act: Act): Pc
    requires ActEnabled(g, pc, act)
  {
    match act
    case Count => Pushing(g.t.next)
    case Push => Idle
    case StartSignal(v) => Signalling(v, g.t.next)
    case Remove => Handling
    case Submit(fence) => Submitting(fence)
    case Enqueue => Passing
    case LoadCounter => if pc.Submitting? then Querying(pc.fence, g.t.next) else pc.(read := Some(g.t.next))
    case Test(timedOut) =>
      if pc.Querying? then (if Ready(g.t, pc.fence, pc.bound) then Idle else Queueing(pc.fence))
      else
        var fence, rest := pc.rest[0], pc.rest[1..];
        if Ready(g.t, fence, pc.read.value) then Scanning(pc.kept, rest, pc.again, None)
        else if timedOut then Scanning(pc.kept, rest, pc.again + [fence], None)
        else Scanning(pc.kept + [fence], rest, pc.again, None)
    case Lock => Scanning([], g.queue, [], None)
    case Unlock => Requeueing(pc.again)
    case Requeue => Idle
  }

  /** The fence a `Test` looks at, and the counter it compares with. */
  predicate Tests(pc: Pc, fence: T.Fence, bound: nat) {
    pc == Querying(fence, bound) || (pc.Scanning? && pc.read == Some(bound) && pc.rest != [] && pc.rest[0] == fence)
  }

  function Reports(g: Shared, pc: Pc): seq<T.Fence> {
    if pc.Querying? then (if Ready(g.t, pc.fence, pc.bound) then [pc.fence] else [])
    else if pc.Scanning? && pc.read.Some? && pc.rest != [] && Ready(g.t, pc.rest[0], pc.read.value) then [pc.rest[0]]
    else []
  }

  /** And with what is shared; `awaited` says whether some thread will make a pass. */
  function NextShared(g: Shared, t: nat, pc: Pc, act: Act, awaited: bool): Shared
    requires ActEnabled(g, pc, act)
  {
    match act
    case Count => g.(t := g.t.(next := g.t.next + 1))
    case Push => g.(t := g.t.(unsignaled := g.t.unsignaled + [pc.v]), issued := g.issued + {pc.v})
    case StartSignal(_) => g
    case Remove => g.(t := T.Signalled(g.t, pc.v), signalled := g.signalled + {pc.v})
    case Submit(fence) => g.(submitted := g.submitted + [fence])
    case Enqueue => g.(queue := g.queue + [pc.fence])
    case LoadCounter => g
    case Test(_) => g.(reported := g.reported + Reports(g, pc))
    case Lock => g.(queue := [], holder := Some(t), late := false)
    case Unlock => g.(queue := pc.kept, holder := None)
    case Requeue => g.(queue := g.queue + pc.again, late := g.late || (AnyDue(g, pc.again) && !awaited))
  }

  predicate AnyDue(g: Shared, fences: seq<T.Fence>) {
    exists i :: 0 <= i < |fences| && Due(g, fences[i])
  }

  function Apply(s: State, step: Step): State
    requires Enabled(s, step)
  {
    var pc := s.pcs[step.t];
    State(NextShared(s.g, step.t, pc, step.act, Awaited(s.pcs)), s.pcs[step.t := NextPc(s.g, pc, step.act)])
  }

  predicate Run(s: State, steps: seq<Step>, s': State)
    decreases |steps|
  {
    if steps == [] then s == s'
    else Enabled(s, steps[0]) && Run(Apply(s, steps[0]), steps[1..], s')
  }

  ghost predicate Reachable(threads: nat, s: State) {
    exists steps :: Run(Init(threads), steps, s)
  }

  // ----- Conservation -------------------------------------------------------------------------

  function Times(fences: seq<T.Fence>, x: T.Fence): nat {
    multiset(fences)[x]
  }

  function Once(fence: T.Fence, x: T.Fence): nat {
    if fence == x then 1 else 0
  }

  lemma TimesSnoc(fences: seq<T.Fence>, fence: T.Fence, x: T.Fence)
    ensures Times(fences + [fence], x) == Times(fences, x) + Once(fence, x)
  {
  }

  lemma TimesFirst(fences: seq<T.Fence>, x: T.Fence)
    requires fences != []
    ensures Times(fences, x) == Once(fences[0], x) + Times(fences[1..], x)
  {
    assert fences == [fences[0]] + fences[1..];
  }

  /** How often a thread has submission `x` in hand. */
  function InHand(pc: Pc, x: T.Fence): nat {
    match pc
    case Submitting(fence) => Once(fence, x)
    case Querying(fence, _) => Once(fence, x)
    case Queueing(fence) => Once(fence, x)
    case Scanning(kept, rest, again, _) => Times(kept, x) + Times(rest, x) + Times(again, x)
    case Requeueing(again) => Times(again, x)
    case _ => 0
  }

  function AllInHand(pcs: seq<Pc>, x: T.Fence): nat {
    if pcs == [] then 0 else AllInHand(pcs[..|pcs| - 1], x) + InHand(pcs[|pcs| - 1], x)
  }

  lemma {:induction false} InHandUpdate(pcs: seq<Pc>, t: nat, pc: Pc, x: T.Fence)
    requires t < |pcs|
    ensures AllInHand(pcs[t := pc], x) + InHand(pcs[t], x) == AllInHand(pcs, x) + InHand(pc, x)
  {
    var n := |pcs| - 1;
    if t == n {
      assert pcs[t := pc][..n] == pcs[..n];
    } else {
      InHandUpdate(pcs[..n], t, pc, x);
      assert pcs[t := pc][..n] == pcs[..n][t := pc];
    }
  }

  /** `x` is reported, queued or in some thread's hands as often as it was submitted. */
  predicate Balanced(g: Shared, pcs: seq<Pc>, x: T.Fence) {
    Times(g.submitted, x) == Times(g.reported, x) + Times(g.queue, x) + AllInHand(pcs, x)
  }

  ghost predicate Conserved(g: Shared, pcs: seq<Pc>) {
    forall x :: Balanced(g, pcs, x)
  }

  /** What a `Test` takes from the thread it reports. */
  lemma TestBalance(g: Shared, pc: Pc, act: Act, x: T.Fence)
    requires act.Test? && ActEnabled(g, pc, act)
    ensures InHand(pc, x) == InHand(NextPc(g, pc, act), x) + Times(Reports(g, pc), x)
  {
    if pc.Scanning? {
      TimesFirst(pc.rest, x);
      TimesSnoc(pc.kept, pc.rest[0], x);
      TimesSnoc(pc.again, pc.rest[0], x);
    }
  }

  /** What the acts on the queue move between it and the thread. */
  lemma QueueBalance(g: Shared, t: nat, pc: Pc, act: Act, awaited: bool, x: T.Fence)
    requires ActEnabled(g, pc, act) && (act.Enqueue? || act.Lock? || act.Unlock? || act.Requeue?)
    requires act.Unlock? ==> g.queue == []
    ensures Times(NextShared(g, t, pc, act, awaited).queue, x) + InHand(NextPc(g, pc, act), x) ==
            Times(g.queue, x) + InHand(pc, x)
  {
    match act
    case Enqueue => TimesSnoc(g.queue, pc.fence, x);
    case Requeue => assert Times(g.queue + pc.again, x) == Times(g.queue, x) + Times(pc.again, x);
    case _ =>
  }

  /** The other acts leave the queue alone. */
  lemma ThreadBalance(g: Shared, t: nat, pc: Pc, act: Act, awaited: bool, x: T.Fence)
    requires ActEnabled(g, pc, act) && !act.Enqueue? && !act.Lock? && !act.Unlock? && !act.Requeue?
    ensures var g' := NextShared(g, t, pc, act, awaited);
            Times(g'.reported, x) + InHand(NextPc(g, pc, act), x) + Times(g.submitted, x) ==
            Times(g.reported, x) + InHand(pc, x) + Times(g'.submitted, x)
  {
    match act
    case Test(_) =>
      TestBalance(g, pc, act, x);
      assert Times(g.reported + Reports(g, pc), x) == Times(g.reported, x) + Times(Reports(g, pc), x);
    case Submit(fence) => TimesSnoc(g.submitted, fence, x);
    case _ =>
  }

  lemma StepConserved(s: State, step: Step)
    requires Enabled(s, step) && Conserved(s.g, s.pcs) && (step.act.Unlock? ==> s.g.queue == [])
    ensures Conserved(Apply(s, step).g, Apply(s, step).pcs)
  {
    var pc := s.pcs[step.t];
    forall x ensures Balanced(Apply(s, step).g, Apply(s, step).pcs, x) {
      assert Balanced(s.g, s.pcs, x);
      InHandUpdate(s.pcs, step.t, NextPc(s.g, pc, step.act), x);
      if step.act.Enqueue? || step.act.Lock? || step.act.Unlock? || step.act.Requeue? {
        QueueBalance(s.g, step.t, pc, step.act, Awaited(s.pcs), x);
      } else {
        ThreadBalance(s.g, step.t, pc, step.act, Awaited(s.pcs), x);
      }
    }
  }

  // ----- The tracker --------------------------------------------------------------------------

  function IsComing(pc: Pc, v: nat): nat {
    if pc == Pushing(v) then 1 else 0
  }

  /** How many threads have counted `v` and not yet pushed it. */
  function Coming(pcs: seq<Pc>, v: nat): nat {
    if pcs == [] then 0 else Coming(pcs[..|pcs| - 1], v) + IsComing(pcs[|pcs| - 1], v)
  }

  lemma {:induction false} ComingUpdate(pcs: seq<Pc>, t: nat, pc: Pc, v: nat)
    requires t < |pcs|
    ensures Coming(pcs[t := pc], v) + IsComing(pcs[t], v) == Coming(pcs, v) + IsComing(pc, v)
  {
    var n := |pcs| - 1;
    if t == n {
      assert pcs[t := pc][..n] == pcs[..n];
    } else {
      ComingUpdate(pcs[..n], t, pc, v);
      assert pcs[t := pc][..n] == pcs[..n][t := pc];
    }
  }

  lemma {:induction false} ComingExactly(pcs: seq<Pc>, v: nat)
    ensures Coming(pcs, v) > 0 <==> exists t :: 0 <= t < |pcs| && pcs[t] == Pushing(v)
  {
    if pcs != [] {
      var n := |pcs| - 1;
      ComingExactly(pcs[..n], v);
      assert forall t | 0 <= t < n :: pcs[..n][t] == pcs[t];
    }
  }

  /** Every fence counted is on its way into the vector, in it, or signalled, and only one of these. */
  predicate Tracked(g: Shared, coming: nat, v: nat) {
    coming + multiset(g.t.unsignaled)[v] + (if v in g.signalled then 1 else 0) == if v < g.t.next then 1 else 0
  }

  predicate Arrived(g: Shared, coming: nat, v: nat) {
    v in g.issued ==> v < g.t.next && coming == 0
  }

  predicate TrackOk(g: Shared, pcs: seq<Pc>, v: nat) {
    Tracked(g, Coming(pcs, v), v) && Arrived(g, Coming(pcs, v), v)
  }

  ghost predicate TrackerOk(g: Shared, pcs: seq<Pc>) {
    forall v: nat :: TrackOk(g, pcs, v)
  }

  lemma SomeComing(pcs: seq<Pc>, t: nat, v: nat)
    requires t < |pcs| && pcs[t] == Pushing(v)
    ensures Coming(pcs, v) >= 1
  {
    ComingExactly(pcs, v);
  }

  lemma RemovedTracked(g: Shared, coming: nat, w: nat, v: nat)
    requires Tracked(g, coming, v) && (v == w ==> coming == 0 && v < g.t.next)
    ensures Tracked(g.(t := T.Signalled(g.t, w), signalled := g.signalled + {w}), coming, v)
  {
    if w in g.t.unsignaled {
      T.SwapRemovedCount(g.t.unsignaled, T.Position(g.t.unsignaled, w));
    } else {
      assert w !in multiset(g.t.unsignaled);
    }
  }

  lemma PushedTracked(g: Shared, coming: nat, w: nat, v: nat)
    requires Tracked(g, coming, v) && Arrived(g, coming, v) && (v == w ==> coming >= 1)
    ensures var g' := g.(t := g.t.(unsignaled := g.t.unsignaled + [w]), issued := g.issued + {w});
            var still := if v == w then coming - 1 else coming;
            Tracked(g', still, v) && Arrived(g', still, v)
  {
    assert multiset(g.t.unsignaled + [w])[v] == multiset(g.t.unsignaled)[v] + if v == w then 1 else 0;
  }

  lemma CountTrack(s: State, t: nat, v: nat)
    requires Enabled(s, By(t, Count)) && TrackOk(s.g, s.pcs, v)
    ensures TrackOk(Apply(s, By(t, Count)).g, Apply(s, By(t, Count)).pcs, v)
  {
    ComingUpdate(s.pcs, t, Pushing(s.g.t.next), v);
  }

  lemma PushTrack(s: State, t: nat, v: nat)
    requires Enabled(s, By(t, Push)) && TrackOk(s.g, s.pcs, v)
    ensures TrackOk(Apply(s, By(t, Push)).g, Apply(s, By(t, Push)).pcs, v)
  {
    ComingUpdate(s.pcs, t, Idle, v);
    if s.pcs[t].v == v {
      SomeComing(s.pcs, t, v);
    }
    PushedTracked(s.g, Coming(s.pcs, v), s.pcs[t].v, v);
  }

  lemma RemoveTrack(s: State, t: nat, v: nat)
    requires Enabled(s, By(t, Remove)) && TrackOk(s.g, s.pcs, v) && s.pcs[t].v in s.g.issued
    ensures TrackOk(Apply(s, By(t, Remove)).g, Apply(s, By(t, Remove)).pcs, v)
  {
    ComingUpdate(s.pcs, t, Handling, v);
    RemovedTracked(s.g, Coming(s.pcs, v), s.pcs[t].v, v);
  }

  lemma OtherTrack(s: State, step: Step, v: nat)
    requires Enabled(s, step) && TrackOk(s.g, s.pcs, v)
    requires !step.act.Count? && !step.act.Push? && !step.act.Remove?
    ensures TrackOk(Apply(s, step).g, Apply(s, step).pcs, v)
  {
    ComingUpdate(s.pcs, step.t, NextPc(s.g, s.pcs[step.t], step.act), v);
  }

  lemma StepTracks(s: State, step: Step)
    requires Enabled(s, step) && TrackerOk(s.g, s.pcs)
    requires step.act.Remove? ==> s.pcs[step.t].v in s.g.issued
    ensures TrackerOk(Apply(s, step).g, Apply(s, step).pcs)
  {
    forall v: nat ensures TrackOk(Apply(s, step).g, Apply(s, step).pcs, v) {
      assert TrackOk(s.g, s.pcs, v);
      match step.act
      case Count => CountTrack(s, step.t, v);
      case Push => PushTrack(s, step.t, v);
      case Remove => RemoveTrack(s, step.t, v);
      case _ => OtherTrack(s, step, v);
    }
  }

  // ----- The threads --------------------------------------------------------------------------

  predicate PcOk(g: Shared, t: nat, pc: Pc) {
    && (pc.Scanning? <==> g.holder == Some(t))
    && (pc.Signalling? ==> pc.v in g.issued && pc.v < pc.bound)
    && (pc.Querying? ==> pc.bound <= g.t.next)
    && (pc.Scanning? && pc.read.Some? ==> pc.read.value <= g.t.next && pc.rest != [])
  }

  ghost predicate ThreadsOk(g: Shared, pcs: seq<Pc>) {
    && (forall t: nat | t < |pcs| :: PcOk(g, t, pcs[t]))
    && (g.holder.Some? ==> g.queue == [] && !g.late)
  }

  lemma StepThreads(s: State, step: Step)
    requires Enabled(s, step) && ThreadsOk(s.g, s.pcs) && TrackerOk(s.g, s.pcs)
    ensures ThreadsOk(Apply(s, step).g, Apply(s, step).pcs)
  {
    var s' := Apply(s, step);
    assert PcOk(s.g, step.t, s.pcs[step.t]);
    forall t: nat | t < |s'.pcs| ensures PcOk(s'.g, t, s'.pcs[t]) {
      assert PcOk(s.g, t, s.pcs[t]);
      if t == step.t && step.act.StartSignal? {
        assert TrackOk(s.g, s.pcs, step.act.v);
      }
    }
  }

  // ----- Who will see what is due -------------------------------------------------------------

  predicate QueueCovered(g: Shared, awaited: bool) {
    forall i | 0 <= i < |g.queue| :: Due(g, g.queue[i]) ==> g.late || awaited
  }

  /** What a pass has decided to keep was not due, or became due since and another pass will follow. */
  predicate ScanCovered(g: Shared, pc: Pc, awaited: bool) {
    pc.Scanning? ==>
      && (forall i | 0 <= i < |pc.kept| :: Due(g, pc.kept[i]) ==> awaited)
      && (pc.read.Some? && pc.rest != [] && Due(g, pc.rest[0]) && pc.rest[0].virtioFence >= pc.read.value ==> awaited)
  }

  ghost predicate Covered(g: Shared, pcs: seq<Pc>) {
    && QueueCovered(g, Awaited(pcs))
    && (forall t: nat | t < |pcs| :: ScanCovered(g, pcs[t], Awaited(pcs)))
    && (g.late ==> AnyDue(g, g.queue))
  }

  lemma AwaitedKept(s: State, step: Step)
    requires Enabled(s, step) && !step.act.Lock? && Awaited(s.pcs)
    ensures Awaited(Apply(s, step).pcs)
  {
    var t :| 0 <= t < |s.pcs| && WillPass(s.pcs[t]);
    assert WillPass(Apply(s, step).pcs[t]);
  }

  lemma LockCovered(s: State, t: nat)
    requires Enabled(s, By(t, Lock)) && ThreadsOk(s.g, s.pcs)
    ensures Covered(Apply(s, By(t, Lock)).g, Apply(s, By(t, Lock)).pcs)
  {
    var s' := Apply(s, By(t, Lock));
    forall u: nat | u < |s'.pcs| ensures ScanCovered(s'.g, s'.pcs[u], Awaited(s'.pcs)) {
      assert PcOk(s.g, u, s.pcs[u]);
    }
  }

  /** A thread that will make a pass covers everything. */
  lemma AwaitedCovers(g: Shared, pcs: seq<Pc>, t: nat)
    requires t < |pcs| && WillPass(pcs[t]) && (g.late ==> AnyDue(g, g.queue))
    ensures Covered(g, pcs)
  {
    assert Awaited(pcs);
  }

  /** A fence that is due and not found ready was signalled after the counter was read. */
  lemma TestMissed(g: Shared, pcs: seq<Pc>, fence: T.Fence, bound: nat)
    requires TrackerOk(g, pcs) && Due(g, fence) && !Ready(g.t, fence, bound)
    ensures fence.virtioFence >= bound
  {
    var v := fence.virtioFence;
    assert TrackOk(g, pcs, v);
    assert v in g.t.unsignaled ==> v in multiset(g.t.unsignaled);
  }

  lemma TestCovered(s: State, t: nat, timedOut: bool)
    requires Enabled(s, By(t, Test(timedOut))) && s.pcs[t].Scanning?
    requires TrackerOk(s.g, s.pcs) && ScanCovered(s.g, s.pcs[t], Awaited(s.pcs))
    ensures ScanCovered(s.g, NextPc(s.g, s.pcs[t], Test(timedOut)), Awaited(s.pcs))
  {
    var pc := s.pcs[t];
    if Due(s.g, pc.rest[0]) && !Ready(s.g.t, pc.rest[0], pc.read.value) {
      TestMissed(s.g, s.pcs, pc.rest[0], pc.read.value);
    }
  }

  lemma LoadCovered(s: State, t: nat)
    requires Enabled(s, By(t, LoadCounter)) && s.pcs[t].Scanning?
    requires TrackerOk(s.g, s.pcs) && ScanCovered(s.g, s.pcs[t], Awaited(s.pcs))
    ensures ScanCovered(s.g, NextPc(s.g, s.pcs[t], LoadCounter), Awaited(s.pcs))
  {
    assert TrackOk(s.g, s.pcs, s.pcs[t].rest[0].virtioFence);
  }

  /** The mover's own local state, for the acts that do not bring in anything due. */
  lemma MoverCovered(s: State, step: Step)
    requires Enabled(s, step) && TrackerOk(s.g, s.pcs) && ScanCovered(s.g, s.pcs[step.t], Awaited(s.pcs))
    requires !step.act.Lock? && !step.act.Remove?
    ensures ScanCovered(Apply(s, step).g, Apply(s, step).pcs[step.t], Awaited(s.pcs))
  {
    if s.pcs[step.t].Scanning? {
      match step.act
      case Test(timedOut) => TestCovered(s, step.t, timedOut);
      case LoadCounter => LoadCovered(s, step.t);
      case _ =>
    }
  }

  lemma QueueStaysCovered(s: State, step: Step)
    requires Enabled(s, step) && QueueCovered(s.g, Awaited(s.pcs)) && ScanCovered(s.g, s.pcs[step.t], Awaited(s.pcs))
    requires !step.act.Lock? && !step.act.Remove? && !step.act.Enqueue?
    ensures QueueCovered(Apply(s, step).g, Awaited(s.pcs))
  {
    var s' := Apply(s, step);
    forall i | 0 <= i < |s'.g.queue| && Due(s'.g, s'.g.queue[i]) ensures s'.g.late || Awaited(s.pcs) {
      if step.act.Requeue? && i >= |s.g.queue| {
        assert s'.g.queue[i] == s.pcs[step.t].again[i - |s.g.queue|];
      }
    }
  }

  /** A late submission stays in the queue until a pass takes the lock. */
  lemma LateStays(s: State, step: Step)
    requires Enabled(s, step) && ThreadsOk(s.g, s.pcs) && (s.g.late ==> AnyDue(s.g, s.g.queue))
    ensures Apply(s, step).g.late ==> AnyDue(Apply(s, step).g, Apply(s, step).g.queue)
  {
    var s' := Apply(s, step);
    assert PcOk(s.g, step.t, s.pcs[step.t]);
    if s.g.late && !step.act.Lock? {
      var i :| 0 <= i < |s.g.queue| && Due(s.g, s.g.queue[i]);
      assert s'.g.queue[i] == s.g.queue[i] && Due(s'.g, s'.g.queue[i]);
    } else if s'.g.late {
      var again := s.pcs[step.t].again;
      var i :| 0 <= i < |again| && Due(s.g, again[i]);
      assert s'.g.queue[|s.g.queue| + i] == again[i];
    }
  }

  lemma OtherCovered(s: State, step: Step)
    requires Enabled(s, step) && ThreadsOk(s.g, s.pcs) && TrackerOk(s.g, s.pcs) && Covered(s.g, s.pcs)
    requires !step.act.Lock? && !step.act.Remove? && !step.act.Enqueue?
    ensures Covered(Apply(s, step).g, Apply(s, step).pcs)
  {
    var s' := Apply(s, step);
    LateStays(s, step);
    assert ScanCovered(s.g, s.pcs[step.t], Awaited(s.pcs));
    QueueStaysCovered(s, step);
    if Awaited(s.pcs) {
      AwaitedKept(s, step);
    }
    forall t: nat | t < |s'.pcs| ensures ScanCovered(s'.g, s'.pcs[t], Awaited(s'.pcs)) {
      assert ScanCovered(s.g, s.pcs[t], Awaited(s.pcs));
      if t == step.t {
        MoverCovered(s, step);
      }
    }
  }

  lemma StepCovered(s: State, step: Step)
    requires Enabled(s, step) && ThreadsOk(s.g, s.pcs) && TrackerOk(s.g, s.pcs) && Covered(s.g, s.pcs)
    ensures Covered(Apply(s, step).g, Apply(s, step).pcs)
  {
    if step.act.Lock? {
      LockCovered(s, step.t);
    } else if step.act.Remove? || step.act.Enqueue? {
      LateStays(s, step);
      AwaitedCovers(Apply(s, step).g, Apply(s, step).pcs, step.t);
    } else {
      OtherCovered(s, step);
    }
  }

  // ----- The invariant ------------------------------------------------------------------------

  ghost predicate Inv(s: State) {
    match s
    case State(g, pcs) =>
      Conserved(g, pcs) && TrackerOk(g, pcs) && ThreadsOk(g, pcs) && Covered(g, pcs)
  }

  lemma {:induction false} NothingInHand(pcs: seq<Pc>, x: T.Fence, v: nat)
    requires forall t | 0 <= t < |pcs| :: pcs[t] == Idle
    ensures AllInHand(pcs, x) == 0 && Coming(pcs, v) == 0
  {
    if pcs != [] {
      NothingInHand(pcs[..|pcs| - 1], x, v);
    }
  }

  lemma InitInv(threads: nat)
    ensures Inv(Init(threads))
  {
    var s := Init(threads);
    forall x ensures Balanced(s.g, s.pcs, x) {
      NothingInHand(s.pcs, x, 0);
    }
    forall v: nat ensures TrackOk(s.g, s.pcs, v) {
      NothingInHand(s.pcs, T.Fence(0, 0, 0), v);
    }
  }

  lemma StepInv(s: State, step: Step)
    requires Inv(s) && Enabled(s, step)
    ensures Inv(Apply(s, step))
  {
    assert PcOk(s.g, step.t, s.pcs[step.t]);
    StepConserved(s, step);
    StepTracks(s, step);
    StepThreads(s, step);
    StepCovered(s, step);
  }

  lemma {:induction false} RunInv(s: State, steps: seq<Step>, s': State)
    requires Inv(s) && Run(s, steps, s')
    ensures Inv(s')
    decreases |steps|
  {
    if steps != [] {
      StepInv(s, steps[0]);
      RunInv(Apply(s, steps[0]), steps[1..], s');
    }
  }

  lemma ReachableInv(threads: nat, s: State)
    requires Reachable(threads, s)
    ensures Inv(s)
  {
    var steps :| Run(Init(threads), steps, s);
    InitInv(threads);
    RunInv(Init(threads), steps, s);
  }

  // ----- What every interleaving keeps --------------------------------------------------------

  predicate AllIdle(s: State) {
    forall t | 0 <= t < |s.pcs| :: s.pcs[t] == Idle
  }

  /**
   However the accesses interleave, each submitted fence is reported, queued or in some thread's
   hands, once; at rest it is reported or queued.  The assertion in `signal` never fires.
   */
  lemma EachFenceOnce(threads: nat, s: State, fence: T.Fence)
    requires Reachable(threads, s)
    ensures Times(s.g.submitted, fence) ==
            Times(s.g.reported, fence) + Times(s.g.queue, fence) + AllInHand(s.pcs, fence)
    ensures AllIdle(s) ==> Times(s.g.submitted, fence) == Times(s.g.reported, fence) + Times(s.g.queue, fence)
    ensures forall t: nat | t < |s.pcs| && s.pcs[t].Signalling? :: s.pcs[t].v < s.pcs[t].bound
  {
    ReachableInv(threads, s);
    assert Balanced(s.g, s.pcs, fence);
    if AllIdle(s) {
      NothingInHand(s.pcs, fence, 0);
    }
    forall t: nat | t < |s.pcs| && s.pcs[t].Signalling? ensures s.pcs[t].v < s.pcs[t].bound {
      assert PcOk(s.g, t, s.pcs[t]);
    }
  }

  /**
   A fence found ready, and so reported, has been signalled exactly when no `next_fence` is between
   counting its virtio fence and pushing it.
   */
  lemma ReadyExactly(threads: nat, s: State, t: nat, fence: T.Fence, bound: nat)
    requires Reachable(threads, s) && t < |s.pcs| && Tests(s.pcs[t], fence, bound) && Ready(s.g.t, fence, bound)
    ensures Due(s.g, fence) <==> forall u | 0 <= u < |s.pcs| :: s.pcs[u] != Pushing(fence.virtioFence)
  {
    ReachableInv(threads, s);
    var v := fence.virtioFence;
    assert PcOk(s.g, t, s.pcs[t]);
    assert TrackOk(s.g, s.pcs, v);
    assert v !in multiset(s.g.t.unsignaled);
    ComingExactly(s.pcs, v);
  }

  // ----- What is left at rest -----------------------------------------------------------------

  predicate NoLock(steps: seq<Step>) {
    forall i | 0 <= i < |steps| :: !steps[i].act.Lock?
  }

  /** The step puts back a submission that is due, and no thread is going to make a pass. */
  predicate PutsBackLate(s: State, step: Step) {
    && Enabled(s, step) && step.act.Requeue? && !Awaited(s.pcs)
    && AnyDue(s.g, s.pcs[step.t].again)
  }

  /** Some step of the run does so, and no pass begins after it. */
  predicate Strands(s: State, steps: seq<Step>)
    decreases |steps|
  {
    steps != [] && Enabled(s, steps[0]) &&
    ((PutsBackLate(s, steps[0]) && NoLock(steps[1..])) || Strands(Apply(s, steps[0]), steps[1..]))
  }

  lemma {:induction false} LateExactly(s: State, steps: seq<Step>, s': State)
    requires Run(s, steps, s')
    ensures s'.g.late <==> (s.g.late && NoLock(steps)) || Strands(s, steps)
    decreases |steps|
  {
    if steps != [] {
      LateExactly(Apply(s, steps[0]), steps[1..], s');
      assert NoLock(steps) <==> !steps[0].act.Lock? && NoLock(steps[1..]) by {
        assert forall i | 0 <= i < |steps| - 1 :: steps[1..][i] == steps[i + 1];
      }
    }
  }

  /**
   At rest, nothing that is due is left in the queue, exactly when the run did not strand anything:
   every time a due submission was put back with no pass to come, another pass began later.
   */
  lemma RestExactly(threads: nat, steps: seq<Step>, s: State)
    requires Run(Init(threads), steps, s) && AllIdle(s)
    ensures (forall i | 0 <= i < |s.g.queue| :: !Due(s.g, s.g.queue[i])) <==> !Strands(Init(threads), steps)
  {
    InitInv(threads);
    RunInv(Init(threads), steps, s);
    LateExactly(Init(threads), steps, s);
    assert !Awaited(s.pcs);
  }

  // ----- Both failures happen -----------------------------------------------------------------

  lemma {:induction false} RunExtends(s: State, steps: seq<Step>, s': State, step: Step)
    requires Run(s, steps, s') && Enabled(s', step)
    ensures Run(s, steps + [step], Apply(s', step))
    decreases |steps|
  {
    if steps == [] {
      assert [step][1..] == [] && Run(Apply(s, step), [], Apply(s, step));
    } else {
      RunExtends(Apply(s, steps[0]), steps[1..], s', step);
      assert (steps + [step])[1..] == steps[1..] + [step];
    }
  }

  lemma ReachableStep(threads: nat, s: State, step: Step, s': State)
    requires Reachable(threads, s) && Enabled(s, step) && s' == Apply(s, step)
    ensures Reachable(threads, s')
  {
    var steps :| Run(Init(threads), steps, s);
    RunExtends(Init(threads), steps, s, step);
  }

  /** Two threads, virtio fence 0 counted by the first and not pushed. */
  lemma OneCounted()
    ensures Reachable(2, State(Shared(T.Tracker(1, []), [], None, {}, {}, [], [], false), [Pushing(0), Idle]))
  {
    assert Run(Init(2), [], Init(2));
    ReachableStep(2, Init(2), By(0, Count),
                  State(Shared(T.Tracker(1, []), [], None, {}, {}, [], [], false), [Pushing(0), Idle]));
  }

  /** A fence tied to it is reported although it has not been signalled, nor even pushed. */
  lemma ReportedTooSoon() returns (s: State)
    ensures Reachable(2, s) && s.g.reported == [T.Fence(0, 1, 0)] && !Due(s.g, T.Fence(0, 1, 0))
  {
    OneCounted();
    var f := T.Fence(0, 1, 0);
    var g := Shared(T.Tracker(1, []), [], None, {}, {}, [], [], false);
    var g' := g.(submitted := [f]);
    var s1, s2 := State(g', [Pushing(0), Submitting(f)]), State(g', [Pushing(0), Querying(f, 1)]);
    ReachableStep(2, State(g, [Pushing(0), Idle]), By(1, Submit(f)), s1);
    ReachableStep(2, s1, By(1, LoadCounter), s2);
    s := State(g'.(reported := [f]), [Pushing(0), Idle]);
    ReachableStep(2, s2, By(1, Test(false)), s);
  }

  /** The fence is queued, and its thread is about to make a pass. */
  lemma OneQueued(f: T.Fence)
    requires f == T.Fence(0, 1, 0)
    ensures Reachable(2, State(Shared(T.Tracker(1, [0]), [f], None, {0}, {}, [f], [], false), [Idle, Passing]))
  {
    OneCounted();
    var g0 := Shared(T.Tracker(1, []), [], None, {}, {}, [], [], false);
    var g1 := Shared(T.Tracker(1, [0]), [], None, {0}, {}, [], [], false);
    var g2 := g1.(submitted := [f]);
    ReachableStep(2, State(g0, [Pushing(0), Idle]), By(0, Push), State(g1, [Idle, Idle]));
    ReachableStep(2, State(g1, [Idle, Idle]), By(1, Submit(f)), State(g2, [Idle, Submitting(f)]));
    ReachableStep(2, State(g2, [Idle, Submitting(f)]), By(1, LoadCounter), State(g2, [Idle, Querying(f, 1)]));
    ReachableStep(2, State(g2, [Idle, Querying(f, 1)]), By(1, Test(false)), State(g2, [Idle, Queueing(f)]));
    ReachableStep(2, State(g2, [Idle, Queueing(f)]), By(1, Enqueue), State(g2.(queue := [f]), [Idle, Passing]));
  }

  /** The pass has the lock and is looking at it. */
  lemma OneScanned(f: T.Fence)
    requires f == T.Fence(0, 1, 0)
    ensures Reachable(2, State(Shared(T.Tracker(1, [0]), [], Some(1), {0}, {}, [f], [], false),
                               [Idle, Scanning([], [f], [], Some(1))]))
  {
    OneQueued(f);
    var g := Shared(T.Tracker(1, [0]), [], Some(1), {0}, {}, [f], [], false);
    var s1 := State(g, [Idle, Scanning([], [f], [], None)]);
    ReachableStep(2, State(g.(queue := [f], holder := None), [Idle, Passing]), By(1, Lock), s1);
    ReachableStep(2, s1, By(1, LoadCounter), State(g, [Idle, Scanning([], [f], [], Some(1))]));
  }

  /** The pass has found it timed out and has released the lock. */
  lemma OneInHand(f: T.Fence)
    requires f == T.Fence(0, 1, 0)
    ensures Reachable(2, State(Shared(T.Tracker(1, [0]), [], None, {0}, {}, [f], [], false), [Idle, Requeueing([f])]))
  {
    OneScanned(f);
    var g := Shared(T.Tracker(1, [0]), [], Some(1), {0}, {}, [f], [], false);
    var pc, found := Scanning([], [f], [], Some(1)), Scanning([], [], [f], None);
    assert NextPc(g, pc, Test(true)) == found by {
      assert [f][1..] == [] && [] + [f] == [f];
    }
    ReachableStep(2, State(g, [Idle, pc]), By(1, Test(true)), State(g, [Idle, found]));
    ReachableStep(2, State(g, [Idle, found]), By(1, Unlock), State(g.(holder := None), [Idle, Requeueing([f])]));
  }

  /** Meanwhile the other thread signals its virtio fence and makes a whole pass, which does not see it. */
  lemma PassedBy(f: T.Fence)
    requires f == T.Fence(0, 1, 0)
    ensures Reachable(2, State(Shared(T.Tracker(1, []), [], None, {0}, {0}, [f], [], false), [Idle, Requeueing([f])]))
  {
    OneInHand(f);
    var back := Requeueing([f]);
    var g0 := Shared(T.Tracker(1, [0]), [], None, {0}, {}, [f], [], false);
    var g1 := Shared(T.Tracker(1, []), [], None, {0}, {0}, [f], [], false);
    ReachableStep(2, State(g0, [Idle, back]), By(0, StartSignal(0)), State(g0, [Signalling(0, 1), back]));
    ReachableStep(2, State(g0, [Signalling(0, 1), back]), By(0, Remove), State(g1, [Handling, back]));
    var s1 := State(g1.(holder := Some(0)), [Scanning([], [], [], None), back]);
    ReachableStep(2, State(g1, [Handling, back]), By(0, Lock), s1);
    ReachableStep(2, s1, By(0, Unlock), State(g1, [Requeueing([]), back]));
    ReachableStep(2, State(g1, [Requeueing([]), back]), By(0, Requeue), State(g1, [Idle, back]));
  }

  /** All threads are at rest, and a submission that is due is left in the queue. */
  lemma StrandedAtRest() returns (s: State)
    ensures Reachable(2, s) && AllIdle(s) && s.g.queue == [T.Fence(0, 1, 0)] && Due(s.g, T.Fence(0, 1, 0))
  {
    var f := T.Fence(0, 1, 0);
    PassedBy(f);
    var g := Shared(T.Tracker(1, []), [], None, {0}, {0}, [f], [], false);
    s := State(g.(queue := [f], late := true), [Idle, Idle]);
    assert AnyDue(g, [f]) by {
      assert Due(g, [f][0]);
    }
    ReachableStep(2, State(g, [Idle, Requeueing([f])]), By(1, Requeue), s);
  }
}
