/**
 In-order completion of an engine's fences, and the preemption handshake that rides on it.

 `notify_fence` and `notify_queued_fences` run on any number of threads over three atomics and one
 locked ordered set.  Every atomic access is its own step here, so a thread may hold a stale
 `last_completed` while it waits for the lock, and it may have reported a fence without having
 stored it yet.
 */
module EngineFences {
  import opened Collections

  /** The scheduler never reaches the last 32-bit fence id, so `last + 1` does not wrap. */
  const FENCE_LIMIT := 0xFFFF_FFFF

  /** What a caller of `notify_queued_fences` does once it returns. */
  datatype Continuation = Return | Preempt(request: nat)

  /** Program counters; the `last` fields are local copies of `last_completed_fence`. */
  datatype Pc =
    | Idle
    | Called(fence: nat)
    | Compared(fence: nat, last: nat)
    | Reported(fence: nat)
    | Enter(cont: Continuation)
    | WaitLock(last: nat, cont: Continuation)
    | Draining(last: nat, cont: Continuation)
    | DrainReported(fence: nat, cont: Continuation)
    | Closing(last: nat, cont: Continuation)
    | Swapping(last: nat, cont: Continuation)
    | Notifying(request: nat, last: nat, cont: Continuation)
    | PreemptLoad(request: nat)
    | PreemptCompare(request: nat, last: nat)
    | PreemptNotify(request: nat, last: nat)
    | PreemptStore(request: nat)
    | Panicked

  /** Where a submitted fence is on its way to being reported (history variable). */
  datatype Place = Outstanding | Held(thread: nat) | Pending | Storing(thread: nat) | Done

  /** A DmaPreempted interrupt, and what had been submitted when it was sent (history). */
  datatype Ack = Ack(request: nat, lastCompleted: nat, submitted: nat)

  /** What the threads share, with the history the statements below speak of. */
  datatype Shared = Shared(
    submitted: nat,          // last_submitted_fence
    completed: nat,          // last_completed_fence
    preemption: nat,         // last_preemption_fence, 0 when there is none
    pending: set<nat>,       // pending_fences
    holder: Option<nat>,     // the thread inside the pending_fences lock
    place: map<nat, Place>,  // for each submitted fence
    log: seq<nat>,           // DmaCompleted interrupts, in order
    issued: seq<nat>,        // preemption requests, in order
    carrier: Option<nat>,    // the thread with a request it has not yet published or acknowledged
    acks: seq<Ack>)          // DmaPreempted interrupts, in order

  datatype Engine = Engine(shared: Shared, pcs: seq<Pc>)

  datatype Action =
    | Complete(fence: nat)
    | LoadCompleted
    | ReportNow
    | StoreReported
    | Enqueue
    | StartDrain
    | LoadForDrain
    | Lock
    | PopFirst(first: nat)
    | StorePopped
    | MissedFence(first: nat)
    | StopDrain
    | CloseFused
    | CheckSubmitted
    | SwapPreemption
    | SendPreempted
    | StartPreempt(request: nat)
    | PreemptLoadCompleted
    | PreemptLoadSubmitted
    | PreemptFused
    | PreemptSend
    | PreemptPublish

  datatype Step = Submit | By(t: nat, act: Action)

  function Init(threads: nat): Engine {
    Engine(Shared(0, 0, 0, {}, None, map[], [], [], None, []), seq(threads, _ => Idle))
  }

  /** `BTreeSet::first`. */
  predicate IsFirst(fence: nat, pending: set<nat>) {
    fence in pending && forall g | g in pending :: fence <= g
  }

  /** Whether a thread at `pc` can take `act` next. */
  predicate Can(g: Shared, pc: Pc, act: Action) {
    match act
    case Complete(f) => pc == Idle && f in g.place && g.place[f] == Outstanding
    case LoadCompleted => pc.Called?
    case ReportNow => pc.Compared? && pc.last + 1 == pc.fence
    case StoreReported => pc.Reported?
    case Enqueue => pc.Compared? && pc.last + 1 != pc.fence && g.holder == None
    case StartDrain => pc == Idle
    case LoadForDrain => pc.Enter?
    case Lock => pc.WaitLock? && g.holder == None
    case PopFirst(f) => pc.Draining? && IsFirst(f, g.pending) && pc.last + 1 == f
    case StorePopped => pc.DrainReported?
    case MissedFence(f) => pc.Draining? && IsFirst(f, g.pending) && pc.last + 1 > f
    case StopDrain => pc.Draining? && forall f | f in g.pending :: pc.last + 1 < f
    case CloseFused => pc.Closing?
    case CheckSubmitted => pc.Closing?
    case SwapPreemption => pc.Swapping?
    case SendPreempted => pc.Notifying?
    case StartPreempt(r) => pc == Idle && r != 0 && |g.issued| == |g.acks|
    case PreemptLoadCompleted => pc.PreemptLoad?
    case PreemptLoadSubmitted => pc.PreemptCompare?
    case PreemptFused => pc.PreemptCompare?
    case PreemptSend => pc.PreemptNotify?
    case PreemptPublish => pc.PreemptStore?
  }

  function Resume(cont: Continuation): Pc {
    match cont
    case Return => Idle
    case Preempt(r) => PreemptLoad(r)
  }

  function NextPc(g: Shared, pc: Pc, act: Action): Pc
    requires Can(g, pc, act)
  {
    match act
    case Complete(f) => Called(f)
    case LoadCompleted => Compared(pc.fence, g.completed)
    case ReportNow => Reported(pc.fence)
    case StoreReported => Enter(Return)
    case Enqueue => Enter(Return)
    case StartDrain => Enter(Return)
    case LoadForDrain => WaitLock(g.completed, pc.cont)
    case Lock => Draining(pc.last, pc.cont)
    case PopFirst(f) => DrainReported(f, pc.cont)
    case StorePopped => Draining(pc.fence, pc.cont)
    case MissedFence(_) => Panicked
    case StopDrain => Closing(pc.last, pc.cont)
    case CloseFused => Resume(pc.cont)
    case CheckSubmitted => if pc.last == g.submitted then Swapping(pc.last, pc.cont) else Resume(pc.cont)
    case SwapPreemption => if g.preemption == 0 then Resume(pc.cont) else Notifying(g.preemption, pc.last, pc.cont)
    case SendPreempted => Resume(pc.cont)
    case StartPreempt(r) => Enter(Preempt(r))
    case PreemptLoadCompleted => PreemptCompare(pc.request, g.completed)
    case PreemptLoadSubmitted =>
      if pc.last == g.submitted then PreemptNotify(pc.request, pc.last) else PreemptStore(pc.request)
    case PreemptFused => if pc.last == g.submitted then Idle else PreemptStore(pc.request)
    case PreemptSend => Idle
    case PreemptPublish => Enter(Return)
  }

  /** The DmaPreempted interrupt for `request`, sent by the thread that holds it. */
  function Acknowledge(g: Shared, request: nat, last: nat): Shared {
    g.(acks := g.acks + [Ack(request, last, g.submitted)], carrier := None)
  }

  /** Comparison, swap of `last_preemption_fence` with 0 and notification taken as one step. */
  function Close(g: Shared, last: nat): Shared {
    var g1 := g.(holder := None);
    if last != g.submitted || g.preemption == 0 then g1
    else Acknowledge(g1.(preemption := 0), g.preemption, last)
  }

  function Effect(g: Shared, t: nat, pc: Pc, act: Action): Shared
    requires Can(g, pc, act)
  {
    match act
    case Complete(f) => g.(place := g.place[f := Held(t)])
    case ReportNow => g.(log := g.log + [pc.fence], place := g.place[pc.fence := Storing(t)])
    case StoreReported => g.(completed := pc.fence, place := g.place[pc.fence := Done])
    case Enqueue => g.(pending := g.pending + {pc.fence}, place := g.place[pc.fence := Pending])
    case Lock => g.(holder := Some(t))
    case PopFirst(f) => g.(pending := g.pending - {f}, log := g.log + [f], place := g.place[f := Storing(t)])
    case StorePopped => g.(completed := pc.fence, place := g.place[pc.fence := Done])
    case CloseFused => Close(g, pc.last)
    case CheckSubmitted => if pc.last == g.submitted then g else g.(holder := None)
    case SwapPreemption => if g.preemption == 0 then g.(holder := None) else g.(preemption := 0, carrier := Some(t))
    case SendPreempted => Acknowledge(g.(holder := None), pc.request, pc.last)
    case StartPreempt(r) => g.(issued := g.issued + [r], carrier := Some(t))
    case PreemptFused => if pc.last == g.submitted then Acknowledge(g, pc.request, pc.last) else g
    case PreemptSend => Acknowledge(g, pc.request, pc.last)
    case PreemptPublish => g.(preemption := pc.request, carrier := None)
    case _ => g
  }

  predicate Enabled(s: Engine, step: Step) {
    match step
    case Submit => s.shared.submitted + 1 < FENCE_LIMIT
    case By(t, act) => t < |s.pcs| && Can(s.shared, s.pcs[t], act)
  }

  function Apply(s: Engine, step: Step): Engine
    requires Enabled(s, step)
  {
    match step
    case Submit =>
      var f := s.shared.submitted + 1;
      s.(shared := s.shared.(submitted := f, place := s.shared.place[f := Outstanding]))
    case By(t, act) =>
      Engine(Effect(s.shared, t, s.pcs[t], act), s.pcs[t := NextPc(s.shared, s.pcs[t], act)])
  }

  /** `s'` is where `steps` lead from `s`. */
  predicate Run(s: Engine, steps: seq<Step>, s': Engine)
    decreases |steps|
  {
    if steps == [] then s == s'
    else Enabled(s, steps[0]) && Run(Apply(s, steps[0]), steps[1..], s')
  }

  /** Some run of that many threads ends in `s`. */
  ghost predicate Reachable(threads: nat, s: Engine) {
    exists steps :: Run(Init(threads), steps, s)
  }

  // ----- The invariant ------------------------------------------------------------------------

  /** Inside `notify_queued_fences`. */
  predicate InDrain(pc: Pc) {
    pc.Enter? || pc.WaitLock? || InLock(pc)
  }

  predicate InLock(pc: Pc) {
    pc.Draining? || pc.DrainReported? || pc.Closing? || pc.Swapping? || pc.Notifying?
  }

  predicate HasStaleCopy(pc: Pc) {
    || pc.Compared? || pc.WaitLock? || pc.Draining? || pc.Closing? || pc.Swapping? || pc.Notifying?
    || pc.PreemptCompare? || pc.PreemptNotify?
  }

  /** The place of the fence a thread is responsible for, 0 when there is none. */
  function HandFence(pc: Pc): nat {
    if pc.Called? || pc.Compared? || pc.Reported? || pc.DrainReported? then pc.fence else 0
  }

  function HandPlace(t: nat, pc: Pc): Place {
    if pc.Called? || pc.Compared? then Held(t) else Storing(t)
  }

  predicate HasRequest(pc: Pc) {
    pc.PreemptLoad? || pc.PreemptCompare? || pc.PreemptNotify? || pc.PreemptStore? || pc.Notifying?
  }

  /** The preemption request a thread is carrying and has not yet published or acknowledged. */
  function Carried(pc: Pc): nat {
    if HasRequest(pc) then pc.request
    else if InDrain(pc) && pc.cont.Preempt? then pc.cont.request
    else 0
  }

  /** Not panicked, and no fence or request named 0. */
  predicate Proper(pc: Pc) {
    && pc != Panicked
    && (pc.Called? || pc.Compared? || pc.Reported? || pc.DrainReported? ==> pc.fence != 0)
    && (HasRequest(pc) ==> pc.request != 0)
    && (pc.Notifying? ==> pc.cont == Return)
    && (InDrain(pc) && pc.cont.Preempt? ==> pc.cont.request != 0)
  }

  /** A thread that will look at the pending set again with an up-to-date `last`. */
  predicate WillDrain(pc: Pc, completed: nat) {
    pc.Enter? || ((pc.WaitLock? || pc.Draining?) && pc.last == completed)
  }

  /** A thread that will compare an up-to-date `last` with the last submission. */
  predicate WillClose(pc: Pc, completed: nat) {
    WillDrain(pc, completed) || ((pc.Closing? || pc.Swapping?) && pc.last == completed)
  }

  /** Reported fences are exactly 1, 2, 3, ...; `completed` lags by at most the one mid-store. */
  ghost predicate LogInv(g: Shared) {
    && (forall i | 0 <= i < |g.log| :: g.log[i] == i + 1)
    && g.completed <= |g.log| <= g.completed + 1
    && |g.log| <= g.submitted < FENCE_LIMIT
  }

  /** Requests are acknowledged in order, and at most one is waiting: published or carried. */
  ghost predicate RequestInv(g: Shared) {
    && |g.acks| <= |g.issued| <= |g.acks| + 1
    && (forall i | 0 <= i < |g.issued| :: g.issued[i] != 0)
    && (forall i | 0 <= i < |g.acks| :: g.acks[i].request == g.issued[i])
    && (|g.issued| == |g.acks| + 1 <==> g.preemption != 0 || g.carrier.Some?)
    && (g.preemption != 0 ==> g.carrier == None && g.preemption == g.issued[|g.acks|])
  }

  /** Fence `f` is in the one place the atomics and the pending set allow. */
  ghost predicate FenceOk(g: Shared, f: nat) {
    && (f in g.place <==> 1 <= f <= g.submitted)
    && (f in g.pending ==> f in g.place)
    && (f in g.place ==>
          && (g.place[f] == Done <==> f <= g.completed)
          && (g.place[f].Storing? <==> g.completed < f <= |g.log|)
          && (g.place[f] == Pending <==> f in g.pending))
  }

  /** A fence said to be in a thread's hands is. */
  ghost predicate HandOk(g: Shared, pcs: seq<Pc>, f: nat) {
    f in g.place && (g.place[f].Held? || g.place[f].Storing?) ==>
      var t := g.place[f].thread;
      t < |pcs| && HandFence(pcs[t]) == f && HandPlace(t, pcs[t]) == g.place[f]
  }

  /** Thread `t`'s copies, lock and fence fit the shared state. */
  ghost predicate ViewOk(g: Shared, t: nat, pc: Pc) {
    && (HasStaleCopy(pc) ==> pc.last <= g.completed)
    && (InLock(pc) <==> g.holder == Some(t))
    && (HandFence(pc) != 0 ==> HandFence(pc) in g.place && g.place[HandFence(pc)] == HandPlace(t, pc))
  }

  /** The request thread `t` carries, if any, is the one not yet answered. */
  ghost predicate CarryOk(g: Shared, t: nat, pc: Pc) {
    && (Carried(pc) != 0 <==> g.carrier == Some(t))
    && (Carried(pc) != 0 ==> |g.acks| < |g.issued| && Carried(pc) == g.issued[|g.acks|])
  }

  ghost predicate ThreadOk(g: Shared, t: nat, pc: Pc) {
    Proper(pc) && ViewOk(g, t, pc) && CarryOk(g, t, pc)
  }

  ghost predicate CoreInv(s: Engine) {
    && LogInv(s.shared)
    && RequestInv(s.shared)
    && (s.shared.holder.Some? ==> s.shared.holder.value < |s.pcs|)
    && (s.shared.carrier.Some? ==> s.shared.carrier.value < |s.pcs|)
    && (forall f :: FenceOk(s.shared, f))
    && (forall f :: HandOk(s.shared, s.pcs, f))
    && (forall t | 0 <= t < |s.pcs| :: ThreadOk(s.shared, t, s.pcs[t]))
  }

  /** A fence that is next in line, or a request nothing blocks, has a thread coming for it. */
  ghost predicate ProgressInv(s: Engine) {
    && (s.shared.completed + 1 in s.shared.pending ==>
          exists t :: 0 <= t < |s.pcs| && WillDrain(s.pcs[t], s.shared.completed))
    && (s.shared.preemption != 0 && s.shared.completed == s.shared.submitted ==>
          exists t :: 0 <= t < |s.pcs| && WillClose(s.pcs[t], s.shared.completed))
  }

  ghost predicate Inv(s: Engine) {
    CoreInv(s) && ProgressInv(s)
  }

  // ----- Each step keeps the invariant --------------------------------------------------------

  /** The fence an action moves from one place to another, 0 when it moves none. */
  function Subject(pc: Pc, act: Action): nat {
    match act
    case Complete(f) => f
    case PopFirst(f) => f
    case MissedFence(f) => f
    case _ => HandFence(pc)
  }

  /** Before the action: the mover and the fence it moves are as they should be. */
  ghost predicate MoverOk(g: Shared, t: nat, pc: Pc, act: Action) {
    LogInv(g) && RequestInv(g) && Can(g, pc, act) && !act.MissedFence? && ThreadOk(g, t, pc)
    && FenceOk(g, Subject(pc, act))
  }

  lemma StepLog(g: Shared, t: nat, pc: Pc, act: Action)
    requires MoverOk(g, t, pc, act)
    ensures LogInv(Effect(g, t, pc, act))
    ensures g.completed <= Effect(g, t, pc, act).completed
  {
  }

  lemma StepRequest(g: Shared, t: nat, pc: Pc, act: Action)
    requires MoverOk(g, t, pc, act)
    ensures RequestInv(Effect(g, t, pc, act))
  {
  }

  lemma StepFence(g: Shared, t: nat, pc: Pc, act: Action, f: nat)
    requires MoverOk(g, t, pc, act) && FenceOk(g, f)
    ensures FenceOk(Effect(g, t, pc, act), f)
  {
  }

  lemma MoverView(g: Shared, t: nat, pc: Pc, act: Action)
    requires Can(g, pc, act) && !act.MissedFence? && Proper(pc) && ViewOk(g, t, pc)
    ensures ViewOk(Effect(g, t, pc, act), t, NextPc(g, pc, act))
  {
  }

  /** Actions of the preemption protocol; the others leave requests alone. */
  predicate AboutRequests(act: Action) {
    || act.CloseFused? || act.SwapPreemption? || act.SendPreempted? || act.StartPreempt? || act.PreemptLoadCompleted?
    || act.PreemptLoadSubmitted? || act.PreemptFused? || act.PreemptSend? || act.PreemptPublish?
  }

  lemma FenceActCarry(g: Shared, t: nat, pc: Pc, act: Action)
    requires Can(g, pc, act) && !act.MissedFence? && !AboutRequests(act)
    requires Proper(pc) && CarryOk(g, t, pc) && FenceOk(g, Subject(pc, act))
    ensures Proper(NextPc(g, pc, act)) && CarryOk(Effect(g, t, pc, act), t, NextPc(g, pc, act))
  {
  }

  lemma RequestActCarry(g: Shared, t: nat, pc: Pc, act: Action)
    requires Can(g, pc, act) && AboutRequests(act) && Proper(pc) && CarryOk(g, t, pc) && RequestInv(g)
    ensures Proper(NextPc(g, pc, act)) && CarryOk(Effect(g, t, pc, act), t, NextPc(g, pc, act))
  {
  }

  lemma OtherView(g: Shared, t: nat, pc: Pc, act: Action, u: nat, other: Pc)
    requires Can(g, pc, act) && Proper(pc) && ViewOk(g, t, pc) && FenceOk(g, Subject(pc, act))
    requires u != t && ViewOk(g, u, other)
    ensures ViewOk(Effect(g, t, pc, act), u, other)
  {
  }

  lemma OtherCarry(g: Shared, t: nat, pc: Pc, act: Action, u: nat, other: Pc)
    requires Can(g, pc, act) && Proper(pc) && CarryOk(g, t, pc) && RequestInv(g)
    requires u != t && CarryOk(g, u, other)
    ensures CarryOk(Effect(g, t, pc, act), u, other)
  {
  }

  lemma StepHand(s: Engine, t: nat, act: Action, f: nat)
    requires t < |s.pcs| && Can(s.shared, s.pcs[t], act) && !act.MissedFence?
    requires Proper(s.pcs[t]) && ViewOk(s.shared, t, s.pcs[t]) && FenceOk(s.shared, Subject(s.pcs[t], act))
    requires FenceOk(s.shared, f) && HandOk(s.shared, s.pcs, f)
    ensures HandOk(Apply(s, By(t, act)).shared, Apply(s, By(t, act)).pcs, f)
  {
  }

  /** The panic the source wonders about: a pending fence is always beyond every local copy. */
  lemma MissedFenceUnreachable(s: Engine, t: nat, first: nat)
    requires CoreInv(s)
    ensures !Enabled(s, By(t, MissedFence(first)))
  {
    assert t < |s.pcs| ==> ThreadOk(s.shared, t, s.pcs[t]);
    assert FenceOk(s.shared, first);
  }

  lemma SubmitCore(s: Engine)
    requires CoreInv(s) && Enabled(s, Submit)
    ensures CoreInv(Apply(s, Submit))
  {
    var s' := Apply(s, Submit);
    assert FenceOk(s.shared, s'.shared.submitted);
    forall f: nat ensures FenceOk(s'.shared, f) && HandOk(s'.shared, s'.pcs, f) {
      assert FenceOk(s.shared, f) && HandOk(s.shared, s.pcs, f);
    }
    forall t: nat | t < |s'.pcs| ensures ThreadOk(s'.shared, t, s'.pcs[t]) {
      assert ThreadOk(s.shared, t, s.pcs[t]);
    }
  }

  lemma ActionCore(s: Engine, t: nat, act: Action)
    requires CoreInv(s) && t < |s.pcs| && MoverOk(s.shared, t, s.pcs[t], act)
    ensures CoreInv(Apply(s, By(t, act)))
  {
    var g, pc, s' := s.shared, s.pcs[t], Apply(s, By(t, act));
    StepLog(g, t, pc, act);
    StepRequest(g, t, pc, act);
    forall f: nat ensures FenceOk(s'.shared, f) && HandOk(s'.shared, s'.pcs, f) {
      StepFence(g, t, pc, act, f);
      StepHand(s, t, act, f);
    }
    MoverView(g, t, pc, act);
    if AboutRequests(act) {
      RequestActCarry(g, t, pc, act);
    } else {
      FenceActCarry(g, t, pc, act);
    }
    forall u: nat | u < |s'.pcs| ensures ThreadOk(s'.shared, u, s'.pcs[u]) {
      if u != t {
        OtherView(g, t, pc, act, u, s.pcs[u]);
        OtherCarry(g, t, pc, act, u, s.pcs[u]);
      }
    }
  }

  lemma StepCore(s: Engine, step: Step)
    requires CoreInv(s) && Enabled(s, step)
    ensures CoreInv(Apply(s, step))
    ensures step.By? ==> MoverOk(s.shared, step.t, s.pcs[step.t], step.act)
  {
    if step.Submit? {
      SubmitCore(s);
    } else {
      if step.act.MissedFence? {
        MissedFenceUnreachable(s, step.t, step.act.first);
      }
      assert ThreadOk(s.shared, step.t, s.pcs[step.t]);
      assert FenceOk(s.shared, Subject(s.pcs[step.t], step.act));
      ActionCore(s, step.t, step.act);
    }
  }

  /** The thread coming for the next fence stays on its way until it has taken it. */
  lemma MoverDrains(g: Shared, t: nat, pc: Pc, act: Action)
    requires MoverOk(g, t, pc, act)
    requires Effect(g, t, pc, act).completed + 1 in Effect(g, t, pc, act).pending
    requires g.completed + 1 in g.pending && g.completed == Effect(g, t, pc, act).completed ==>
               WillDrain(pc, g.completed)
    ensures WillDrain(NextPc(g, pc, act), Effect(g, t, pc, act).completed)
  {
  }

  /** Likewise for a published request once every submitted fence has completed. */
  lemma MoverCloses(g: Shared, t: nat, pc: Pc, act: Action)
    requires MoverOk(g, t, pc, act)
    requires Effect(g, t, pc, act).preemption != 0
    requires Effect(g, t, pc, act).completed == g.submitted
    requires g.preemption != 0 && g.completed == g.submitted ==> WillClose(pc, g.completed)
    requires forall f | f in g.pending :: FenceOk(g, f)
    ensures WillClose(NextPc(g, pc, act), Effect(g, t, pc, act).completed)
  {
  }

  lemma ActionProgress(s: Engine, t: nat, act: Action)
    requires Inv(s) && t < |s.pcs| && MoverOk(s.shared, t, s.pcs[t], act)
    ensures ProgressInv(Apply(s, By(t, act)))
  {
    var g, pc, s' := s.shared, s.pcs[t], Apply(s, By(t, act));
    var g' := s'.shared;
    if g'.completed + 1 in g'.pending {
      if u :| 0 <= u < |s.pcs| && u != t && WillDrain(s.pcs[u], g'.completed) {
        assert WillDrain(s'.pcs[u], g'.completed);
      } else {
        MoverDrains(g, t, pc, act);
        assert WillDrain(s'.pcs[t], g'.completed);
      }
    }
    if g'.preemption != 0 && g'.completed == g'.submitted {
      if u :| 0 <= u < |s.pcs| && u != t && WillClose(s.pcs[u], g'.completed) {
        assert WillClose(s'.pcs[u], g'.completed);
      } else {
        MoverCloses(g, t, pc, act);
        assert WillClose(s'.pcs[t], g'.completed);
      }
    }
  }

  lemma StepInv(s: Engine, step: Step)
    requires Inv(s) && Enabled(s, step)
    ensures Inv(Apply(s, step))
  {
    StepCore(s, step);
    if step.By? {
      ActionProgress(s, step.t, step.act);
    }
  }

  lemma InitInv(threads: nat)
    ensures Inv(Init(threads))
  {
  }

  lemma {:induction false} RunInv(s: Engine, steps: seq<Step>, s': Engine)
    requires Inv(s) && Run(s, steps, s')
    ensures Inv(s')
    decreases |steps|
  {
    if steps != [] {
      StepInv(s, steps[0]);
      RunInv(Apply(s, steps[0]), steps[1..], s');
    }
  }

  // ----- What holds over whole runs -----------------------------------------------------------

  /** Submitted, and its completion call has not been made yet. */
  predicate IsOutstanding(s: Engine, f: nat) {
    f in s.shared.place && s.shared.place[f] == Outstanding
  }

  /** Only its completion call takes a fence out of the outstanding ones. */
  lemma OutstandingKept(s: Engine, t: nat, act: Action, f: nat)
    requires Inv(s) && Enabled(s, By(t, act))
    ensures IsOutstanding(Apply(s, By(t, act)), f) <==> IsOutstanding(s, f) && act != Complete(f)
    ensures Apply(s, By(t, act)).shared.submitted == s.shared.submitted
  {
    StepCore(s, By(t, act));
  }

  lemma SubmitOutstanding(s: Engine, f: nat)
    requires Inv(s) && Enabled(s, Submit)
    ensures IsOutstanding(Apply(s, Submit), f) <==> IsOutstanding(s, f) || f == s.shared.submitted + 1
  {
  }

  predicate AllIdle(s: Engine) {
    forall t | 0 <= t < |s.pcs| :: s.pcs[t] == Idle
  }

  lemma ReachableInv(threads: nat, s: Engine)
    requires Reachable(threads, s)
    ensures Inv(s)
  {
    var steps :| Run(Init(threads), steps, s);
    InitInv(threads);
    RunInv(Init(threads), steps, s);
  }

  /** The fences reported are 1, 2, 3, ... with no gap or repeat, and no thread ever panics. */
  lemma FencesReportedInOrder(threads: nat, s: Engine)
    requires Reachable(threads, s)
    ensures forall i | 0 <= i < |s.shared.log| :: s.shared.log[i] == i + 1
    ensures |s.shared.log| <= s.shared.submitted
    ensures s.shared.completed <= |s.shared.log| <= s.shared.completed + 1
    ensures forall t | 0 <= t < |s.pcs| :: s.pcs[t] != Panicked
  {
    ReachableInv(threads, s);
    forall t: nat | t < |s.pcs| ensures s.pcs[t] != Panicked {
      assert ThreadOk(s.shared, t, s.pcs[t]);
    }
  }

  /** With no thread mid-call, nothing that could be reported is left waiting. */
  lemma QuietMeansDrained(threads: nat, s: Engine)
    requires Reachable(threads, s) && AllIdle(s)
    ensures |s.shared.log| == s.shared.completed
    ensures s.shared.completed + 1 !in s.shared.pending
    ensures s.shared.completed == s.shared.submitted || IsOutstanding(s, s.shared.completed + 1)
  {
    ReachableInv(threads, s);
    var next := s.shared.completed + 1;
    assert FenceOk(s.shared, next) && HandOk(s.shared, s.pcs, next);
  }

  /** Once every submitted fence has had its completion call, every one has been reported. */
  lemma AllCompletedAllReported(threads: nat, s: Engine)
    requires Reachable(threads, s) && AllIdle(s)
    requires forall f :: !IsOutstanding(s, f)
    ensures s.shared.completed == s.shared.submitted == |s.shared.log| && s.shared.pending == {}
  {
    ReachableInv(threads, s);
    QuietMeansDrained(threads, s);
    assert FenceOk(s.shared, s.shared.completed + 1);
    assert forall f | f in s.shared.pending :: FenceOk(s.shared, f);
  }

  /** Acknowledgements answer the requests one by one, in order. */
  lemma RequestsAnsweredOnce(threads: nat, s: Engine)
    requires Reachable(threads, s)
    ensures |s.shared.acks| <= |s.shared.issued| <= |s.shared.acks| + 1
    ensures forall i | 0 <= i < |s.shared.acks| :: s.shared.acks[i].request == s.shared.issued[i]
  {
    ReachableInv(threads, s);
  }

  /** A request is never lost: with no thread mid-call it waits only while a fence is outstanding. */
  lemma RequestNotLost(threads: nat, s: Engine)
    requires Reachable(threads, s) && AllIdle(s)
    ensures |s.shared.acks| < |s.shared.issued| ==>
              && s.shared.preemption == s.shared.issued[|s.shared.acks|]
              && s.shared.completed < s.shared.submitted
              && IsOutstanding(s, s.shared.completed + 1)
  {
    ReachableInv(threads, s);
    QuietMeansDrained(threads, s);
    assert s.shared.carrier.Some? ==>
        ThreadOk(s.shared, s.shared.carrier.value, s.pcs[s.shared.carrier.value]);
    assert FenceOk(s.shared, s.shared.completed + 1);
  }

  predicate Accurate(a: Ack) {
    a.lastCompleted == a.submitted
  }

  /** Steps that leave a gap between comparing with the last submission and notifying. */
  predicate OpensGap(step: Step) {
    step.By? && (step.act == CheckSubmitted || step.act == PreemptLoadSubmitted)
  }

  predicate InGap(pc: Pc) {
    pc.Swapping? || pc.Notifying? || pc.PreemptNotify?
  }

  /**
   With comparison, swap and notification one step on closing, and comparison and notification one
   step in the caller, every acknowledgement is accurate.
   */
  lemma {:induction false} FusedRunsAccurate(s: Engine, steps: seq<Step>, s': Engine)
    requires Run(s, steps, s')
    requires forall step | step in steps :: !OpensGap(step)
    requires forall t | 0 <= t < |s.pcs| :: !InGap(s.pcs[t])
    requires forall a | a in s.shared.acks :: Accurate(a)
    ensures forall a | a in s'.shared.acks :: Accurate(a)
    decreases |steps|
  {
    if steps != [] {
      assert steps[0] in steps;
      FusedRunsAccurate(Apply(s, steps[0]), steps[1..], s');
    }
  }

  /** An accurate acknowledgement means that every submitted fence had been reported. */
  lemma AccurateMeansComplete(s: Engine, t: nat, act: Action)
    requires Inv(s) && Enabled(s, By(t, act))
    requires |s.shared.acks| < |Apply(s, By(t, act)).shared.acks|
    ensures var a := Apply(s, By(t, act)).shared.acks[|s.shared.acks|];
            Accurate(a) ==> a.lastCompleted == s.shared.completed == s.shared.submitted == |s.shared.log|
  {
    assert ThreadOk(s.shared, t, s.pcs[t]);
  }

  /** No step in `steps` is thread `t`'s. */
  predicate ByOthers(steps: seq<Step>, t: nat) {
    forall step | step in steps && step.By? :: step.t != t
  }

  lemma {:induction false} RunBetween(s: Engine, steps: seq<Step>, s': Engine, t: nat)
    requires Run(s, steps, s') && t < |s.pcs|
    requires ByOthers(steps, t)
    ensures t < |s'.pcs| && s'.pcs[t] == s.pcs[t]
    ensures s.shared.submitted <= s'.shared.submitted
    ensures s.shared.submitted == s'.shared.submitted <==> Submit !in steps
    decreases |steps|
  {
    if steps != [] {
      assert steps[0] in steps;
      RunBetween(Apply(s, steps[0]), steps[1..], s', t);
    }
  }

  /**
   As written, the closing comparison, the swap and the notification are three accesses.  The
   acknowledgement is accurate exactly when no fence is submitted between the first and the last.
   */
  lemma SplitCloseAccuracy(s: Engine, t: nat, beforeSwap: seq<Step>, s1: Engine, beforeSend: seq<Step>, s2: Engine)
    requires Enabled(s, By(t, CheckSubmitted)) && s.pcs[t].last == s.shared.submitted
    requires Run(Apply(s, By(t, CheckSubmitted)), beforeSwap, s1) && ByOthers(beforeSwap, t)
    requires s1.shared.preemption != 0
    requires Enabled(s1, By(t, SwapPreemption))
    requires Run(Apply(s1, By(t, SwapPreemption)), beforeSend, s2) && ByOthers(beforeSend, t)
    ensures Enabled(s2, By(t, SendPreempted))
    ensures var acks := Apply(s2, By(t, SendPreempted)).shared.acks;
            && |acks| == |s2.shared.acks| + 1
            && acks[|s2.shared.acks|].request == s1.shared.preemption
            && (Accurate(acks[|s2.shared.acks|]) <==> Submit !in beforeSwap && Submit !in beforeSend)
  {
    RunBetween(Apply(s, By(t, CheckSubmitted)), beforeSwap, s1, t);
    RunBetween(Apply(s1, By(t, SwapPreemption)), beforeSend, s2, t);
  }

  /** The caller's own comparison and notification are two accesses as well, with the same condition. */
  lemma SplitPreemptAccuracy(s: Engine, t: nat, beforeSend: seq<Step>, s1: Engine)
    requires Enabled(s, By(t, PreemptLoadSubmitted)) && s.pcs[t].last == s.shared.submitted
    requires Run(Apply(s, By(t, PreemptLoadSubmitted)), beforeSend, s1) && ByOthers(beforeSend, t)
    ensures Enabled(s1, By(t, PreemptSend))
    ensures var acks := Apply(s1, By(t, PreemptSend)).shared.acks;
            && |acks| == |s1.shared.acks| + 1
            && acks[|s1.shared.acks|].request == s.pcs[t].request
            && (Accurate(acks[|s1.shared.acks|]) <==> Submit !in beforeSend)
  {
    RunBetween(Apply(s, By(t, PreemptLoadSubmitted)), beforeSend, s1, t);
  }

  // ----- Every acknowledgement of every run ----------------------------------------------------

  /** Thread `t` loads the last submission and compares. */
  predicate Compares(step: Step, t: nat) {
    && step.By? && step.t == t
    && (step.act.CheckSubmitted? || step.act.PreemptLoadSubmitted? || step.act.CloseFused? || step.act.PreemptFused?)
  }

  /** The state before the last step of a run. */
  lemma {:induction false} RunLast(s: Engine, steps: seq<Step>, s': Engine) returns (mid: Engine)
    requires Run(s, steps, s') && steps != []
    ensures Run(s, steps[..|steps| - 1], mid) && Enabled(mid, steps[|steps| - 1])
    ensures s' == Apply(mid, steps[|steps| - 1]) && |mid.pcs| == |s.pcs|
    decreases |steps|
  {
    var n := |steps| - 1;
    if n == 0 {
      mid := s;
    } else {
      mid := RunLast(Apply(s, steps[0]), steps[1..], s');
      assert steps[..n][1..] == steps[1..][..n - 1];
    }
  }

  /** Only a comparison that finds `last` equal to the last submission leads towards the interrupt. */
  lemma GapEntered(s: Engine, step: Step, t: nat)
    requires Enabled(s, step) && t < |s.pcs| && InGap(Apply(s, step).pcs[t])
    ensures Compares(step, t) ==> Apply(s, step).pcs[t].last == s.shared.submitted
    ensures !Compares(step, t) ==> InGap(s.pcs[t]) && s.pcs[t].last == Apply(s, step).pcs[t].last
  {
  }

  /** Whether something is submitted from step `k` on, seen from the end of the run. */
  predicate Quiet(steps: seq<Step>, k: nat) {
    forall i | k <= i < |steps| :: steps[i] != Submit
  }

  /**
   A thread on its way to the interrupt last compared at step `k`, in state `m`, and what it found
   submitted there is what it will say.  Nothing was submitted since exactly when that is still the
   last submission.
   */
  lemma {:induction false} LastComparison(s: Engine, steps: seq<Step>, s': Engine, t: nat) returns (k: nat, m: Engine)
    requires Run(s, steps, s') && t < |s.pcs| == |s'.pcs| && !InGap(s.pcs[t]) && InGap(s'.pcs[t])
    ensures k < |steps| && Compares(steps[k], t) && Run(s, steps[..k], m)
    ensures forall i | k < i < |steps| :: !Compares(steps[i], t)
    ensures m.shared.submitted == s'.pcs[t].last <= s'.shared.submitted
    ensures m.shared.submitted == s'.shared.submitted <==> Quiet(steps, k)
    decreases |steps|
  {
    var n := |steps| - 1;
    var mid := RunLast(s, steps, s');
    GapEntered(mid, steps[n], t);
    if Compares(steps[n], t) {
      k, m := n, mid;
    } else {
      k, m := LastComparison(s, steps[..n], mid, t);
      assert steps[..n][..k] == steps[..k];
      assert forall i | 0 <= i < n :: steps[..n][i] == steps[i];
    }
  }

  /**
   Step `n` of the run, which thread `t` takes in state `m'`, sends acknowledgement `i`; that thread
   last compared at step `k`, in state `m`.
   */
  predicate Sends(s: Engine, steps: seq<Step>, i: nat, t: nat, k: nat, m: Engine, n: nat, m': Engine) {
    && k <= n < |steps| && Compares(steps[k], t) && (forall j | k < j <= n :: !Compares(steps[j], t))
    && Run(s, steps[..k], m) && Run(s, steps[..n], m')
    && steps[n].By? && steps[n].t == t && Enabled(m', steps[n])
    && |m'.shared.acks| == i && |Apply(m', steps[n]).shared.acks| == i + 1
  }

  /** What a step that sends an acknowledgement says. */
  lemma AckSays(s: Engine, step: Step)
    requires Enabled(s, step) && |Apply(s, step).shared.acks| > |s.shared.acks|
    ensures step.By? && |Apply(s, step).shared.acks| == |s.shared.acks| + 1
    ensures var a := Apply(s, step).shared.acks[|s.shared.acks|];
            && a.submitted == s.shared.submitted
            && if Compares(step, step.t) then a.lastCompleted == s.shared.submitted
               else InGap(s.pcs[step.t]) && a.lastCompleted == s.pcs[step.t].last
  {
  }

  /** The step that sends an acknowledgement, and the comparison it rests on. */
  lemma SentNow(threads: nat, steps: seq<Step>, mid: Engine, s: Engine) returns (t: nat, k: nat, m: Engine)
    requires steps != [] && Run(Init(threads), steps[..|steps| - 1], mid) && Enabled(mid, steps[|steps| - 1])
    requires s == Apply(mid, steps[|steps| - 1]) && |s.shared.acks| > |mid.shared.acks| && |mid.pcs| == threads
    ensures var i, n := |mid.shared.acks|, |steps| - 1;
            && Sends(Init(threads), steps, i, t, k, m, n, mid)
            && s.shared.acks[i].lastCompleted == m.shared.submitted
            && (Accurate(s.shared.acks[i]) <==> Quiet(steps[..n], k))
  {
    var n := |steps| - 1;
    AckSays(mid, steps[n]);
    t := steps[n].t;
    if Compares(steps[n], t) {
      k, m := n, mid;
    } else {
      k, m := LastComparison(Init(threads), steps[..n], mid, t);
      assert steps[..n][..k] == steps[..k];
      assert forall j | 0 <= j < n :: steps[..n][j] == steps[j];
    }
  }

  lemma AcksGrow(s: Engine, step: Step)
    requires Enabled(s, step)
    ensures s.shared.acks <= Apply(s, step).shared.acks
  {
  }

  /**
   On every run, each acknowledgement says what its thread found submitted when it last compared, and
   it is accurate exactly when no fence is submitted between that comparison and the interrupt.
   */
  lemma {:induction false} EveryAcknowledgement(threads: nat, steps: seq<Step>, s: Engine, i: nat)
    returns (t: nat, k: nat, m: Engine, n: nat, m': Engine)
    requires Run(Init(threads), steps, s) && i < |s.shared.acks|
    ensures Sends(Init(threads), steps, i, t, k, m, n, m')
    ensures s.shared.acks[i].lastCompleted == m.shared.submitted
    ensures Accurate(s.shared.acks[i]) <==> Quiet(steps[..n], k)
    decreases |steps|
  {
    n := |steps| - 1;
    var mid := RunLast(Init(threads), steps, s);
    AcksGrow(mid, steps[n]);
    if i < |mid.shared.acks| {
      var shorter := steps[..n];
      t, k, m, n, m' := EveryAcknowledgement(threads, shorter, mid, i);
      assert shorter[..k] == steps[..k] && shorter[..n] == steps[..n];
      assert forall j | 0 <= j < |shorter| :: shorter[j] == steps[j];
    } else {
      t, k, m := SentNow(threads, steps, mid, s);
      m' := mid;
    }
  }

  lemma {:induction false} RunSnoc(s: Engine, steps: seq<Step>, s': Engine, last: Step)
    requires Run(s, steps, s') && Enabled(s', last)
    ensures Run(s, steps + [last], Apply(s', last))
    decreases |steps|
  {
    if steps == [] {
      assert [last][1..] == [];
    } else {
      assert (steps + [last])[1..] == steps[1..] + [last];
      RunSnoc(Apply(s, steps[0]), steps[1..], s', last);
    }
  }

  lemma ReachableStep(threads: nat, s: Engine, step: Step, s': Engine)
    requires Reachable(threads, s) && Enabled(s, step) && s' == Apply(s, step)
    ensures Reachable(threads, s')
  {
    var steps :| Run(Init(threads), steps, s);
    RunSnoc(Init(threads), steps, s, step);
  }

  /** A thread that finds nothing pending gets as far as the closing comparison. */
  lemma DrainNothing(threads: nat, g: Shared, pcs: seq<Pc>, t: nat, cont: Continuation)
    requires t < |pcs| && g.holder == None && g.pending == {}
    requires Reachable(threads, Engine(g, pcs[t := Enter(cont)]))
    ensures Reachable(threads, Engine(g.(holder := Some(t)), pcs[t := Closing(g.completed, cont)]))
  {
    var s1 := Engine(g, pcs[t := Enter(cont)]);
    var s2 := Engine(g, pcs[t := WaitLock(g.completed, cont)]);
    var s3 := Engine(g.(holder := Some(t)), pcs[t := Draining(g.completed, cont)]);
    var s4 := Engine(g.(holder := Some(t)), pcs[t := Closing(g.completed, cont)]);
    ReachableStep(threads, s1, By(t, LoadForDrain), s2);
    ReachableStep(threads, s2, By(t, Lock), s3);
    ReachableStep(threads, s3, By(t, StopDrain), s4);
  }

  /** With nothing published, closing as written gives the lock back and goes on. */
  lemma CloseNothing(threads: nat, g: Shared, pcs: seq<Pc>, t: nat, cont: Continuation)
    requires t < |pcs| && g.preemption == 0 && g.holder == Some(t) && g.completed == g.submitted
    requires Reachable(threads, Engine(g, pcs[t := Closing(g.completed, cont)]))
    ensures Reachable(threads, Engine(g.(holder := None), pcs[t := Resume(cont)]))
  {
    var s1 := Engine(g, pcs[t := Closing(g.completed, cont)]);
    var s2 := Engine(g, pcs[t := Swapping(g.completed, cont)]);
    ReachableStep(threads, s1, By(t, CheckSubmitted), s2);
    ReachableStep(threads, s2, By(t, SwapPreemption), Engine(g.(holder := None), pcs[t := Resume(cont)]));
  }

  /** Thread `t` of an idle engine has taken request 7 and drained once. */
  lemma RequestTaken(threads: nat, t: nat)
    requires t < threads
    ensures Reachable(threads, Engine(Init(threads).shared.(issued := [7], carrier := Some(t)),
                                      Init(threads).pcs[t := PreemptLoad(7)]))
  {
    var s0 := Init(threads);
    assert Run(s0, [], s0);
    var g := s0.shared.(issued := [7], carrier := Some(t));
    ReachableStep(threads, s0, By(t, StartPreempt(7)), Engine(g, s0.pcs[t := Enter(Preempt(7))]));
    DrainNothing(threads, g, s0.pcs, t, Preempt(7));
    CloseNothing(threads, g.(holder := Some(t)), s0.pcs, t, Preempt(7));
    assert g.(holder := Some(t)).(holder := None) == g;
  }

  /** Thread 1 has taken request 7 and drained once; thread 0 is about to compare. */
  lemma BeforeTheRace()
    ensures Reachable(2, Engine(Shared(0, 0, 0, {}, Some(0), map[], [], [7], Some(1), []),
                                [Closing(0, Return), PreemptLoad(7)]))
  {
    RequestTaken(2, 1);
    var g := Shared(0, 0, 0, {}, None, map[], [], [7], Some(1), []);
    assert Init(2).pcs[1 := PreemptLoad(7)] == [Idle, PreemptLoad(7)];
    ReachableStep(2, Engine(g, [Idle, PreemptLoad(7)]), By(0, StartDrain), Engine(g, [Enter(Return), PreemptLoad(7)]));
    var pcs := [Enter(Return), PreemptLoad(7)];
    assert pcs[0 := Enter(Return)] == pcs && pcs[0 := Closing(0, Return)] == [Closing(0, Return), PreemptLoad(7)];
    DrainNothing(2, g, pcs, 0, Return);
  }

  /** A fence is submitted and request 7 published while thread 0 is between comparing and swapping. */
  lemma InTheRace()
    ensures Reachable(2, Engine(Shared(1, 0, 7, {}, Some(0), map[1 := Outstanding], [], [7], None, []),
                                [Swapping(0, Return), Enter(Return)]))
  {
    BeforeTheRace();
    var g0 := Shared(0, 0, 0, {}, Some(0), map[], [], [7], Some(1), []);
    var s0 := Engine(g0, [Closing(0, Return), PreemptLoad(7)]);
    var s1 := Engine(g0, [Swapping(0, Return), PreemptLoad(7)]);
    ReachableStep(2, s0, By(0, CheckSubmitted), s1);
    var g2 := g0.(submitted := 1, place := map[1 := Outstanding]);
    var s2 := Engine(g2, [Swapping(0, Return), PreemptLoad(7)]);
    ReachableStep(2, s1, Submit, s2);
    var s3 := Engine(g2, [Swapping(0, Return), PreemptCompare(7, 0)]);
    ReachableStep(2, s2, By(1, PreemptLoadCompleted), s3);
    var s4 := Engine(g2, [Swapping(0, Return), PreemptStore(7)]);
    ReachableStep(2, s3, By(1, PreemptLoadSubmitted), s4);
    ReachableStep(2, s4, By(1, PreemptPublish),
                  Engine(g2.(preemption := 7, carrier := None), [Swapping(0, Return), Enter(Return)]));
  }

  /**
   A reachable state of two threads in which a preemption has been acknowledged while a submitted
   fence is outstanding: the second thread published its request after the first had compared and
   before it swapped.
   */
  lemma PrematureAcknowledgement() returns (s: Engine)
    ensures Reachable(2, s)
    ensures s.shared.acks == [Ack(7, 0, 1)] && !Accurate(s.shared.acks[0])
    ensures IsOutstanding(s, 1)
  {
    InTheRace();
    var g0 := Shared(1, 0, 7, {}, Some(0), map[1 := Outstanding], [], [7], None, []);
    var g1 := g0.(preemption := 0, carrier := Some(0));
    var s1 := Engine(g1, [Notifying(7, 0, Return), Enter(Return)]);
    ReachableStep(2, Engine(g0, [Swapping(0, Return), Enter(Return)]), By(0, SwapPreemption), s1);
    s := Engine(g1.(holder := None, carrier := None, acks := [Ack(7, 0, 1)]), [Idle, Enter(Return)]);
    ReachableStep(2, s1, By(0, SendPreempted), s);
  }

  /** Thread 0 of an idle engine has compared and is about to notify. */
  lemma BeforeDirectNotification()
    ensures Reachable(1, Engine(Shared(0, 0, 0, {}, None, map[], [], [7], Some(0), []), [PreemptNotify(7, 0)]))
  {
    RequestTaken(1, 0);
    assert Init(1).pcs[0 := PreemptLoad(7)] == [PreemptLoad(7)];
    var g := Shared(0, 0, 0, {}, None, map[], [], [7], Some(0), []);
    var s1, s2, s3 := Engine(g, [PreemptLoad(7)]), Engine(g, [PreemptCompare(7, 0)]), Engine(g, [PreemptNotify(7, 0)]);
    ReachableStep(1, s1, By(0, PreemptLoadCompleted), s2);
    ReachableStep(1, s2, By(0, PreemptLoadSubmitted), s3);
  }

  /** One thread is enough: a fence submitted between the caller's own comparison and notification. */
  lemma PrematureDirectly() returns (s: Engine)
    ensures Reachable(1, s)
    ensures s.shared.acks == [Ack(7, 0, 1)] && !Accurate(s.shared.acks[0])
    ensures IsOutstanding(s, 1)
  {
    BeforeDirectNotification();
    var g := Shared(0, 0, 0, {}, None, map[], [], [7], Some(0), []);
    var g1 := g.(submitted := 1, place := map[1 := Outstanding]);
    var s1 := Engine(g1, [PreemptNotify(7, 0)]);
    ReachableStep(1, Engine(g, [PreemptNotify(7, 0)]), Submit, s1);
    s := Engine(g1.(carrier := None, acks := [Ack(7, 0, 1)]), [Idle]);
    ReachableStep(1, s1, By(0, PreemptSend), s);
  }
}
