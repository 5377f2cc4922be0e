/**
 The interrupt protocol on the virtqueue's own fields: the handler pops through the queue, which
 stores `used_event`, and the device decides on interrupts from what it reads there.  Popping and
 looking again are `Peek` and `Store` of `Interrupts`.
 */
module QueueInterrupts {
  import opened RingIndices
  import opened VirtqueueSpec
  import I = Interrupts
  import V = VirtqueueRuns

  datatype State = State(
    sys: V.System,
    decided: nat,       // used entries covered by the device's last decision to interrupt
    waiting: bool,      // the handler found nothing and waits
    interrupted: bool)  // an interrupt is on its way

  datatype Step =
    | Move(step: V.Step)   // an add, or the device taking or returning a chain
    | Pop(j: nat)          // the handler pops the next used entry
    | Rest                 // the handler finds none and waits
    | Decide               // the device interrupts or not
    | Wake                 // an interrupt arrives

  function Init(size: nat, indirect: bool): State {
    State(V.Init(size, indirect, true), 0, false, false)
  }

  predicate Enabled(s: State, step: Step) {
    match step
    case Move(d) =>
      && !d.Pop? && V.Enabled(s.sys, d)
      && (d.Return? ==> s.sys.returned + 1 < s.decided + IDX_MODULUS)
    case Pop(j) => !s.waiting && V.Enabled(s.sys, V.Pop(j))
    case Rest => !s.waiting && !CanPop(s.sys.q, s.sys.used)
    case Decide => true
    case Wake => s.waiting && s.interrupted
  }

  /** What section 2.6.7 of VirtIO v1.1 demands of the device, from the fields the two share. */
  predicate DeviceInterrupts(s: State) {
    NeedEvent(s.sys.q.usedEvent, s.sys.used.idx, Cut(s.decided))
  }

  function Apply(s: State, step: Step): State
    requires Enabled(s, step)
  {
    match step
    case Move(d) => s.(sys := V.Apply(s.sys, d))
    case Pop(j) => s.(sys := V.Apply(s.sys, V.Pop(j)))
    case Rest => s.(waiting := true)
    case Decide => s.(interrupted := s.interrupted || DeviceInterrupts(s), decided := s.sys.returned)
    case Wake => s.(waiting := false, interrupted := false)
  }

  predicate Run(s: State, steps: seq<Step>, s': State)
    decreases |steps|
  {
    if steps == [] then s == s'
    else Enabled(s, steps[0]) && Run(Apply(s, steps[0]), steps[1..], s')
  }

  ghost predicate Reachable(s: State) {
    exists size, indirect, steps :: IsQueueSize(size) && Run(Init(size, indirect), steps, s)
  }

  // ----- The protocol seen in the queue -------------------------------------------------------

  function View(s: State): I.State {
    I.State(s.sys.q.size, s.sys.returned, s.sys.popped, s.decided, s.sys.q.usedEvent,
    if s.waiting then I.Waiting else I.Peeking, s.interrupted)
  }

  ghost predicate Inv(s: State) {
    V.Inv(s.sys) && s.sys.q.eventIdx && I.Inv(View(s))
  }

  /** Popping through the queue and storing `used_event` is `Peek` and then `Store`. */
  lemma PopIsPeekAndStore(s: State, j: nat)
    requires Inv(s) && Enabled(s, Pop(j))
    ensures I.Enabled(View(s), I.Peek) && I.Enabled(I.Apply(View(s), I.Peek), I.Store)
    ensures View(Apply(s, Pop(j))) == I.Apply(I.Apply(View(s), I.Peek), I.Store)
  {
    CutSucc(s.sys.popped);
  }

  /** Finding nothing to pop is `Peek` as well. */
  lemma RestIsPeek(s: State)
    requires Inv(s) && Enabled(s, Rest)
    ensures I.Enabled(View(s), I.Peek) && View(Apply(s, Rest)) == I.Apply(View(s), I.Peek)
  {
  }

  lemma ReturnIsReturn(s: State, d: V.Step)
    requires Inv(s) && Enabled(s, Move(d)) && d.Return?
    ensures I.Enabled(View(s), I.Return) && View(Apply(s, Move(d))) == I.Apply(View(s), I.Return)
  {
    V.Occupancy(s.sys);
    assert |s.sys.holding| > 0;
  }

  lemma DecideIsDecide(s: State)
    requires Inv(s)
    ensures DeviceInterrupts(s) <==> I.DeviceInterrupts(View(s))
    ensures View(Apply(s, Decide)) == I.Apply(View(s), I.Decide)
  {
  }

  lemma MoveInv(s: State, d: V.Step)
    requires Inv(s) && Enabled(s, Move(d))
    ensures Inv(Apply(s, Move(d)))
  {
    V.StepInv(s.sys, d);
    if d.Return? {
      ReturnIsReturn(s, d);
      I.StepInv(View(s), I.Return);
    }
  }

  lemma PopInv(s: State, j: nat)
    requires Inv(s) && Enabled(s, Pop(j))
    ensures Inv(Apply(s, Pop(j)))
  {
    V.StepInv(s.sys, V.Pop(j));
    PopIsPeekAndStore(s, j);
    I.StepInv(View(s), I.Peek);
    I.StepInv(I.Apply(View(s), I.Peek), I.Store);
  }

  lemma StepInv(s: State, step: Step)
    requires Inv(s) && Enabled(s, step)
    ensures Inv(Apply(s, step))
  {
    match step
    case Move(d) => MoveInv(s, d);
    case Pop(j) => PopInv(s, j);
    case Rest =>
      RestIsPeek(s);
      I.StepInv(View(s), I.Peek);
    case Decide =>
      DecideIsDecide(s);
      I.StepInv(View(s), I.Decide);
    case Wake => I.StepInv(View(s), I.Wake);
  }

  lemma {:induction false} RunInv(s: State, steps: seq<Step>, s': State)
    requires Inv(s) && Run(s, steps, s')
    ensures Inv(s')
    decreases |steps|
  {
    if steps != [] {
      StepInv(s, steps[0]);
      RunInv(Apply(s, steps[0]), steps[1..], s');
    }
  }

  /**
   The handler never waits while the queue's `can_pop` holds, unless an interrupt is sent or the
   `used_event` the queue has stored makes the device send one.
   */
  lemma NoLostInterrupt(s: State)
    requires Reachable(s) && s.waiting && CanPop(s.sys.q, s.sys.used)
    ensures s.interrupted || (s.decided < s.sys.returned && DeviceInterrupts(s))
  {
    var size, indirect, steps :| IsQueueSize(size) && Run(Init(size, indirect), steps, s);
    V.InitInv(size, indirect, true);
    RunInv(Init(size, indirect), steps, s);
    V.CanPopExactly(s.sys);
    if s.decided <= s.sys.popped {
      EventPassed(s.sys.popped, s.sys.returned, s.decided);
    }
  }
}

/**
 The notification protocol on the virtqueue's own fields: after each add the driver decides from the
 index it has stored and what the device has published beside the used ring.
 */
module QueueKicks {
  import opened RingIndices
  import opened VirtqueueSpec
  import K = Kicks
  import V = VirtqueueRuns

  datatype State = State(sys: V.System, driver: K.Driver, device: K.Device, kicked: bool)

  datatype Step =
    | Add(bufs: seq<Buffer>)             // driver: add a chain
    | Decide                             // driver: notify or not
    | Take                               // device: take the next available entry
    | Other(step: V.Step)                // device: return a chain; driver: pop one
    | Scribble(flags: nat, event: nat)   // device: while running, publish any wish
    | Arm                                // device: ask to be woken for the next entry
    | Recheck                            // device: look again, then sleep or go on
    | Wake                               // device: a notification arrives

  function Init(size: nat, indirect: bool, eventIdx: bool): State {
    State(V.Init(size, indirect, eventIdx), K.Idle, K.Running, false)
  }

  predicate Enabled(s: State, step: Step) {
    match step
    case Add(bufs) => s.driver.Idle? && V.Enabled(s.sys, V.Add(bufs))
    case Decide => s.driver.Deciding?
    case Take => s.device.Running? && V.Enabled(s.sys, V.Take)
    case Other(d) => (d.Return? || d.Pop?) && V.Enabled(s.sys, d)
    case Scribble(_, _) => s.device.Running?
    case Arm => s.device.Running?
    case Recheck => s.device.Rechecking?
    case Wake => s.kicked
  }

  predicate DriverNotifies(sys: V.System) {
    ShouldNotify(sys.q.eventIdx, sys.q.availIdx, sys.used.flags, sys.used.availEvent)
  }

  function Wishes(sys: V.System, flags: nat, event: nat): V.System {
    sys.(used := sys.used.(flags := flags, availEvent := event))
  }

  function Apply(s: State, step: Step): State
    requires Enabled(s, step)
  {
    match step
    case Add(bufs) => s.(sys := V.Apply(s.sys, V.Add(bufs)), driver := K.Deciding)
    case Decide => s.(driver := K.Idle, kicked := s.kicked || DriverNotifies(s.sys))
    case Take => s.(sys := V.Apply(s.sys, V.Take))
    case Other(d) => s.(sys := V.Apply(s.sys, d))
    case Scribble(flags, event) => s.(sys := Wishes(s.sys, flags, event))
    case Arm => s.(sys := Wishes(s.sys, 0, s.sys.nextAvail), device := K.Rechecking)
    case Recheck => s.(device := if s.sys.nextAvail != s.sys.q.availIdx then K.Running else K.Asleep)
    case Wake => s.(kicked := false, device := if s.device.Asleep? then K.Running else s.device)
  }

  predicate Run(s: State, steps: seq<Step>, s': State)
    decreases |steps|
  {
    if steps == [] then s == s'
    else Enabled(s, steps[0]) && Run(Apply(s, steps[0]), steps[1..], s')
  }

  ghost predicate Reachable(s: State) {
    exists size, indirect, eventIdx, steps :: IsQueueSize(size) && Run(Init(size, indirect, eventIdx), steps, s)
  }

  // ----- The protocol seen in the queue -------------------------------------------------------

  function View(s: State): K.State {
    K.State(s.sys.q.eventIdx, s.sys.q.size, s.sys.added, s.sys.taken, s.sys.used.flags, s.sys.used.availEvent,
    s.driver, s.device, s.kicked)
  }

  /** The step of `Kicks` a step is; `Other` is none. */
  function Seen(step: Step): K.Step
    requires !step.Other?
  {
    match step
    case Add(_) => K.Publish
    case Decide => K.Decide
    case Take => K.Take
    case Scribble(flags, event) => K.Scribble(flags, event)
    case Arm => K.Arm
    case Recheck => K.Recheck
    case Wake => K.Wake
  }

  ghost predicate Inv(s: State) {
    V.Inv(s.sys) && K.Inv(View(s))
  }

  lemma WishesInv(sys: V.System, flags: nat, event: nat)
    requires V.Inv(sys)
    ensures V.Inv(Wishes(sys, flags, event))
  {
    assert V.Waiting(Wishes(sys, flags, event)) == V.Waiting(sys);
    assert V.Unpopped(Wishes(sys, flags, event)) == V.Unpopped(sys);
  }

  lemma AddIsPublish(s: State, bufs: seq<Buffer>)
    requires Inv(s) && Enabled(s, Add(bufs))
    ensures K.Enabled(View(s), K.Publish) && View(Apply(s, Add(bufs))) == K.Apply(View(s), K.Publish)
  {
    V.AddRoom(s.sys, bufs);
  }

  lemma TakeIsTake(s: State)
    requires Inv(s) && Enabled(s, Take)
    ensures K.Enabled(View(s), K.Take) && View(Apply(s, Take)) == K.Apply(View(s), K.Take)
  {
  }

  /** Every step of driver and device is the step of the protocol it stands for. */
  lemma StepSeen(s: State, step: Step)
    requires Inv(s) && Enabled(s, step) && !step.Other?
    ensures K.Enabled(View(s), Seen(step)) && View(Apply(s, step)) == K.Apply(View(s), Seen(step))
  {
    match step
    case Add(bufs) => AddIsPublish(s, bufs);
    case Take => TakeIsTake(s);
    case _ =>
  }

  lemma StepQueue(s: State, step: Step)
    requires Inv(s) && Enabled(s, step)
    ensures V.Inv(Apply(s, step).sys)
  {
    match step
    case Add(bufs) => V.StepInv(s.sys, V.Add(bufs));
    case Take => V.StepInv(s.sys, V.Take);
    case Other(d) => V.StepInv(s.sys, d);
    case Scribble(flags, event) => WishesInv(s.sys, flags, event);
    case Arm => WishesInv(s.sys, 0, s.sys.nextAvail);
    case _ =>
  }

  lemma StepInv(s: State, step: Step)
    requires Inv(s) && Enabled(s, step)
    ensures Inv(Apply(s, step))
  {
    StepQueue(s, step);
    if !step.Other? {
      StepSeen(s, step);
      K.StepInv(View(s), Seen(step));
    }
  }

  lemma {:induction false} RunInv(s: State, steps: seq<Step>, s': State)
    requires Inv(s) && Run(s, steps, s')
    ensures Inv(s')
    decreases |steps|
  {
    if steps != [] {
      StepInv(s, steps[0]);
      RunInv(Apply(s, steps[0]), steps[1..], s');
    }
  }

  /**
   The device never sleeps while the index the queue has stored is ahead of its own, unless a
   notification is sent or the driver is about to decide for one.
   */
  lemma NoLostKick(s: State)
    requires Reachable(s) && s.device.Asleep? && s.sys.nextAvail != s.sys.q.availIdx
    ensures s.kicked || (s.driver.Deciding? && DriverNotifies(s.sys))
  {
    var size, indirect, eventIdx, steps :| IsQueueSize(size) && Run(Init(size, indirect, eventIdx), steps, s);
    V.InitInv(size, indirect, eventIdx);
    RunInv(Init(size, indirect, eventIdx), steps, s);
    V.CanTakeExactly(s.sys);
    if s.sys.added == s.sys.taken + 1 {
      K.NextEntryNotified(View(s));
    }
  }
}
