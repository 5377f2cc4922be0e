/**
 When the driver tells the device about new available entries.  The driver publishes one entry, then
 decides on a notification ("kick"); the device, before it sleeps, publishes where it wants to be
 woken and looks at the ring once more.
 */
module Kicks {
  import opened RingIndices
  import opened VirtqueueSpec

  datatype Driver = Idle | Deciding
  datatype Device = Running | Rechecking | Asleep

  datatype State = State(
    eventIdx: bool, capacity: nat,
    added: nat, taken: nat,       // entries published and consumed; their indices are cut to 16 bits
    flags: nat, availEvent: nat,  // what the device last published
    driver: Driver, device: Device,
    kicked: bool)                 // a notification is on its way

  datatype Step =
    | Publish                            // driver: one more available entry
    | Decide                             // driver: notify or not
    | Take                               // device: consume an entry
    | Scribble(flags: nat, event: nat)   // device: while running, publish any wish
    | Arm                                // device: ask to be woken for the next entry
    | Recheck                            // device: look again, then sleep or go on
    | Wake                               // device: a notification arrives

  function Init(eventIdx: bool, capacity: nat): State {
    State(eventIdx, capacity, 0, 0, 0, 0, Idle, Running, false)
  }

  predicate Enabled(s: State, step: Step) {
    match step
    case Publish => s.driver.Idle? && s.added < s.taken + s.capacity
    case Decide => s.driver.Deciding?
    case Take => s.device.Running? && Cut(s.taken) != Cut(s.added)
    case Scribble(_, _) => s.device.Running?
    case Arm => s.device.Running?
    case Recheck => s.device.Rechecking?
    case Wake => s.kicked
  }

  predicate DriverNotifies(s: State) {
    ShouldNotify(s.eventIdx, Cut(s.added), s.flags, s.availEvent)
  }

  function Apply(s: State, step: Step): State {
    match step
    case Publish => s.(added := s.added + 1, driver := Deciding)
    case Decide => s.(driver := Idle, kicked := s.kicked || DriverNotifies(s))
    case Take => s.(taken := s.taken + 1)
    case Scribble(flags, event) => s.(flags := flags, availEvent := event)
    case Arm => s.(flags := 0, availEvent := Cut(s.taken), device := Rechecking)
    case Recheck => s.(device := if Cut(s.taken) != Cut(s.added) then Running else Asleep)
    case Wake => s.(kicked := false, device := if s.device.Asleep? then Running else s.device)
  }

  predicate Run(s: State, steps: seq<Step>, s': State)
    decreases |steps|
  {
    if steps == [] then s == s'
    else Enabled(s, steps[0]) && Run(Apply(s, steps[0]), steps[1..], s')
  }

  ghost predicate Reachable(s: State) {
    exists eventIdx, capacity: nat, steps ::
      capacity < IDX_MODULUS && Run(Init(eventIdx, capacity), steps, s)
  }

  predicate Armed(s: State) {
    if s.eventIdx then s.availEvent == Cut(s.taken) else s.flags == 0
  }

  predicate Inv(s: State) {
    && s.taken <= s.added <= s.taken + s.capacity
    && s.capacity < IDX_MODULUS
    && (!s.device.Running? ==> Armed(s))
    && (s.device.Asleep? && s.taken < s.added && !s.kicked ==> s.driver.Deciding? && s.added == s.taken + 1)
  }

  /** An armed device is told about the very next entry, also when the index wraps to zero. */
  lemma NextEntryNotified(s: State)
    requires Armed(s) && s.added == s.taken + 1
    ensures DriverNotifies(s)
  {
    CutSucc(s.taken);
  }

  lemma StepInv(s: State, step: Step)
    requires Inv(s) && Enabled(s, step)
    ensures Inv(Apply(s, step))
  {
    CutsAgree(s.taken, s.added);
    if Armed(s) && s.added == s.taken + 1 {
      NextEntryNotified(s);
    }
  }

  lemma {:induction false} RunInv(s: State, steps: seq<Step>, s': State)
    requires Inv(s) && Run(s, steps, s')
    ensures Inv(s')
    decreases |steps|
  {
    if steps != [] {
      StepInv(s, steps[0]);
      RunInv(Apply(s, steps[0]), steps[1..], s');
    }
  }

  /** The device never sleeps on unconsumed entries without a kick sent or about to be sent. */
  lemma NoLostKick(s: State)
    requires Reachable(s) && s.device.Asleep? && s.taken < s.added
    ensures s.kicked || (s.driver.Deciding? && DriverNotifies(s))
  {
    var eventIdx, capacity: nat, steps :| capacity < IDX_MODULUS && Run(Init(eventIdx, capacity), steps, s);
    RunInv(Init(eventIdx, capacity), steps, s);
    if s.added == s.taken + 1 {
      NextEntryNotified(s);
    }
  }

  /** Without event indices the device is told exactly unless it has set the lowest bit of its flags. */
  lemma FlagsExactly(availIdx: nat, flags: nat, event: nat)
    ensures ShouldNotify(false, availIdx, flags, event) <==> BitAnd(flags, 1) == 0
  {
    assert BitAnd(flags / 2, 0) == 0;
  }

  /** What the standard demands after a single entry, whatever index the device asked for. */
  lemma PerEntryMeetsStandard(added: nat, flags: nat, event: nat)
    requires event < IDX_MODULUS
    ensures NeedEvent(event, Cut(added + 1), Cut(added)) ==> ShouldNotify(true, Cut(added + 1), flags, event)
  {
    CutDistance(added, added + 1);
    CutSucc(added);
  }

  /**
   Deciding once for the entries `first .. last`, of which the device waits for number `event`: a
   notification is due, and it is sent exactly when the index does not wrap past that entry.
   */
  lemma BatchNotifiedExactly(first: nat, event: nat, last: nat, flags: nat)
    requires first <= event < last < first + IDX_MODULUS
    ensures NeedEvent(Cut(event), Cut(last), Cut(first))
    ensures ShouldNotify(true, Cut(last), flags, Cut(event)) <==>
            last / IDX_MODULUS == (event + 1) / IDX_MODULUS
  {
    EventPassed(event, last, first);
    CutSucc(event);
    CutIsRemainder(event + 1);
    CutIsRemainder(last);
  }

  /** Two entries at the end of the index range, one decision: the device is not told. */
  lemma BatchAcrossWrapMissed()
    ensures var device, driver := Cut(0xFFFE), Cut(0x1_0000);
            NeedEvent(device, driver, device) && !ShouldNotify(true, driver, 0, device)
  {
    BatchNotifiedExactly(0xFFFE, 0xFFFE, 0x1_0000, 0);
  }
}

/**
 When the device interrupts the driver about used entries.  The driver's handler pops an entry,
 stores the index it wants to be interrupted for, and looks again before it waits.
 */
module Interrupts {
  import opened RingIndices

  datatype Handler = Peeking | Storing | Waiting

  datatype State = State(
    capacity: nat,
    returned: nat, popped: nat,  // used entries published by the device and popped by the driver
    decided: nat,                // entries covered by the device's last decision to interrupt
    usedEvent: nat,              // what the driver last published
    handler: Handler,
    interrupted: bool)           // an interrupt is on its way

  datatype Step =
    | Return   // device: one more used entry
    | Decide   // device: interrupt or not, for all entries since the last decision
    | Peek     // handler: pop an entry if there is one, otherwise wait
    | Store    // handler: publish the index to be interrupted for
    | Wake     // handler: an interrupt arrives

  function Init(capacity: nat): State {
    State(capacity, 0, 0, 0, 0, Peeking, false)
  }

  predicate Enabled(s: State, step: Step) {
    match step
    case Return => s.returned < s.popped + s.capacity && s.returned + 1 < s.decided + IDX_MODULUS
    case Decide => true
    case Peek => s.handler.Peeking?
    case Store => s.handler.Storing?
    case Wake => s.handler.Waiting? && s.interrupted
  }

  predicate DeviceInterrupts(s: State) {
    NeedEvent(s.usedEvent, Cut(s.returned), Cut(s.decided))
  }

  function Apply(s: State, step: Step): State {
    match step
    case Return => s.(returned := s.returned + 1)
    case Decide => s.(interrupted := s.interrupted || DeviceInterrupts(s), decided := s.returned)
    case Peek =>
      if Cut(s.popped) != Cut(s.returned) then s.(popped := s.popped + 1, handler := Storing)
      else s.(handler := Waiting)
    case Store => s.(usedEvent := Cut(s.popped), handler := Peeking)
    case Wake => s.(handler := Peeking, interrupted := false)
  }

  predicate Run(s: State, steps: seq<Step>, s': State)
    decreases |steps|
  {
    if steps == [] then s == s'
    else Enabled(s, steps[0]) && Run(Apply(s, steps[0]), steps[1..], s')
  }

  ghost predicate Reachable(s: State) {
    exists capacity: nat, steps :: capacity < IDX_MODULUS && Run(Init(capacity), steps, s)
  }

  predicate Inv(s: State) {
    && s.popped <= s.returned <= s.popped + s.capacity
    && s.capacity < IDX_MODULUS
    && s.decided <= s.returned < s.decided + IDX_MODULUS
    && (!s.handler.Storing? ==> s.usedEvent == Cut(s.popped))
    && (s.handler.Waiting? && !s.interrupted ==> s.decided <= s.popped)
  }

  lemma StepInv(s: State, step: Step)
    requires Inv(s) && Enabled(s, step)
    ensures Inv(Apply(s, step))
  {
    CutsAgree(s.popped, s.returned);
    if s.decided <= s.popped < s.returned {
      EventPassed(s.popped, s.returned, s.decided);
    }
  }

  lemma {:induction false} RunInv(s: State, steps: seq<Step>, s': State)
    requires Inv(s) && Run(s, steps, s')
    ensures Inv(s')
    decreases |steps|
  {
    if steps != [] {
      StepInv(s, steps[0]);
      RunInv(Apply(s, steps[0]), steps[1..], s');
    }
  }

  /** The handler never waits on an unpopped entry without an interrupt sent or due. */
  lemma NoLostInterrupt(s: State)
    requires Reachable(s) && s.handler.Waiting? && s.popped < s.returned
    ensures s.interrupted || (s.decided < s.returned && DeviceInterrupts(s))
  {
    var capacity: nat, steps :| capacity < IDX_MODULUS && Run(Init(capacity), steps, s);
    RunInv(Init(capacity), steps, s);
    if s.decided <= s.popped {
      EventPassed(s.popped, s.returned, s.decided);
    }
  }
}
