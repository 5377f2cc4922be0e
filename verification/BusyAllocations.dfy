/**
 The busy count of an allocation and the event its waiters sleep on.  Any number of threads mark the
 allocation busy and free it again, in steps of one atomic access each; each unit is freed once, by a
 call that starts after the call that marked it busy returned.
 */
module BusyAllocations {

  datatype Waiter = Testing | Sleeping | Retesting | Delaying | Returned

  datatype State = State(
    count: int, event: bool,
    clearing: nat,          // calls of `mark_busy` that counted and have not cleared the event yet
    held: nat,              // units whose `mark_busy` returned and that are not freed
    setting: nat,           // calls of `mark_free` that took the last unit and have not set the event yet
    waiters: seq<Waiter>,
    // history
    used: bool,             // some unit was marked busy
    sawZero: set<nat>)      // waiters whose latest look at the count found zero

  datatype Step =
    | Count          // mark_busy: fetch_add
    | Clear          // mark_busy: clear the event
    | Uncount        // mark_free: fetch_sub
    | Set            // mark_free: set the event
    | Wait(w: nat)   // one step of `wait`

  function Init(waiters: nat): State {
    State(0, false, 0, 0, 0, seq(waiters, _ => Testing), false, {})
  }

  predicate Enabled(s: State, step: Step) {
    match step
    case Count => true
    case Clear => s.clearing > 0
    case Uncount => s.held > 0
    case Set => s.setting > 0
    case Wait(w) => w < |s.waiters| && !s.waiters[w].Returned? && (s.waiters[w].Sleeping? ==> s.event)
  }

  function Waited(s: State, w: nat): State
    requires w < |s.waiters|
  {
    var zero := s.count == 0;
    var seen := if zero then s.sawZero + {w} else s.sawZero - {w};
    match s.waiters[w]
    case Testing => s.(waiters := s.waiters[w := if zero then Returned else Sleeping], sawZero := seen)
    case Sleeping => s.(waiters := s.waiters[w := Retesting])
    case Retesting => s.(waiters := s.waiters[w := if zero then Returned else Delaying], sawZero := seen)
    case Delaying => s.(waiters := s.waiters[w := Testing])
    case Returned => s
  }

  function Apply(s: State, step: Step): State
    requires Enabled(s, step)
  {
    match step
    case Count => s.(count := s.count + 1, clearing := s.clearing + 1, used := true)
    case Clear => s.(event := false, clearing := s.clearing - 1, held := s.held + 1)
    case Uncount =>
      s.(count := s.count - 1, held := s.held - 1, setting := if s.count == 1 then s.setting + 1 else s.setting)
    case Set => s.(event := true, setting := s.setting - 1)
    case Wait(w) => Waited(s, w)
  }

  predicate Run(s: State, steps: seq<Step>, s': State)
    decreases |steps|
  {
    if steps == [] then s == s'
    else Enabled(s, steps[0]) && Run(Apply(s, steps[0]), steps[1..], s')
  }

  ghost predicate Reachable(s: State) {
    exists waiters: nat, steps :: Run(Init(waiters), steps, s)
  }

  predicate WaiterOk(s: State, w: nat) {
    w < |s.waiters| ==>
      && (s.waiters[w].Returned? ==> w in s.sawZero)
      && (!s.waiters[w].Testing? && !s.waiters[w].Returned? ==> s.used)
  }

  ghost predicate Inv(s: State) {
    && s.count == s.clearing + s.held
    && (s.count == 0 && s.used ==> s.event || s.setting > 0)
    && (s.count > 0 ==> s.used)
    && forall w: nat :: WaiterOk(s, w)
  }

  lemma StepInv(s: State, step: Step)
    requires Inv(s) && Enabled(s, step)
    ensures Inv(Apply(s, step))
  {
    forall w: nat ensures WaiterOk(Apply(s, step), w) {
      assert WaiterOk(s, w);
    }
  }

  lemma {:induction false} RunInv(s: State, steps: seq<Step>, s': State)
    requires Inv(s) && Run(s, steps, s')
    ensures Inv(s')
    decreases |steps|
  {
    if steps != [] {
      StepInv(s, steps[0]);
      RunInv(Apply(s, steps[0]), steps[1..], s');
    }
  }

  lemma ReachableInv(s: State)
    requires Reachable(s)
    ensures Inv(s)
  {
    var waiters: nat, steps :| Run(Init(waiters), steps, s);
    RunInv(Init(waiters), steps, s);
  }

  /** The count is the number of outstanding units, and `wait` returns only on seeing none. */
  lemma CountIsOutstanding(s: State, w: nat)
    requires Reachable(s) && w < |s.waiters|
    ensures s.count == s.clearing + s.held
    ensures s.waiters[w].Returned? ==> w in s.sawZero
  {
    ReachableInv(s);
    assert WaiterOk(s, w);
  }

  /**
   Once the count is back at zero and no call is half-way, the event is set; so a waiter asleep with
   nothing outstanding can go on, now or after a call that is under way.
   */
  lemma NobodyStranded(s: State, w: nat)
    requires Reachable(s) && s.count == 0
    ensures s.used && s.setting == 0 ==> s.event
    ensures w < |s.waiters| && s.waiters[w].Sleeping? ==> Enabled(s, Wait(w)) || Enabled(s, Set)
  {
    ReachableInv(s);
    assert WaiterOk(s, w);
  }

  /** A waiter that finds the allocation busy sleeps or delays before it looks again. */
  lemma LooksApart(s: State, w: nat)
    requires Enabled(s, Wait(w)) && s.count != 0 && (s.waiters[w].Testing? || s.waiters[w].Retesting?)
    ensures Apply(s, Wait(w)).waiters[w] in {Sleeping, Delaying}
  {
  }

  /** From there a waiter left alone returns in two steps at most. */
  lemma AwakeReturns(s: State, w: nat) returns (steps: seq<Step>, s': State)
    requires Reachable(s) && s.count == 0 && s.used && s.setting == 0 && w < |s.waiters|
    ensures Run(s, steps, s') && |steps| <= 2 && w < |s'.waiters| && s'.waiters[w].Returned?
    ensures forall i | 0 <= i < |steps| :: steps[i] == Wait(w)
  {
    NobodyStranded(s, w);
    var step := Wait(w);
    match s.waiters[w]
    case Returned =>
      steps, s' := [], s;
    case Testing =>
      steps, s' := [step], Apply(s, step);
    case Retesting =>
      steps, s' := [step], Apply(s, step);
    case _ =>
      var s1 := Apply(s, step);
      steps, s' := [step, step], Apply(s1, step);
      assert [step, step][1..] == [step];
      assert Run(s1, [step], s');
  }

  /** Nobody marks the allocation busy while a call that freed its last unit has yet to set the event. */
  predicate Calm(s: State, steps: seq<Step>)
    decreases |steps|
  {
    steps == [] ||
    ((steps[0].Count? ==> s.setting == 0) && Enabled(s, steps[0]) && Calm(Apply(s, steps[0]), steps[1..]))
  }

  lemma {:induction false} CalmRun(s: State, steps: seq<Step>, s': State)
    requires Inv(s) && Run(s, steps, s') && Calm(s, steps)
    requires (s.event ==> s.held == 0) && (s.setting > 0 ==> s.count == 0)
    ensures (s'.event ==> s'.held == 0) && (s'.setting > 0 ==> s'.count == 0)
    decreases |steps|
  {
    if steps != [] {
      StepInv(s, steps[0]);
      CalmRun(Apply(s, steps[0]), steps[1..], s');
    }
  }

  /**
   On calm runs the event tells the truth: it is set only while no unit is held, so that nobody waits
   for it in vain or is woken for nothing; with no call half-way it is set exactly when none is.
   */
  lemma CalmEventExact(waiters: nat, steps: seq<Step>, s: State)
    requires Run(Init(waiters), steps, s) && Calm(Init(waiters), steps)
    ensures s.event ==> s.held == 0
    ensures s.used && s.clearing == 0 && s.setting == 0 ==> (s.event <==> s.held == 0)
  {
    RunInv(Init(waiters), steps, s);
    CalmRun(Init(waiters), steps, s);
  }

  lemma {:induction false} RunExtends(s: State, steps: seq<Step>, s': State, step: Step)
    requires Run(s, steps, s') && Enabled(s', step)
    ensures Run(s, steps + [step], Apply(s', step))
    decreases |steps|
  {
    if steps == [] {
      assert [step][1..] == [];
      assert Run(Apply(s, step), [], Apply(s, step));
    } else {
      RunExtends(Apply(s, steps[0]), steps[1..], s', step);
      assert (steps + [step])[1..] == steps[1..] + [step];
    }
  }

  lemma ReachableStep(s: State, step: Step, s': State)
    requires Reachable(s) && Enabled(s, step) && s' == Apply(s, step)
    ensures Reachable(s')
  {
    var waiters: nat, steps :| Run(Init(waiters), steps, s);
    RunExtends(Init(waiters), steps, s, step);
  }

  /** The event may be set although the allocation is busy: a late `set` after an early `clear`. */
  lemma SpuriouslySet()
    ensures Reachable(State(1, true, 0, 1, 0, [], true, {}))
  {
    assert Run(Init(0), [], State(0, false, 0, 0, 0, [], false, {}));
    ReachableStep(State(0, false, 0, 0, 0, [], false, {}), Count, State(1, false, 1, 0, 0, [], true, {}));
    ReachableStep(State(1, false, 1, 0, 0, [], true, {}), Clear, State(1, false, 0, 1, 0, [], true, {}));
    ReachableStep(State(1, false, 0, 1, 0, [], true, {}), Uncount, State(0, false, 0, 0, 1, [], true, {}));
    ReachableStep(State(0, false, 0, 0, 1, [], true, {}), Count, State(1, false, 1, 0, 1, [], true, {}));
    ReachableStep(State(1, false, 1, 0, 1, [], true, {}), Clear, State(1, false, 0, 1, 1, [], true, {}));
    ReachableStep(State(1, false, 0, 1, 1, [], true, {}), Set, State(1, true, 0, 1, 0, [], true, {}));
  }
}
