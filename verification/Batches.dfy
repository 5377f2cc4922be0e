/**
 A batch of commands sharing one fence and one reference-counted list of allocations.  The submitter
 holds a reference while it sends the commands, each of which carries another; whoever drops the last
 one frees the allocations and reports the fence.  Party 0 is the submitter, party k + 1 the response
 to command k.
 */
module Batches {
  import opened Collections

  datatype Pc =
    | Unsent           // a command that has not been sent
    | Holding          // owns a reference: still sending, or not yet answered
    | Dropping         // owns a reference and is about to drop it
    | Freeing(i: nat)  // dropped the last reference; allocations below `i` are marked free
    | Gone

  datatype State = State(
    commands: nat, allocations: nat,
    refs: nat, sent: nat, pcs: seq<Pc>,
    // history
    freed: seq<nat>, reported: nat)

  datatype Step =
    | Send           // the submitter clones its reference into the next command
    | Sent           // the submitter has sent everything
    | Answer(k: nat) // the device answers command k
    | Drop(p: nat)   // one atomic decrement
    | Free(p: nat)   // mark one allocation free
    | Report(p: nat) // notify that the fence completed

  function Init(commands: nat, allocations: nat): State {
    State(commands, allocations, 1, 0, seq(commands + 1, p => if p == 0 then Holding else Unsent), [], 0)
  }

  /** A command on its own: sent at once, with the only reference. */
  function Single(allocations: nat): State {
    State(1, allocations, 1, 1, [Gone, Holding], [], 0)
  }

  predicate Enabled(s: State, step: Step) {
    |s.pcs| == s.commands + 1 &&
    match step
    case Send => s.pcs[0] == Holding && s.sent < s.commands
    case Sent => s.pcs[0] == Holding && s.sent == s.commands
    case Answer(k) => k < s.commands && s.pcs[k + 1] == Holding
    case Drop(p) => p < |s.pcs| && s.pcs[p] == Dropping && s.refs > 0
    case Free(p) => p < |s.pcs| && s.pcs[p].Freeing? && s.pcs[p].i < s.allocations
    case Report(p) => p < |s.pcs| && s.pcs[p].Freeing? && s.pcs[p].i == s.allocations
  }

  function Apply(s: State, step: Step): State
    requires Enabled(s, step)
  {
    match step
    case Send => s.(refs := s.refs + 1, sent := s.sent + 1, pcs := s.pcs[s.sent + 1 := Holding])
    case Sent => s.(pcs := s.pcs[0 := Dropping])
    case Answer(k) => s.(pcs := s.pcs[k + 1 := Dropping])
    case Drop(p) => s.(refs := s.refs - 1, pcs := s.pcs[p := if s.refs == 1 then Freeing(0) else Gone])
    case Free(p) => s.(freed := s.freed + [s.pcs[p].i], pcs := s.pcs[p := Freeing(s.pcs[p].i + 1)])
    case Report(p) => s.(reported := s.reported + 1, pcs := s.pcs[p := Gone])
  }

  predicate Run(s: State, steps: seq<Step>, s': State)
    decreases |steps|
  {
    if steps == [] then s == s'
    else Enabled(s, steps[0]) && Run(Apply(s, steps[0]), steps[1..], s')
  }

  ghost predicate Reachable(s: State) {
    exists commands: nat, allocations: nat, steps :: Run(Init(commands, allocations), steps, s)
  }

  predicate OwnsRef(pc: Pc) {
    pc.Holding? || pc.Dropping?
  }

  function Owners(pcs: seq<Pc>): set<nat> {
    set p: nat | p < |pcs| && OwnsRef(pcs[p])
  }

  /** The part of the invariant that speaks of one party. */
  predicate PartyOk(s: State, p: nat) {
    p < |s.pcs| ==>
      && (p > 0 ==> (s.pcs[p].Unsent? <==> p > s.sent))
      && (p == 0 ==> !s.pcs[p].Unsent? && (s.sent < s.commands ==> s.pcs[p].Holding?))
      && (s.pcs[p].Freeing? ==>
            s.refs == 0 && s.reported == 0 && s.pcs[p].i <= s.allocations && s.freed == Range(s.pcs[p].i))
  }

  ghost predicate Exclusive(s: State) {
    forall p, q | 0 <= p < |s.pcs| && 0 <= q < |s.pcs| && s.pcs[p].Freeing? && s.pcs[q].Freeing? :: p == q
  }

  /** While references are left nothing has been freed; afterwards someone is at it or it is done. */
  ghost predicate Progress(s: State) {
    if s.refs > 0 then s.reported == 0 && s.freed == []
    else if s.reported == 0 then exists p: nat :: p < |s.pcs| && s.pcs[p].Freeing?
    else s.reported == 1 && s.freed == Range(s.allocations) && forall p | 0 <= p < |s.pcs| :: !s.pcs[p].Freeing?
  }

  ghost predicate Inv(s: State) {
    && |s.pcs| == s.commands + 1 && s.sent <= s.commands
    && s.refs == |Owners(s.pcs)|
    && (forall p: nat :: PartyOk(s, p))
    && Exclusive(s)
    && Progress(s)
  }

  lemma OwnersUpdate(pcs: seq<Pc>, p: nat, pc: Pc)
    requires p < |pcs|
    ensures |Owners(pcs[p := pc])| ==
            |Owners(pcs)| + (if OwnsRef(pc) then 1 else 0) - (if OwnsRef(pcs[p]) then 1 else 0)
  {
    var before, after := Owners(pcs), Owners(pcs[p := pc]);
    assert before - {p} == after - {p};
    assert OwnsRef(pcs[p]) ==> before == (before - {p}) + {p};
    assert !OwnsRef(pcs[p]) ==> before == before - {p};
    assert OwnsRef(pc) ==> after == (after - {p}) + {p};
    assert !OwnsRef(pc) ==> after == after - {p};
  }

  lemma OwnerCounts(pcs: seq<Pc>, p: nat)
    requires p < |pcs| && OwnsRef(pcs[p])
    ensures |Owners(pcs)| > 0
  {
    assert p in Owners(pcs);
  }

  lemma InitInv(commands: nat, allocations: nat)
    ensures Inv(Init(commands, allocations))
  {
    assert Owners(Init(commands, allocations).pcs) == {0};
  }

  lemma SingleInv(allocations: nat)
    ensures Inv(Single(allocations))
  {
    assert Owners(Single(allocations).pcs) == {1};
  }

  /** The party whose program counter a step moves, and where to. */
  function Mover(s: State, step: Step): (nat, Pc)
    requires Enabled(s, step)
  {
    match step
    case Send => (s.sent + 1, Holding)
    case Sent => (0, Dropping)
    case Answer(k) => (k + 1, Dropping)
    case Drop(p) => (p, if s.refs == 1 then Freeing(0) else Gone)
    case Free(p) => (p, Freeing(s.pcs[p].i + 1))
    case Report(p) => (p, Gone)
  }

  lemma StepRefs(s: State, step: Step)
    requires Inv(s) && Enabled(s, step)
    ensures Apply(s, step).refs == |Owners(Apply(s, step).pcs)|
  {
    var (p, pc) := Mover(s, step);
    assert PartyOk(s, p);
    OwnersUpdate(s.pcs, p, pc);
  }

  /** Until the last reference is gone, every step is taken by, or on behalf of, an owner. */
  lemma SomeoneOwns(s: State, step: Step)
    requires Inv(s) && Enabled(s, step)
    ensures step.Free? || step.Report? || s.refs > 0
  {
    if !step.Free? && !step.Report? {
      OwnerCounts(s.pcs, if step.Send? then 0 else Mover(s, step).0);
    }
  }

  lemma StepParty(s: State, step: Step, p: nat)
    requires Inv(s) && Enabled(s, step)
    ensures PartyOk(Apply(s, step), p)
  {
    var m := Mover(s, step).0;
    assert PartyOk(s, p) && PartyOk(s, m) && PartyOk(s, 0);
    SomeoneOwns(s, step);
    assert s.pcs[m].Freeing? ==> p >= |s.pcs| || p == m || !s.pcs[p].Freeing?;
  }

  lemma StepProgress(s: State, step: Step)
    requires Inv(s) && Enabled(s, step)
    ensures Exclusive(Apply(s, step)) && Progress(Apply(s, step))
  {
    var s', m := Apply(s, step), Mover(s, step).0;
    assert PartyOk(s, m);
    SomeoneOwns(s, step);
    forall p: nat | p < |s.pcs| ensures s'.pcs[p].Freeing? ==> p == m && (s.pcs[p].Freeing? || step.Drop?) {
      assert PartyOk(s, p);
    }
    if s'.pcs[m].Freeing? {
      assert m < |s'.pcs| && s'.pcs[m].Freeing?;
    }
  }

  lemma StepInv(s: State, step: Step)
    requires Inv(s) && Enabled(s, step)
    ensures Inv(Apply(s, step))
  {
    StepRefs(s, step);
    StepProgress(s, step);
    forall p: nat ensures PartyOk(Apply(s, step), p) {
      StepParty(s, step, p);
    }
  }

  lemma {:induction false} RunInv(s: State, steps: seq<Step>, s': State)
    requires Inv(s) && Run(s, steps, s')
    ensures Inv(s')
    decreases |steps|
  {
    if steps != [] {
      StepInv(s, steps[0]);
      RunInv(Apply(s, steps[0]), steps[1..], s');
    }
  }

  lemma ReachableInv(s: State)
    requires Reachable(s)
    ensures Inv(s)
  {
    var commands: nat, allocations: nat, steps :| Run(Init(commands, allocations), steps, s);
    InitInv(commands, allocations);
    RunInv(Init(commands, allocations), steps, s);
  }

  predicate Answered(s: State, k: nat) {
    k + 1 < |s.pcs| && !s.pcs[k + 1].Unsent? && !s.pcs[k + 1].Holding?
  }

  /**
   Freeing starts only when every command has been answered, the fence is reported at most once, and
   only after each allocation was marked free exactly once.
   */
  lemma ReportedOnceAfterAll(s: State, k: nat)
    requires Reachable(s) && k < s.commands
    ensures s.freed != [] || s.reported > 0 ==> Answered(s, k)
    ensures s.reported <= 1
    ensures s.reported > 0 ==> s.freed == Range(s.allocations)
  {
    ReachableInv(s);
    assert PartyOk(s, k + 1) && PartyOk(s, 0);
    if OwnsRef(s.pcs[k + 1]) {
      OwnerCounts(s.pcs, k + 1);
    }
    if OwnsRef(s.pcs[0]) {
      OwnerCounts(s.pcs, 0);
    }
  }

  predicate AllGone(s: State) {
    forall p | 0 <= p < |s.pcs| :: s.pcs[p].Gone?
  }

  lemma GoneMeansReported(s: State)
    requires Inv(s) && AllGone(s)
    ensures s.reported == 1 && s.freed == Range(s.allocations)
  {
    assert Owners(s.pcs) == {};
  }

  /** When every party is through, the fence has been reported, whoever dropped the last reference. */
  lemma ReportedAtTheEnd(s: State)
    requires Reachable(s) && AllGone(s)
    ensures s.reported == 1 && s.freed == Range(s.allocations)
  {
    ReachableInv(s);
    GoneMeansReported(s);
  }

  /** A party about to report is the first to do so. */
  lemma ReportIsFirst(s: State, p: nat)
    requires Inv(s) && Enabled(s, Report(p))
    ensures s.reported == 0 && s.freed == Range(s.allocations)
  {
    assert PartyOk(s, p);
  }

  /** A command waiting for its answer waits until that answer. */
  lemma HoldingKept(s: State, step: Step, k: nat)
    requires Enabled(s, step) && step != Answer(k) && k < s.commands && s.pcs[k + 1] == Holding
    ensures Apply(s, step).commands == s.commands && Apply(s, step).sent >= s.sent
    ensures |Apply(s, step).pcs| == |s.pcs| && Apply(s, step).pcs[k + 1] == Holding
  {
  }
}
