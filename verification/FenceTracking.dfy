/**
 Virtio fences and the DXGK fences waiting for them.  Virtio fences are numbered as they are issued;
 those not yet signalled are kept in an unordered vector.  A DXGK fence tied to a virtio fence is
 reported when that one is signalled, and is queued again with a new time stamp when it takes long.
 */
module FenceTracking {
  import opened Collections

  const RESPONSIVE_TIMEOUT_SEC := 30

  datatype Tracker = Tracker(next: nat, unsignaled: seq<nat>)

  /** A DXGK fence on an engine, and the virtio fence it is tied to. */
  datatype Fence = Fence(engine: nat, dxgkFence: nat, virtioFence: nat)

  datatype Submission = Submission(fence: Fence, timestamp: nat)

  // ----- The tracker --------------------------------------------------------------------------

  predicate Query(t: Tracker, fence: nat) {
    fence < t.next && fence !in t.unsignaled
  }

  function Issued(t: Tracker): Tracker {
    Tracker(t.next + 1, t.unsignaled + [t.next])
  }

  /** Where `x` first occurs. */
  function Position(s: seq<nat>, x: nat): (i: nat)
    requires x in s
    ensures i < |s| && s[i] == x && x !in s[..i]
  {
    if s[0] == x then 0 else 1 + Position(s[1..], x)
  }

  /** Take out element `i` by moving the last one into its place. */
  function SwapRemoved(s: seq<nat>, i: nat): (r: seq<nat>)
    requires i < |s|
    ensures |r| == |s| - 1
  {
    s[i := s[|s| - 1]][..|s| - 1]
  }

  function Signalled(t: Tracker, fence: nat): Tracker {
    if fence in t.unsignaled then t.(unsignaled := SwapRemoved(t.unsignaled, Position(t.unsignaled, fence))) else t
  }

  lemma SwapRemovedCount(s: seq<nat>, i: nat)
    requires i < |s|
    ensures multiset(SwapRemoved(s, i)) == multiset(s) - multiset{s[i]}
  {
    var last := |s| - 1;
    if i == last {
      assert s == s[..last] + [s[last]];
      assert SwapRemoved(s, i) == s[..last];
    } else {
      assert s == s[..i] + [s[i]] + s[i + 1..last] + [s[last]];
      assert SwapRemoved(s, i) == s[..i] + [s[last]] + s[i + 1..last];
    }
  }

  /** The vector holds each issued fence that is not in `signalled`, once. */
  ghost predicate Tracks(t: Tracker, signalled: set<nat>) {
    forall f: nat :: multiset(t.unsignaled)[f] == if f < t.next && f !in signalled then 1 else 0
  }

  lemma IssuedTracks(t: Tracker, signalled: set<nat>)
    requires Tracks(t, signalled) && t.next !in signalled
    ensures Tracks(Issued(t), signalled)
  {
    forall f: nat
      ensures multiset(Issued(t).unsignaled)[f] == if f < t.next + 1 && f !in signalled then 1 else 0
    {
      assert multiset(t.unsignaled)[f] == if f < t.next && f !in signalled then 1 else 0;
    }
  }

  lemma SignalledTracks(t: Tracker, signalled: set<nat>, fence: nat)
    requires Tracks(t, signalled) && fence < t.next
    ensures Tracks(Signalled(t, fence), signalled + {fence})
  {
    if fence in t.unsignaled {
      SwapRemovedCount(t.unsignaled, Position(t.unsignaled, fence));
    } else {
      assert fence !in multiset(t.unsignaled);
    }
    forall f: nat
      ensures multiset(Signalled(t, fence).unsignaled)[f] == if f < t.next && f !in signalled + {fence} then 1 else 0
    {
      assert multiset(t.unsignaled)[f] == if f < t.next && f !in signalled then 1 else 0;
    }
  }

  /** `query` answers whether the fence was issued and signalled. */
  lemma QueryAgrees(t: Tracker, signalled: set<nat>, fence: nat)
    requires Tracks(t, signalled)
    ensures Query(t, fence) <==> fence < t.next && fence in signalled
  {
    assert multiset(t.unsignaled)[fence] == if fence < t.next && fence !in signalled then 1 else 0;
    assert fence in t.unsignaled <==> fence in multiset(t.unsignaled);
  }

  class FenceTracker {
    var nextFence: nat
    var unsignaled: seq<nat>

    ghost function View(): Tracker
      reads this
    {
      Tracker(nextFence, unsignaled)
    }

    constructor ()
      ensures View() == Tracker(0, [])
    {
      nextFence, unsignaled := 0, [];
    }

    method NextFence() returns (fence: nat)
      modifies this
      ensures fence == old(nextFence) && View() == Issued(old(View()))
    {
      fence := nextFence;
      nextFence := nextFence + 1;
      unsignaled := unsignaled + [fence];
    }

    /** The caller only signals fences that were issued. */
    method Signal(fence: nat)
      requires fence < nextFence
      modifies this`unsignaled
      ensures View() == Signalled(old(View()), fence)
    {
      var i := 0;
      while i < |unsignaled| && unsignaled[i] != fence
        invariant i <= |unsignaled| && fence !in unsignaled[..i] && unsignaled == old(unsignaled)
      {
        i := i + 1;
      }
      if i < |unsignaled| {
        FirstPosition(unsignaled, fence, i);
        var last := unsignaled[|unsignaled| - 1];
        unsignaled := unsignaled[i := last];
        unsignaled := unsignaled[..|unsignaled| - 1];
      }
    }

    method IsSignalled(fence: nat) returns (b: bool)
      ensures b == Query(View(), fence)
    {
      if fence >= nextFence {
        return false;
      }
      var i := 0;
      while i < |unsignaled|
        invariant i <= |unsignaled| && fence !in unsignaled[..i]
      {
        if unsignaled[i] == fence {
          return false;
        }
        i := i + 1;
      }
      return true;
    }
  }

  lemma {:induction false} FirstPosition(s: seq<nat>, x: nat, i: nat)
    requires i < |s| && s[i] == x && x !in s[..i]
    ensures Position(s, x) == i
  {
    if i > 0 {
      assert s[..i][0] == s[0];
      assert s[1..][..i - 1] == s[..i][1..];
      FirstPosition(s[1..], x, i - 1);
    }
  }

  // ----- One pass over the queued submissions -------------------------------------------------

  /** The two readings of the clock a pass takes for its `i`-th submission, and the ticks per second. */
  datatype Clock = Clock(check: nat -> nat, stamp: nat -> nat, freq: nat)

  predicate TimedOut(s: Submission, clock: Clock, i: nat) {
    clock.check(i) - s.timestamp >= RESPONSIVE_TIMEOUT_SEC * clock.freq
  }

  function ReadyFences(t: Tracker, subs: seq<Submission>): seq<Fence> {
    if subs == [] then []
    else
      var i := |subs| - 1;
      var ready := ReadyFences(t, subs[..i]);
      if Query(t, subs[i].fence.virtioFence) then ready + [subs[i].fence] else ready
  }

  function Kept(t: Tracker, subs: seq<Submission>, clock: Clock): seq<Submission> {
    if subs == [] then []
    else
      var i := |subs| - 1;
      var kept := Kept(t, subs[..i], clock);
      if !Query(t, subs[i].fence.virtioFence) && !TimedOut(subs[i], clock, i) then kept + [subs[i]] else kept
  }

  function Resubmitted(t: Tracker, subs: seq<Submission>, clock: Clock): seq<Submission> {
    if subs == [] then []
    else
      var i := |subs| - 1;
      var again := Resubmitted(t, subs[..i], clock);
      if !Query(t, subs[i].fence.virtioFence) && TimedOut(subs[i], clock, i)
      then again + [Submission(subs[i].fence, clock.stamp(i))] else again
  }

  function Fences(subs: seq<Submission>): (r: seq<Fence>)
    ensures |r| == |subs|
  {
    if subs == [] then [] else Fences(subs[..|subs| - 1]) + [subs[|subs| - 1].fence]
  }

  lemma FencesSnoc(subs: seq<Submission>, s: Submission)
    ensures Fences(subs + [s]) == Fences(subs) + [s.fence]
  {
    assert (subs + [s])[..|subs|] == subs;
  }

  lemma {:induction false} FencesConcat(a: seq<Submission>, b: seq<Submission>)
    ensures Fences(a + b) == Fences(a) + Fences(b)
  {
    if b == [] {
      assert a + b == a;
    } else {
      var i := |b| - 1;
      FencesConcat(a, b[..i]);
      assert a + b == a + b[..i] + [b[i]];
      FencesSnoc(a + b[..i], b[i]);
    }
  }

  function Handled(t: Tracker, subs: seq<Submission>, clock: Clock): seq<Submission> {
    Kept(t, subs, clock) + Resubmitted(t, subs, clock)
  }

  /** Positions below `n`, one after the other. */
  predicate Increasing(at: seq<nat>, n: nat) {
    && (forall k | 0 <= k < |at| :: at[k] < n)
    && (forall j, k | 0 <= j < k < |at| :: at[j] < at[k])
  }

  lemma {:induction false} KeptInOrder(t: Tracker, subs: seq<Submission>, clock: Clock) returns (at: seq<nat>)
    ensures Increasing(at, |subs|) && |at| == |Kept(t, subs, clock)|
    ensures forall k | 0 <= k < |at| :: Kept(t, subs, clock)[k] == subs[at[k]]
  {
    if subs == [] {
      at := [];
    } else {
      var i := |subs| - 1;
      at := KeptInOrder(t, subs[..i], clock);
      if !Query(t, subs[i].fence.virtioFence) && !TimedOut(subs[i], clock, i) {
        at := at + [i];
      }
    }
  }

  lemma {:induction false} AgainInOrder(t: Tracker, subs: seq<Submission>, clock: Clock) returns (at: seq<nat>)
    ensures Increasing(at, |subs|) && |at| == |Resubmitted(t, subs, clock)|
    ensures forall k | 0 <= k < |at| ::
              Resubmitted(t, subs, clock)[k] == Submission(subs[at[k]].fence, clock.stamp(at[k]))
  {
    if subs == [] {
      at := [];
    } else {
      var i := |subs| - 1;
      at := AgainInOrder(t, subs[..i], clock);
      if !Query(t, subs[i].fence.virtioFence) && TimedOut(subs[i], clock, i) {
        at := at + [i];
      }
    }
  }

  /** What a pass leaves: first those it kept, unchanged and in order, then those it put back, in order. */
  lemma PassOrder(t: Tracker, subs: seq<Submission>, clock: Clock) returns (kept: seq<nat>, again: seq<nat>)
    ensures Increasing(kept, |subs|) && Increasing(again, |subs|)
    ensures |Handled(t, subs, clock)| == |kept| + |again|
    ensures forall k | 0 <= k < |kept| :: Handled(t, subs, clock)[k] == subs[kept[k]]
    ensures forall k | 0 <= k < |again| ::
              Handled(t, subs, clock)[|kept| + k] == Submission(subs[again[k]].fence, clock.stamp(again[k]))
  {
    kept := KeptInOrder(t, subs, clock);
    again := AgainInOrder(t, subs, clock);
  }

  predicate NoneReady(t: Tracker, subs: seq<Submission>) {
    forall i | 0 <= i < |subs| :: !Query(t, subs[i].fence.virtioFence)
  }

  lemma {:induction false} PartsCount(t: Tracker, subs: seq<Submission>, clock: Clock)
    ensures multiset(Fences(subs)) ==
            multiset(ReadyFences(t, subs)) +
            multiset(Fences(Kept(t, subs, clock))) + multiset(Fences(Resubmitted(t, subs, clock)))
  {
    if subs != [] {
      var i := |subs| - 1;
      var ready, kept, again :=
        ReadyFences(t, subs[..i]), Fences(Kept(t, subs[..i], clock)), Fences(Resubmitted(t, subs[..i], clock));
      PartsCount(t, subs[..i], clock);
      FencesSnoc(Kept(t, subs[..i], clock), subs[i]);
      FencesSnoc(Resubmitted(t, subs[..i], clock), Submission(subs[i].fence, clock.stamp(i)));
      OneMore(Fences(subs[..i]), ready, kept, again, subs[i].fence);
    }
  }

  /** One more fence goes to one of three places. */
  lemma OneMore(all: seq<Fence>, a: seq<Fence>, b: seq<Fence>, c: seq<Fence>, f: Fence)
    requires multiset(all) == multiset(a) + multiset(b) + multiset(c)
    ensures multiset(all + [f]) == multiset(a + [f]) + multiset(b) + multiset(c)
    ensures multiset(all + [f]) == multiset(a) + multiset(b + [f]) + multiset(c)
    ensures multiset(all + [f]) == multiset(a) + multiset(b) + multiset(c + [f])
  {
  }

  /**
   A submission that is not ready stays as it is for less than thirty seconds, and from then on is put
   back with a new time stamp.
   */
  lemma {:induction false} PutBackWhenOld(t: Tracker, subs: seq<Submission>, clock: Clock, i: nat)
    requires i < |subs| && !Query(t, subs[i].fence.virtioFence)
    ensures if clock.check(i) < subs[i].timestamp + 30 * clock.freq then subs[i] in Kept(t, subs, clock)
            else Submission(subs[i].fence, clock.stamp(i)) in Resubmitted(t, subs, clock)
  {
    var n := |subs| - 1;
    if i < n {
      PutBackWhenOld(t, subs[..n], clock, i);
    } else {
      var again := Resubmitted(t, subs[..n], clock) + [Submission(subs[i].fence, clock.stamp(i))];
      var kept := Kept(t, subs[..n], clock) + [subs[i]];
      assert again[|again| - 1] in again && kept[|kept| - 1] in kept;
    }
  }

  lemma {:induction false} PartsNotReady(t: Tracker, subs: seq<Submission>, clock: Clock)
    ensures NoneReady(t, Kept(t, subs, clock)) && NoneReady(t, Resubmitted(t, subs, clock))
  {
    if subs != [] {
      PartsNotReady(t, subs[..|subs| - 1], clock);
    }
  }

  /** A pass loses and duplicates nothing, and leaves nothing that is ready. */
  lemma PassConserves(t: Tracker, subs: seq<Submission>, clock: Clock)
    ensures multiset(Fences(subs)) == multiset(ReadyFences(t, subs)) + multiset(Fences(Handled(t, subs, clock)))
    ensures NoneReady(t, Handled(t, subs, clock))
  {
    PartsCount(t, subs, clock);
    PartsNotReady(t, subs, clock);
    FencesConcat(Kept(t, subs, clock), Resubmitted(t, subs, clock));
  }

  lemma {:induction false} ReadyAreReady(t: Tracker, subs: seq<Submission>)
    ensures forall i | 0 <= i < |ReadyFences(t, subs)| :: Query(t, ReadyFences(t, subs)[i].virtioFence)
  {
    if subs != [] {
      ReadyAreReady(t, subs[..|subs| - 1]);
    }
  }

  class FenceSubmissions {
    const tracker: FenceTracker
    var queued: seq<Submission>
    var reported: seq<Fence>  // calls to `notify_dma_completed`

    constructor (tracker: FenceTracker)
      ensures this.tracker == tracker && queued == [] && reported == []
    {
      this.tracker, queued, reported := tracker, [], [];
    }

    method Handle(clock: Clock)
      modifies this`queued, this`reported
      ensures queued == Handled(tracker.View(), old(queued), clock)
      ensures reported == old(reported) + ReadyFences(tracker.View(), old(queued))
    {
      var subs := queued;
      var kept, resubmit := [], [];
      var i := 0;
      assert subs[..0] == [];
      while i < |subs|
        invariant i <= |subs| && subs == old(queued)
        invariant kept == Kept(tracker.View(), subs[..i], clock)
        invariant resubmit == Resubmitted(tracker.View(), subs[..i], clock)
        invariant reported == old(reported) + ReadyFences(tracker.View(), subs[..i])
      {
        var s := subs[i];
        assert subs[..i + 1][..i] == subs[..i];
        var ready := tracker.IsSignalled(s.fence.virtioFence);
        if ready {
          reported := reported + [s.fence];
        } else if clock.check(i) - s.timestamp >= RESPONSIVE_TIMEOUT_SEC * clock.freq {
          resubmit := resubmit + [Submission(s.fence, clock.stamp(i))];
        } else {
          kept := kept + [s];
        }
        i := i + 1;
      }
      assert subs[..|subs|] == subs;
      queued := kept + resubmit;
    }

    /** Report the fence at once if its virtio fence is signalled, otherwise queue it and make a pass. */
    method Submit(fence: Fence, now: nat, clock: Clock)
      modifies this`queued, this`reported
      ensures var t, s := tracker.View(), Submission(fence, now);
              if Query(t, fence.virtioFence) then queued == old(queued) && reported == old(reported) + [fence]
              else queued == Handled(t, old(queued) + [s], clock) &&
                   reported == old(reported) + ReadyFences(t, old(queued) + [s])
    {
      var ready := tracker.IsSignalled(fence.virtioFence);
      if ready {
        reported := reported + [fence];
      } else {
        queued := queued + [Submission(fence, now)];
        Handle(clock);
      }
    }
  }

  // ----- Runs ---------------------------------------------------------------------------------

  datatype State = State(
    t: Tracker, queued: seq<Submission>,
    // history
    signalled: set<nat>, submitted: seq<Fence>, reported: seq<Fence>)

  datatype Step =
    | Issue
    | Signal(virtioFence: nat)
    | Submit(fence: Fence, now: nat, clock: Clock)
    | Handle(clock: Clock)

  function Init(): State {
    State(Tracker(0, []), [], {}, [], [])
  }

  predicate Enabled(s: State, step: Step) {
    step.Signal? ==> step.virtioFence < s.t.next
  }

  function Apply(s: State, step: Step): State {
    match step
    case Issue => s.(t := Issued(s.t))
    case Signal(f) => s.(t := Signalled(s.t, f), signalled := s.signalled + {f})
    case Submit(fence, now, clock) =>
      if Query(s.t, fence.virtioFence)
      then s.(submitted := s.submitted + [fence], reported := s.reported + [fence])
      else Pass(Queued(s, fence, now), clock)
    case Handle(clock) => Pass(s, clock)
  }

  function Queued(s: State, fence: Fence, now: nat): State {
    s.(submitted := s.submitted + [fence], queued := s.queued + [Submission(fence, now)])
  }

  function Pass(s: State, clock: Clock): State {
    s.(queued := Handled(s.t, s.queued, clock), reported := s.reported + ReadyFences(s.t, s.queued))
  }

  predicate Run(s: State, steps: seq<Step>, s': State)
    decreases |steps|
  {
    if steps == [] then s == s'
    else Enabled(s, steps[0]) && Run(Apply(s, steps[0]), steps[1..], s')
  }

  ghost predicate Reachable(s: State) {
    exists steps :: Run(Init(), steps, s)
  }

  predicate Due(next: nat, signalled: set<nat>, fence: Fence) {
    fence.virtioFence < next && fence.virtioFence in signalled
  }

  predicate AllDue(next: nat, signalled: set<nat>, fences: seq<Fence>) {
    forall i | 0 <= i < |fences| :: Due(next, signalled, fences[i])
  }

  ghost predicate Inv(s: State) {
    && Tracks(s.t, s.signalled)
    && (forall f | f in s.signalled :: f < s.t.next)
    && multiset(s.submitted) == multiset(s.reported) + multiset(Fences(s.queued))
    && AllDue(s.t.next, s.signalled, s.reported)
  }

  lemma PassInv(s: State, clock: Clock)
    requires Inv(s)
    ensures Inv(Pass(s, clock)) && NoneReady(s.t, Pass(s, clock).queued)
  {
    PassConserves(s.t, s.queued, clock);
    ReadyAreReady(s.t, s.queued);
    var ready := ReadyFences(s.t, s.queued);
    forall i | 0 <= i < |ready| ensures Due(s.t.next, s.signalled, ready[i]) {
      QueryAgrees(s.t, s.signalled, ready[i].virtioFence);
    }
  }

  lemma QueuedInv(s: State, fence: Fence, now: nat)
    requires Inv(s)
    ensures Inv(Queued(s, fence, now))
  {
    FencesSnoc(s.queued, Submission(fence, now));
  }

  lemma SubmitInv(s: State, fence: Fence, now: nat, clock: Clock)
    requires Inv(s)
    ensures Inv(Apply(s, Submit(fence, now, clock)))
  {
    if Query(s.t, fence.virtioFence) {
      QueryAgrees(s.t, s.signalled, fence.virtioFence);
    } else {
      QueuedInv(s, fence, now);
      PassInv(Queued(s, fence, now), clock);
    }
  }

  lemma StepInv(s: State, step: Step)
    requires Inv(s) && Enabled(s, step)
    ensures Inv(Apply(s, step))
  {
    match step
    case Issue => IssuedTracks(s.t, s.signalled);
    case Signal(f) => SignalledTracks(s.t, s.signalled, f);
    case Submit(fence, now, clock) => SubmitInv(s, fence, now, clock);
    case Handle(clock) => PassInv(s, clock);
  }

  lemma {:induction false} RunInv(s: State, steps: seq<Step>, s': State)
    requires Inv(s) && Run(s, steps, s')
    ensures Inv(s')
    decreases |steps|
  {
    if steps != [] {
      StepInv(s, steps[0]);
      RunInv(Apply(s, steps[0]), steps[1..], s');
    }
  }

  /**
   Each submitted DXGK fence is either still queued or has been reported, once; it is reported only
   after its virtio fence was issued and signalled; and `query` is exactly that condition.
   */
  lemma ReportedOnceWhenDue(s: State, fence: Fence)
    requires Reachable(s)
    ensures multiset(s.submitted)[fence] == multiset(s.reported)[fence] + multiset(Fences(s.queued))[fence]
    ensures fence in s.reported ==> Due(s.t.next, s.signalled, fence)
    ensures Query(s.t, fence.virtioFence) <==> Due(s.t.next, s.signalled, fence)
  {
    var steps :| Run(Init(), steps, s);
    RunInv(Init(), steps, s);
    QueryAgrees(s.t, s.signalled, fence.virtioFence);
  }

  /** After a pass nothing that is due is left in the queue. */
  lemma PassLeavesNoneDue(s: State, clock: Clock, i: nat)
    requires Reachable(s) && i < |Apply(s, Handle(clock)).queued|
    ensures !Due(s.t.next, s.signalled, Apply(s, Handle(clock)).queued[i].fence)
  {
    var steps :| Run(Init(), steps, s);
    RunInv(Init(), steps, s);
    PassInv(s, clock);
    QueryAgrees(s.t, s.signalled, Apply(s, Handle(clock)).queued[i].fence.virtioFence);
  }
}
