/**
 Context ids: an allocator that hands out fresh numbers and recycles freed ones, and the life of a
 context id from `context_create` to the answer to its CTX_DESTROY.
 */
module ContextIds {
  import opened Collections

  const U32_MAX := 0xFFFF_FFFF
  const FIRST := 1

  /** What `fetch_add(1)` leaves in a 32-bit counter. */
  function WrappingInc(n: nat): nat {
    if n == U32_MAX then 0 else n + 1
  }

  // ----- The allocator, one call at a time ----------------------------------------------------

  class SimpleIdAllocator {
    var next: nat
    var free: seq<nat>
    ghost var issued: set<nat>  // handed out and not given back

    ghost predicate Ok()
      reads this
    {
      && FIRST <= next <= U32_MAX
      && (forall i, j | 0 <= i < j < |free| :: free[i] != free[j])
      && (forall id :: FIRST <= id < next <==> (id in free || id in issued))
      && (forall id | id in free :: id !in issued)
    }

    constructor ()
      ensures Ok() && issued == {}
    {
      next, free, issued := FIRST, [], {};
    }

    /** An id nobody holds, or none when all of them are held. */
    method Next() returns (r: Option<nat>)
      requires Ok()
      modifies this
      ensures Ok()
      ensures match r
              case Some(id) => FIRST <= id < U32_MAX && id !in old(issued) && issued == old(issued) + {id}
              case None => issued == old(issued) && forall id | FIRST <= id < U32_MAX :: id in issued
    {
      if free != [] {
        var id := free[0];
        free := free[1..];
        assert old(free) == [id] + free;
        issued := issued + {id};
        forall x ensures FIRST <= x < next <==> (x in free || x in issued) {
          assert x in old(free) <==> x == id || x in free;
        }
        assert id !in free;
        return Some(id);
      }
      var id := next;
      next := WrappingInc(next);
      if id != U32_MAX {
        issued := issued + {id};
        return Some(id);
      }
      next := U32_MAX;
      return None;
    }

    method Free(id: nat)
      requires Ok() && id in issued
      modifies this
      ensures Ok() && issued == old(issued) - {id}
    {
      free := free + [id];
      issued := issued - {id};
    }
  }

  // ----- Many threads -------------------------------------------------------------------------

  datatype State = State(
    next: nat, free: seq<nat>,
    storing: nat,             // calls between an exhausted `fetch_add` and their `store`
    creating: multiset<nat>,  // drawn, CTX_CREATE not answered
    live: multiset<nat>,
    dying: multiset<nat>,     // CTX_DESTROY not answered
    leaked: multiset<nat>,    // creation failed; the id is not given back
    drawn: nat)               // history: ids drawn from the counter

  datatype Step =
    | Reuse                   // take a freed id
    | Draw                    // `fetch_add` on the counter; `NonZero::new` turns id 0 into none
    | Saturate                // the `store` after an exhausted one
    | Created(id: nat)
    | Refused(id: nat)        // name too long, or an error response
    | Destroy(id: nat)
    | Destroyed(id: nat)      // the answer to CTX_DESTROY

  function Init(): State {
    State(FIRST, [], 0, multiset{}, multiset{}, multiset{}, multiset{}, 0)
  }

  predicate Enabled(s: State, step: Step) {
    match step
    case Reuse => s.free != []
    case Draw => true
    case Saturate => s.storing > 0
    case Created(id) => id in s.creating
    case Refused(id) => id in s.creating
    case Destroy(id) => id in s.live
    case Destroyed(id) => id in s.dying
  }

  function Apply(s: State, step: Step): State
    requires Enabled(s, step)
  {
    match step
    case Reuse => s.(free := s.free[1..], creating := s.creating + multiset{s.free[0]})
    case Draw =>
      var s1 := s.(next := WrappingInc(s.next));
      if s.next == U32_MAX then s1.(storing := s.storing + 1)
      else if s.next == 0 then s1
      else s1.(creating := s.creating + multiset{s.next}, drawn := s.drawn + 1)
    case Saturate => s.(next := U32_MAX, storing := s.storing - 1)
    case Created(id) => s.(creating := s.creating - multiset{id}, live := s.live + multiset{id})
    case Refused(id) => s.(creating := s.creating - multiset{id}, leaked := s.leaked + multiset{id})
    case Destroy(id) => s.(live := s.live - multiset{id}, dying := s.dying + multiset{id})
    case Destroyed(id) => s.(dying := s.dying - multiset{id}, free := s.free + [id])
  }

  predicate Run(s: State, steps: seq<Step>, s': State)
    decreases |steps|
  {
    if steps == [] then s == s'
    else Enabled(s, steps[0]) && Run(Apply(s, steps[0]), steps[1..], s')
  }

  /** An exhausted draw awaits its store, and meanwhile the counter has wrapped past zero. */
  predicate Wrapped(s: State) {
    s.storing > 0 && s.next > 0
  }

  /** No thread draws from a wrapped counter. */
  predicate Careful(s: State, steps: seq<Step>)
    decreases |steps|
  {
    steps == [] ||
    ((steps[0].Draw? ==> !Wrapped(s)) && Enabled(s, steps[0]) && Careful(Apply(s, steps[0]), steps[1..]))
  }

  /** How often `id` is held by someone. */
  function Holders(s: State, id: nat): nat {
    s.creating[id] + s.live[id] + s.dying[id] + s.leaked[id]
  }

  function Places(s: State, id: nat): nat {
    Holders(s, id) + multiset(s.free)[id]
  }

  /** Every id drawn so far is in one place: free, or held once. */
  predicate Placed(s: State, id: nat) {
    Places(s, id) == if FIRST <= id <= s.drawn then 1 else 0
  }

  predicate CounterOk(s: State) {
    if s.storing == 0 then s.next == s.drawn + 1 <= U32_MAX
    else s.storing == 1 && s.next <= 1 && s.drawn + 1 == U32_MAX
  }

  ghost predicate Inv(s: State) {
    CounterOk(s) && forall id: nat :: Placed(s, id)
  }

  lemma DrawPlaced(s: State, id: nat)
    requires CounterOk(s) && Placed(s, id) && !Wrapped(s)
    ensures Placed(Apply(s, Draw), id)
  {
    DrawPlaces(s, id);
  }

  /** A draw puts one more id somewhere, unless the counter is exhausted or at zero. */
  lemma DrawPlaces(s: State, id: nat)
    requires s.next <= U32_MAX
    ensures Places(Apply(s, Draw), id) == Places(s, id) + if id == s.next && 0 < id < U32_MAX then 1 else 0
  {
    assert 0 < s.next < U32_MAX ==> Apply(s, Draw).creating == s.creating + multiset{s.next};
  }

  /** All other steps move an id from one place to another. */
  lemma MovePlaces(s: State, step: Step, id: nat)
    requires Enabled(s, step) && !step.Draw?
    ensures Places(Apply(s, step), id) == Places(s, id) && Apply(s, step).drawn == s.drawn
  {
    if step.Reuse? {
      assert s.free == [s.free[0]] + s.free[1..];
    }
  }

  lemma StepPlaced(s: State, step: Step, id: nat)
    requires CounterOk(s) && Placed(s, id) && Enabled(s, step) && (step.Draw? ==> !Wrapped(s))
    ensures Placed(Apply(s, step), id)
  {
    match step
    case Draw => DrawPlaced(s, id);
    case _ => MovePlaces(s, step, id);
  }

  lemma StepInv(s: State, step: Step)
    requires Inv(s) && Enabled(s, step) && (step.Draw? ==> !Wrapped(s))
    ensures Inv(Apply(s, step))
  {
    forall id: nat ensures Placed(Apply(s, step), id) {
      assert Placed(s, id);
      StepPlaced(s, step, id);
    }
  }

  lemma {:induction false} RunInv(s: State, steps: seq<Step>, s': State)
    requires Inv(s) && Run(s, steps, s') && Careful(s, steps)
    ensures Inv(s')
    decreases |steps|
  {
    if steps != [] {
      StepInv(s, steps[0]);
      RunInv(Apply(s, steps[0]), steps[1..], s');
    }
  }

  function Draws(steps: seq<Step>): nat {
    if steps == [] then 0 else (if steps[0].Draw? then 1 else 0) + Draws(steps[1..])
  }

  /** How many draws the counter has seen, counting on through the wrap. */
  function Spent(s: State): nat {
    if s.storing == 0 then s.next else U32_MAX + 1 + s.next
  }

  /** A run that draws from the counter at most 2^32 times is careful. */
  lemma {:induction false} FewDrawsCareful(s: State, steps: seq<Step>, s': State)
    requires Run(s, steps, s') && CounterOk(s) && Spent(s) + Draws(steps) <= U32_MAX + 2
    ensures Careful(s, steps) && CounterOk(s') && Spent(s') <= Spent(s) + Draws(steps)
    decreases |steps|
  {
    if steps != [] {
      var s1 := Apply(s, steps[0]);
      assert CounterOk(s1) && Spent(s1) <= Spent(s) + if steps[0].Draw? then 1 else 0;
      FewDrawsCareful(s1, steps[1..], s');
    }
  }

  /**
   On careful runs, and so on every run drawing at most 2^32 times, the id handed out is non-zero,
   below `u32::MAX`, and held by nobody: not live, and not awaiting the answer to its CTX_DESTROY.
   */
  lemma IssuedIdUnused(steps: seq<Step>, s: State, step: Step, id: nat)
    requires Run(Init(), steps, s) && (step.Reuse? || step.Draw?) && Enabled(s, step)
    requires (Careful(Init(), steps) && (step.Draw? ==> !Wrapped(s))) || Draws(steps) <= U32_MAX
    requires Apply(s, step).creating[id] > s.creating[id]
    ensures FIRST <= id < U32_MAX && Holders(s, id) == 0
  {
    if Draws(steps) <= U32_MAX {
      FewDrawsCareful(Init(), steps, s);
    }
    RunInv(Init(), steps, s);
    assert Placed(s, id);
    assert step.Reuse? ==> id == s.free[0] && id in multiset(s.free);
  }

  /** No id is held twice, or held and free at once. */
  ghost predicate Unique(s: State) {
    forall id: nat :: Places(s, id) <= 1
  }

  /**
   A draw leaves every id in at most one place exactly when the counter has not wrapped; and it hands
   out an id somebody holds exactly when it has, and id 1, which it then gives, is held.
   */
  lemma DrawGoodExactly(s: State)
    requires Inv(s)
    ensures Unique(Apply(s, Draw)) <==> !Wrapped(s)
    ensures (exists id: nat :: Apply(s, Draw).creating[id] > s.creating[id] && Holders(s, id) > 0)
            <==> Wrapped(s) && Holders(s, FIRST) > 0
  {
    forall id: nat
      ensures Places(Apply(s, Draw), id) == Places(s, id) + if id == s.next && 0 < id < U32_MAX then 1 else 0
      ensures Places(s, id) == if FIRST <= id <= s.drawn then 1 else 0
    {
      DrawPlaces(s, id);
      assert Placed(s, id);
    }
    assert Wrapped(s) ==> Places(Apply(s, Draw), FIRST) == 2;
    assert Wrapped(s) ==> Apply(s, Draw).creating[FIRST] > s.creating[FIRST];
    if id: nat :| Apply(s, Draw).creating[id] > s.creating[id] && Holders(s, id) > 0 {
      assert Placed(s, id);
    }
  }

  ghost predicate UniqueThroughout(s: State, steps: seq<Step>)
    decreases |steps|
  {
    Unique(s) && (steps == [] || (Enabled(s, steps[0]) && UniqueThroughout(Apply(s, steps[0]), steps[1..])))
  }

  /** A run keeps ids unique in all its states exactly when nobody draws from a wrapped counter. */
  lemma {:induction false} UniqueExactly(s: State, steps: seq<Step>, s': State)
    requires Inv(s) && Run(s, steps, s')
    ensures UniqueThroughout(s, steps) <==> Careful(s, steps)
    decreases |steps|
  {
    forall id: nat ensures Places(s, id) <= 1 {
      assert Placed(s, id);
    }
    if steps != [] {
      var s1 := Apply(s, steps[0]);
      if steps[0].Draw? && Wrapped(s) {
        DrawGoodExactly(s);
        assert !UniqueThroughout(s1, steps[1..]);
      } else {
        StepInv(s, steps[0]);
        UniqueExactly(s1, steps[1..], s');
      }
    }
  }

  // ----- Drawing past the end -----------------------------------------------------------------

  lemma RunOne(s: State, step: Step)
    requires Enabled(s, step)
    ensures Run(s, [step], Apply(s, step))
  {
    var s1 := Apply(s, step);
    assert [step][1..] == [] && Run(s1, [], s1);
  }

  lemma {:induction false} RunExtends(s: State, steps: seq<Step>, s': State, step: Step)
    requires Run(s, steps, s') && Enabled(s', step)
    ensures Run(s, steps + [step], Apply(s', step))
    decreases |steps|
  {
    if steps == [] {
      assert steps + [step] == [step];
      RunOne(s, step);
    } else {
      var s1, more := Apply(s, steps[0]), steps + [step];
      RunExtends(s1, steps[1..], s', step);
      assert more[0] == steps[0] && more[1..] == steps[1..] + [step];
      assert Run(s1, more[1..], Apply(s', step));
    }
  }

  lemma {:induction false} DrawsSnoc(steps: seq<Step>)
    ensures Draws(steps + [Draw]) == Draws(steps) + 1
  {
    if steps != [] {
      DrawsSnoc(steps[1..]);
      assert (steps + [Draw])[1..] == steps[1..] + [Draw];
    }
  }

  lemma DrawOnce(steps: seq<Step>, s: State)
    requires Run(Init(), steps, s)
    ensures Run(Init(), steps + [Draw], Apply(s, Draw)) && Draws(steps + [Draw]) == Draws(steps) + 1
  {
    RunExtends(Init(), steps, s, Draw);
    DrawsSnoc(steps);
  }

  lemma {:induction false} DrawMany(n: nat) returns (steps: seq<Step>, s: State)
    requires n < U32_MAX
    ensures Run(Init(), steps, s) && s.next == n + 1 && s.storing == 0 && Draws(steps) == n
    ensures n > 0 ==> 1 in s.creating
  {
    if n == 0 {
      steps, s := [], Init();
    } else {
      var before, t := DrawMany(n - 1);
      DrawOnce(before, t);
      steps, s := before + [Draw], Apply(t, Draw);
    }
  }

  /** 2^32 + 1 draws, the last three at once past the end: the last gets id 1, which is still held. */
  lemma ExhaustedDrawsCollide()
    ensures exists steps, s :: Run(Init(), steps, s) && Draws(steps) == U32_MAX + 2 && s.creating[1] > 1
  {
    var steps, s := DrawMany(U32_MAX - 1);
    DrawOnce(steps, s);
    var s1 := Apply(s, Draw);
    DrawOnce(steps + [Draw], s1);
    var s2 := Apply(s1, Draw);
    DrawOnce(steps + [Draw] + [Draw], s2);
    assert Apply(s2, Draw).creating[1] > 1;
  }
}
