/**
 A queue made of a bounded fast part and an unbounded overflow part: first as an object whose calls
 do not overlap, then with the steps of concurrent pushes and of one consumer's pops interleaved.
 */
module TwoLevelQueue {
  import opened Collections

  class ArraySegQueue<T> {
    const cap: nat
    var fast: seq<T>
    var slow: seq<T>

    ghost predicate Ok()
      reads this
    {
      0 < cap && |fast| <= cap && (slow != [] ==> |fast| == cap)
    }

    ghost function Contents(): seq<T>
      reads this
    {
      fast + slow
    }

    constructor (cap: nat)
      requires cap > 0
      ensures Ok() && Contents() == [] && this.cap == cap
    {
      this.cap, fast, slow := cap, [], [];
    }

    method Push(value: T)
      requires Ok()
      modifies this
      ensures Ok() && Contents() == old(Contents()) + [value]
    {
      if |fast| < cap {
        fast := fast + [value];
      } else {
        slow := slow + [value];
      }
      assert Contents() == old(Contents()) + [value];
    }

    method FastPop() returns (r: Option<T>)
      modifies this`fast
      ensures if old(fast) == [] then r == None && fast == [] else r == Some(old(fast)[0]) && fast == old(fast)[1..]
    {
      if fast == [] {
        return None;
      }
      r := Some(fast[0]);
      fast := fast[1..];
    }

    /** Push at the end, and return the oldest element if there was no room. */
    method ForcePush(value: T) returns (evicted: Option<T>)
      requires 0 < cap
      modifies this`fast
      ensures if |old(fast)| < cap then evicted == None && fast == old(fast) + [value]
              else evicted == Some(old(fast)[0]) && fast == old(fast)[1..] + [value]
    {
      if |fast| < cap {
        fast := fast + [value];
        return None;
      }
      evicted := Some(fast[0]);
      fast := fast[1..] + [value];
    }

    /**
     Take the head of the fast part extended by the head of the overflow; when the overflow is used
     only while the fast part is full, that is the oldest element of all.
     */
    method Pop() returns (r: Option<T>)
      requires 0 < cap && |fast| <= cap
      modifies this
      ensures |fast| <= cap
      ensures var moved := old(fast + if slow == [] then [] else [slow[0]]);
              if moved == [] then r == None && fast == [] else r == Some(moved[0]) && fast == moved[1..]
      ensures slow == old(if slow == [] then [] else slow[1..])
      ensures old(Ok()) ==>
                && Ok()
                && if old(Contents()) == [] then r == None && Contents() == []
                   else r == Some(old(Contents())[0]) && Contents() == old(Contents())[1..]
    {
      if slow != [] {
        var v := slow[0];
        slow := slow[1..];
        r := ForcePush(v);
        if r == None {
          r := FastPop();
        }
      } else {
        r := FastPop();
      }
      assert old(Ok()) && old(Contents()) != [] ==> Contents() == old(Contents())[1..];
    }
  }

  // ----- Interleaved steps --------------------------------------------------------------------

  datatype Consumer = Idle | Carrying(v: nat) | Draining

  datatype State = State(
    cap: nat, fast: seq<nat>, slow: seq<nat>,
    held: multiset<nat>,  // values that found the fast part full and are on their way to the overflow
    consumer: Consumer,
    // history
    begun: seq<nat>, entered: seq<nat>, popped: seq<nat>)

  datatype Step =
    | FastPush(v: nat)  // a push that finds room in the fast part
    | Overflow(v: nat)  // a push that does not
    | SlowPush(v: nat)  // its second step
    | SlowPop           // the consumer looks at the overflow first
    | ForcePush         // it moves what it found there into the fast part
    | FastPop           // or takes from the fast part

  function Init(cap: nat): State {
    State(cap, [], [], multiset{}, Idle, [], [], [])
  }

  predicate Enabled(s: State, step: Step) {
    match step
    case FastPush(_) => |s.fast| < s.cap
    case Overflow(_) => |s.fast| >= s.cap
    case SlowPush(v) => v in s.held
    case SlowPop => s.consumer.Idle?
    case ForcePush => s.consumer.Carrying?
    case FastPop => s.consumer.Draining?
  }

  function Apply(s: State, step: Step): State
    requires Enabled(s, step)
  {
    match step
    case FastPush(v) => s.(fast := s.fast + [v], begun := s.begun + [v], entered := s.entered + [v])
    case Overflow(v) => s.(held := s.held + multiset{v}, begun := s.begun + [v])
    case SlowPush(v) => s.(held := s.held - multiset{v}, slow := s.slow + [v], entered := s.entered + [v])
    case SlowPop =>
      if s.slow == [] then s.(consumer := Draining) else s.(slow := s.slow[1..], consumer := Carrying(s.slow[0]))
    case ForcePush =>
      if |s.fast| < s.cap || s.fast == [] then s.(fast := s.fast + [s.consumer.v], consumer := Draining)
      else s.(fast := s.fast[1..] + [s.consumer.v], popped := s.popped + [s.fast[0]], consumer := Idle)
    case FastPop =>
      if s.fast == [] then s.(consumer := Idle)
      else s.(fast := s.fast[1..], popped := s.popped + [s.fast[0]], consumer := Idle)
  }

  predicate Run(s: State, steps: seq<Step>, s': State)
    decreases |steps|
  {
    if steps == [] then s == s'
    else Enabled(s, steps[0]) && Run(Apply(s, steps[0]), steps[1..], s')
  }

  function Carried(c: Consumer): seq<nat> {
    if c.Carrying? then [c.v] else []
  }

  ghost predicate Reachable(cap: nat, s: State) {
    exists steps :: Run(Init(cap), steps, s)
  }

  function Count(t: seq<nat>, x: nat): nat {
    if t == [] then 0 else (if t[0] == x then 1 else 0) + Count(t[1..], x)
  }

  lemma {:induction false} CountSnoc(t: seq<nat>, v: nat, x: nat)
    ensures Count(t + [v], x) == Count(t, x) + if v == x then 1 else 0
  {
    if t != [] {
      CountSnoc(t[1..], v, x);
      assert (t + [v])[1..] == t[1..] + [v];
    }
  }

  /** Occurrences of `x` in the queue, on the way into or between its parts, or already popped. */
  function Occurrences(s: State, x: nat): nat {
    Count(s.popped, x) + Count(s.fast, x) + Count(Carried(s.consumer), x) + Count(s.slow, x) + s.held[x]
  }

  lemma ForcePushConserved(s: State, x: nat)
    requires Enabled(s, ForcePush)
    ensures Occurrences(Apply(s, ForcePush), x) == Occurrences(s, x)
  {
    CountSnoc([], s.consumer.v, x);
    assert [] + [s.consumer.v] == [s.consumer.v];
    CountSnoc(s.fast, s.consumer.v, x);
    if s.fast != [] {
      CountSnoc(s.fast[1..], s.consumer.v, x);
      CountSnoc(s.popped, s.fast[0], x);
    }
  }

  lemma StepConserved(s: State, step: Step, x: nat)
    requires Enabled(s, step) && Count(s.begun, x) == Occurrences(s, x)
    ensures Count(Apply(s, step).begun, x) == Occurrences(Apply(s, step), x)
  {
    match step
    case FastPush(v) =>
      CountSnoc(s.begun, v, x);
      CountSnoc(s.fast, v, x);
    case Overflow(v) => CountSnoc(s.begun, v, x);
    case SlowPush(v) => CountSnoc(s.slow, v, x);
    case SlowPop =>
      if s.slow != [] {
        CountSnoc([], s.slow[0], x);
        assert [] + [s.slow[0]] == [s.slow[0]];
      }
    case ForcePush => ForcePushConserved(s, x);
    case FastPop =>
      if s.fast != [] {
        CountSnoc(s.popped, s.fast[0], x);
      }
  }

  lemma {:induction false} RunConserved(s: State, steps: seq<Step>, s': State, x: nat)
    requires Run(s, steps, s') && Count(s.begun, x) == Occurrences(s, x)
    ensures Count(s'.begun, x) == Occurrences(s', x)
    decreases |steps|
  {
    if steps != [] {
      StepConserved(s, steps[0], x);
      RunConserved(Apply(s, steps[0]), steps[1..], s', x);
    }
  }

  /** No interleaving loses or duplicates an element. */
  lemma NothingLost(cap: nat, s: State, x: nat)
    requires Reachable(cap, s)
    ensures Count(s.begun, x) == Occurrences(s, x)
  {
    var steps :| Run(Init(cap), steps, s);
    RunConserved(Init(cap), steps, s, x);
  }

  // ----- Order --------------------------------------------------------------------------------

  predicate InOrder(s: State) {
    s.entered == s.popped + s.fast + Carried(s.consumer) + s.slow
  }

  /** In order, and the overflow is in use only while the fast part is full. */
  predicate Ordered(s: State) {
    && InOrder(s)
    && |s.fast| <= s.cap && 0 < s.cap
    && (s.slow != [] || s.consumer.Carrying? || s.held != multiset{} ==> |s.fast| == s.cap)
  }

  /** No push has overflowed, or is about to. */
  predicate Calm(s: State) {
    s.held == multiset{} && s.slow == []
  }

  predicate CalmRun(s: State, steps: seq<Step>, s': State)
    decreases |steps|
  {
    if steps == [] then s == s'
    else Enabled(s, steps[0]) && (steps[0].FastPop? ==> Calm(s)) && CalmRun(Apply(s, steps[0]), steps[1..], s')
  }

  lemma StepOrdered(s: State, step: Step)
    requires Ordered(s) && Enabled(s, step) && (step.FastPop? ==> Calm(s))
    ensures Ordered(Apply(s, step))
  {
    assert s.fast != [] ==> s.fast == [s.fast[0]] + s.fast[1..];
    assert s.slow != [] ==> s.slow == [s.slow[0]] + s.slow[1..];
  }

  lemma {:induction false} CalmRunOrdered(s: State, steps: seq<Step>, s': State)
    requires Ordered(s) && CalmRun(s, steps, s')
    ensures Ordered(s')
    decreases |steps|
  {
    if steps != [] {
      StepOrdered(s, steps[0]);
      CalmRunOrdered(Apply(s, steps[0]), steps[1..], s');
    }
  }

  /** First in, first out, on every run whose pops take from the fast part only while nothing overflows. */
  lemma FirstInFirstOut(cap: nat, steps: seq<Step>, s: State)
    requires cap > 0 && CalmRun(Init(cap), steps, s)
    ensures s.popped <= s.entered && InOrder(s)
  {
    CalmRunOrdered(Init(cap), steps, s);
  }

  lemma RunTwo(s: State, a: Step, b: Step)
    requires Enabled(s, a) && Enabled(Apply(s, a), b)
    ensures Run(s, [a, b], Apply(Apply(s, a), b))
  {
    assert [a, b][1..] == [b] && [b][1..] == [];
    assert Run(Apply(s, a), [b], Apply(Apply(s, a), b));
  }

  lemma OverflowOvertaken(s: State, w: nat)
    requires Ordered(s) && Enabled(s, FastPop) && s.slow != [] && w !in s.slow
    ensures exists steps, s' :: Run(s, steps, s') && !InOrder(s')
  {
    RunTwo(s, FastPop, FastPush(w));
    Overtaken(s.popped, s.fast, s.slow, w);
  }

  lemma HeldOvertaken(s: State, v: nat, w: nat)
    requires Ordered(s) && Enabled(s, FastPop) && s.slow == [] && v in s.held && w != v
    ensures exists steps, s' :: Run(s, steps, s') && !InOrder(s')
  {
    var s1 := Apply(s, FastPop);
    RunTwo(s1, SlowPush(v), FastPush(w));
    assert Run(s, [FastPop] + [SlowPush(v), FastPush(w)], Apply(Apply(s1, SlowPush(v)), FastPush(w)));
    Overtaken(s.popped, s.fast, [v], w);
    assert s.slow + [v] == [v] && s.popped + s.fast + [] + [] == s.popped + s.fast;
  }

  /** Any other take from the fast part lets a later push overtake the overflow. */
  lemma OtherwiseOvertaken(s: State, w: nat)
    requires Ordered(s) && Enabled(s, FastPop) && !Calm(s) && w !in s.held && w !in s.slow
    ensures exists steps, s' :: Run(s, steps, s') && !InOrder(s')
  {
    if s.slow != [] {
      OverflowOvertaken(s, w);
    } else {
      var v :| v in s.held;
      HeldOvertaken(s, v, w);
    }
  }

  lemma Overtaken(popped: seq<nat>, fast: seq<nat>, slow: seq<nat>, w: nat)
    requires fast != [] && slow != [] && w !in slow
    ensures popped + fast + [] + slow + [w] != popped + [fast[0]] + (fast[1..] + [w]) + [] + slow
    ensures popped + fast + slow + [w] != popped + [fast[0]] + (fast[1..] + [w]) + [] + slow
  {
    var n := |popped + fast|;
    assert (popped + fast + [] + slow + [w])[n] == slow[0] == (popped + fast + slow + [w])[n];
    assert (popped + [fast[0]] + (fast[1..] + [w]) + [] + slow)[n] == w;
  }

  lemma {:induction false} RunExtends(s: State, steps: seq<Step>, s': State, step: Step)
    requires Run(s, steps, s') && Enabled(s', step)
    ensures Run(s, steps + [step], Apply(s', step))
    decreases |steps|
  {
    if steps == [] {
      assert [step][1..] == [];
      assert Run(Apply(s, step), [], Apply(s, step));
    } else {
      RunExtends(Apply(s, steps[0]), steps[1..], s', step);
      assert (steps + [step])[1..] == steps[1..] + [step];
    }
  }

  lemma ReachableStep(cap: nat, s: State, step: Step, s': State)
    requires Reachable(cap, s) && Enabled(s, step) && s' == Apply(s, step)
    ensures Reachable(cap, s')
  {
    var steps :| Run(Init(cap), steps, s);
    RunExtends(Init(cap), steps, s, step);
  }

  /** The producer has pushed 0 and found no room for 1; the consumer has taken 0 meanwhile. */
  lemma BeforeOvertaking()
    ensures Reachable(1, State(1, [], [], multiset{1}, Idle, [0, 1], [0], [0]))
  {
    var none: multiset<nat> := multiset{};
    var s0 := Init(1);
    assert Run(s0, [], s0);
    var s1 := State(1, [0], [], none, Idle, [0], [0], []);
    ReachableStep(1, s0, FastPush(0), s1);
    var s2 := State(1, [0], [], multiset{1}, Idle, [0, 1], [0], []);
    ReachableStep(1, s1, Overflow(1), s2);
    var s3 := State(1, [0], [], multiset{1}, Draining, [0, 1], [0], []);
    ReachableStep(1, s2, SlowPop, s3);
    var s4 := State(1, [], [], multiset{1}, Idle, [0, 1], [0], [0]);
    ReachableStep(1, s3, FastPop, s4);
  }

  /** One producer pushes 0, 1 and 2 one after the other, and 2 comes out before 1. */
  lemma OvertakingRun()
    ensures Reachable(1, State(1, [1], [], multiset{}, Idle, [0, 1, 2], [0, 1, 2], [0, 2]))
  {
    var none: multiset<nat> := multiset{};
    var s4 := State(1, [], [], multiset{1}, Idle, [0, 1], [0], [0]);
    BeforeOvertaking();
    var s5 := State(1, [], [1], none, Idle, [0, 1], [0, 1], [0]);
    ReachableStep(1, s4, SlowPush(1), s5);
    var s6 := State(1, [2], [1], none, Idle, [0, 1, 2], [0, 1, 2], [0]);
    ReachableStep(1, s5, FastPush(2), s6);
    var s7 := State(1, [2], [], none, Carrying(1), [0, 1, 2], [0, 1, 2], [0]);
    ReachableStep(1, s6, SlowPop, s7);
    ReachableStep(1, s7, ForcePush, State(1, [1], [], none, Idle, [0, 1, 2], [0, 1, 2], [0, 2]));
  }
}
