/** Sixteen-bit ring indices, the unbounded counters they are cut from, and the ring slots they name. */
module RingIndices {

  /** Ring indices are 16-bit and wrap. */
  const IDX_MODULUS := 0x1_0000

  /** `wrapping_add(1)` on a ring index. */
  function WrappingInc(idx: nat): nat {
    if idx + 1 < IDX_MODULUS then idx + 1 else 0
  }

  /** A ring index has sixteen bits. */
  lemma IndexWraps()
    ensures WrappingInc(0xFFFE) == 0xFFFF && WrappingInc(0xFFFF) == 0
  {
  }

  predicate IsPowerOfTwo(n: nat) {
    n == 1 || (n > 0 && n % 2 == 0 && IsPowerOfTwo(n / 2))
  }

  /** A power of two that fits in 16 bits. */
  predicate IsQueueSize(size: nat) {
    size < IDX_MODULUS && IsPowerOfTwo(size)
  }

  /** The ring slot of index `n`. */
  function Slot(n: nat, size: nat): (slot: nat)
    requires size > 0
    ensures slot < size
  {
    if n < size then n else Slot(n - size, size)
  }

  lemma {:induction false} SlotIsRemainder(n: nat, size: nat)
    requires size > 0
    ensures Slot(n, size) == n % size
  {
    if n >= size {
      SlotIsRemainder(n - size, size);
      var k := (n - size) / size;
      assert n - size == k * size + (n - size) % size;
      RemainderUnique(n, k + 1, (n - size) % size, size);
    } else {
      RemainderUnique(n, 0, n, size);
    }
  }

  lemma RemainderUnique(x: nat, k: int, r: nat, d: nat)
    requires r < d && x == k * d + r
    ensures x % d == r
  {
    var m := k - x / d;
    assert m * d == x % d - r by {
      assert x == (x / d) * d + x % d;
      assert m * d == k * d - (x / d) * d;
    }
    assert m >= 1 ==> m * d >= d;
    assert m <= -1 ==> m * d <= -1 * d;
  }

  /** Bitwise `&`. */
  function BitAnd(a: nat, b: nat): nat {
    if a == 0 || b == 0 then 0 else (a % 2) * (b % 2) + 2 * BitAnd(a / 2, b / 2)
  }

  lemma {:induction false} SlotHalves(n: nat, half: nat)
    requires half > 0
    ensures Slot(n, 2 * half) == n % 2 + 2 * Slot(n / 2, half)
  {
    if n >= 2 * half {
      SlotHalves(n - 2 * half, half);
      assert (n - 2 * half) / 2 == n / 2 - half;
    }
  }

  /** Masking with `size - 1` gives the ring slot. */
  lemma {:induction false} MaskIsSlot(n: nat, size: nat)
    requires IsPowerOfTwo(size)
    ensures BitAnd(n, size - 1) == Slot(n, size)
    decreases size
  {
    if size == 1 {
      SlotIsRemainder(n, 1);
    } else {
      var half := size / 2;
      MaskIsSlot(n / 2, half);
      SlotHalves(n, half);
      assert (size - 1) % 2 == 1 && (size - 1) / 2 == half - 1;
    }
  }

  /** A counter cut to 16 bits. */
  function Cut(n: nat): (idx: nat)
    ensures idx < IDX_MODULUS
  {
    if n < IDX_MODULUS then n else Cut(n - IDX_MODULUS)
  }

  lemma {:induction false} DoubleAtMost(size: nat, total: nat)
    requires IsPowerOfTwo(size) && IsPowerOfTwo(total) && size < total
    ensures 2 * size <= total
  {
    if size > 1 {
      DoubleAtMost(size / 2, total / 2);
    }
  }

  /** Going round the ring any power-of-two multiple of its size comes back to the same slot. */
  lemma {:induction false} SlotShift(n: nat, size: nat, total: nat)
    requires IsPowerOfTwo(size) && IsPowerOfTwo(total) && size <= total
    ensures Slot(n + total, size) == Slot(n, size)
    decreases total
  {
    if size < total {
      var half := total / 2;
      DoubleAtMost(size, total);
      SlotShift(n + half, size, half);
      SlotShift(n, size, half);
      assert n + half + half == n + total;
    }
  }

  lemma ModulusIsPower()
    ensures IsPowerOfTwo(IDX_MODULUS)
  {
    assert IsPowerOfTwo(0x10);
    assert IsPowerOfTwo(0x100);
    assert IsPowerOfTwo(0x1000);
  }

  /** Cutting to 16 bits first does not change the ring slot. */
  lemma {:induction false} SlotOfCut(n: nat, size: nat)
    requires IsQueueSize(size)
    ensures Slot(Cut(n), size) == Slot(n, size)
  {
    if n >= IDX_MODULUS {
      ModulusIsPower();
      SlotShift(n - IDX_MODULUS, size, IDX_MODULUS);
      SlotOfCut(n - IDX_MODULUS, size);
    }
  }

  /** Two counters less than a full turn apart share a slot only if they are equal. */
  lemma {:induction false} SlotsDiffer(a: nat, b: nat, size: nat)
    requires size > 0 && a < b < a + size
    ensures Slot(a, size) != Slot(b, size)
  {
    if a >= size {
      SlotsDiffer(a - size, b - size, size);
    }
  }

  /** Less than a full turn of the index apart, equal cuts mean equal counters. */
  lemma {:induction false} CutsAgree(a: nat, b: nat)
    requires a <= b < a + IDX_MODULUS
    ensures Cut(a) == Cut(b) <==> a == b
  {
    if a >= IDX_MODULUS {
      CutsAgree(a - IDX_MODULUS, b - IDX_MODULUS);
    }
  }

  lemma {:induction false} CutSucc(n: nat)
    ensures WrappingInc(Cut(n)) == Cut(n + 1)
  {
    if n >= IDX_MODULUS {
      CutSucc(n - IDX_MODULUS);
    }
  }

  lemma {:induction false} CutIsRemainder(n: nat)
    ensures Cut(n) == n % IDX_MODULUS
  {
    if n >= IDX_MODULUS {
      CutIsRemainder(n - IDX_MODULUS);
    }
  }

  /** `a.wrapping_sub(b)` on ring indices. */
  function WrappingSub(a: nat, b: nat): int {
    if a >= b then a - b else a + IDX_MODULUS - b
  }

  /** The distance between two counters less than a full turn apart can be read off their indices. */
  lemma {:induction false} CutDistance(a: nat, b: nat)
    requires a <= b < a + IDX_MODULUS
    ensures WrappingSub(Cut(b), Cut(a)) == b - a
  {
    if a >= IDX_MODULUS {
      CutDistance(a - IDX_MODULUS, b - IDX_MODULUS);
    }
  }

  /**
   Sections 2.6.7 and 2.6.10 of VirtIO v1.1: moving an index from `previous` to `current` passes the index
   `event` whose use the other side asked to be told of.
   */
  predicate NeedEvent(event: nat, current: nat, previous: nat) {
    WrappingSub(current, WrappingInc(event)) < WrappingSub(current, previous)
  }

  lemma EventPassed(event: nat, current: nat, previous: nat)
    requires previous <= event < current < previous + IDX_MODULUS
    ensures NeedEvent(Cut(event), Cut(current), Cut(previous))
  {
    CutSucc(event);
    CutDistance(event + 1, current);
    CutDistance(previous, current);
  }
}
