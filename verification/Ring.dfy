/**
 Positions of a ring buffer.  Positions are unbounded integers; the slot of a position is its
 remainder modulo the capacity, which the C++ code computes with a mask because every capacity
 is a power of two.
 */
module Ring {
  import opened Bits

  /** The slot of position p. */
  function Slot(p: int, cap: nat): (i: nat)
    requires cap > 0
    ensures i < cap
    decreases if p < 0 then -p else p
  {
    if p < 0 then (if p + cap < 0 then Slot(p + cap, cap) else p + cap)
    else if p < cap then p
    else Slot(p - cap, cap)
  }

  lemma SlotSmall(p: nat, cap: nat)
    requires p < cap
    ensures Slot(p, cap) == p
  {
  }

  /** Positions a lap apart share their slot. */
  lemma SlotLap(p: int, cap: nat)
    requires cap > 0
    ensures Slot(p + cap, cap) == Slot(p, cap)
  {
    if 0 <= p + cap < cap { SlotSmall(p + cap, cap); }
  }

  lemma {:induction false} SlotDecompose(p: int, cap: nat) returns (k: int)
    requires cap > 0
    ensures p == k * cap + Slot(p, cap)
    decreases if p < 0 then -p else p
  {
    if 0 <= p < cap {
      k := 0;
    } else if 0 <= p + cap < cap {
      k := -1;
    } else if p < 0 {
      var j := SlotDecompose(p + cap, cap);
      k := j - 1;
      assert (j - 1) * cap == j * cap - cap;
    } else {
      var j := SlotDecompose(p - cap, cap);
      k := j + 1;
      assert (j + 1) * cap == j * cap + cap;
    }
  }

  lemma SlotIsMod(p: int, cap: nat)
    requires cap > 0
    ensures Slot(p, cap) == p % cap
  {
    var k := SlotDecompose(p, cap);
    ModUnique(p, cap, k, Slot(p, cap));
  }

  /** Masking a position with kCapacity - 1 gives its slot. */
  lemma MaskIsSlot(p: nat, k: nat)
    ensures And(p, Pow2(k) - 1) == Slot(p, Pow2(k))
  {
    AndLow(p, k);
    ShrIsDiv(p, k);
    SlotIsMod(p, Pow2(k));
  }

  /** Within one lap different positions have different slots. */
  lemma SlotInjective(p: int, q: int, cap: nat)
    requires cap > 0 && p <= q < p + cap && Slot(p, cap) == Slot(q, cap)
    ensures p == q
  {
    var j := SlotDecompose(p, cap);
    var k := SlotDecompose(q, cap);
    assert q - p == (k - j) * cap by { assert (k - j) * cap == k * cap - j * cap; }
    if k - j >= 1 { MulAtLeast(k - j, cap); }
    if k - j <= -1 {
      MulAtLeast(j - k, cap);
      assert (j - k) * cap == -((k - j) * cap);
    }
  }

  lemma SlotsDiffer(b: int, cap: nat)
    requires cap > 0
    ensures forall p, q :: b <= p < q < b + cap ==> Slot(p, cap) != Slot(q, cap)
  {
    forall p, q | b <= p < q < b + cap ensures Slot(p, cap) != Slot(q, cap) {
      if Slot(p, cap) == Slot(q, cap) { SlotInjective(p, q, cap); }
    }
  }

  /** The position at or after b that uses the slot of p. */
  function Rep(b: int, p: int, cap: nat): (q: int)
    requires cap > 0 && p < b + cap
    ensures b <= q < b + cap || q == p
    ensures q >= b && Slot(q, cap) == Slot(p, cap) && (q == p || q >= p + cap)
    decreases if p < b then b - p else 0
  {
    SlotLap(p, cap);
    if p >= b then p else Rep(b, p + cap, cap)
  }
}
