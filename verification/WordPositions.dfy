/**
 32-bit words whose low bits are a rolling index, as mFront and mBack of TaskDeque
 (async/concurrent/task_deque.h): the low k + 1 bits count modulo twice the capacity 2^k, the rest
 counts modifications.
 */
module WordPositions {
  import opened Bits
  import opened Ring

  const WORDS: nat := 0x1_0000_0000

  /** Unsigned 32-bit addition and subtraction. */
  function Add32(x: nat, y: nat): (r: nat) ensures r < WORDS { (x + y) % WORDS }
  function Sub32(x: nat, y: nat): (r: nat) ensures r < WORDS { (x - y) % WORDS }

  function Mask(k: nat): nat { Pow2(k) - 1 }
  function Mask2(k: nat): nat { Pow2(k + 1) - 1 }
  function Increment(k: nat): nat { Shl(Pow2(k), 1) + 1 }

  /** The word one index further on, with its modification counter bumped. */
  function Forward(w: nat, k: nat): nat { Add32(w, Increment(k)) }

  /** The word one index back, with the same modification counter. */
  function Backward(w: nat, k: nat): nat
    requires k + 1 <= 32
  {
    PowerUpTo(k + 1);
    Or(And(Sub32(w, 1), Mask2(k)), And(w, Not(Mask2(k), 32)))
  }

  lemma {:induction false} PowerMonotone(n: nat, m: nat)
    requires n <= m
    ensures Pow2(n) <= Pow2(m)
    decreases m - n
  {
    if n < m { PowerMonotone(n + 1, m); }
  }

  lemma PowerUpTo(n: nat)
    requires n <= 32
    ensures Pow2(n) <= Pow2(32) == WORDS
  {
    Powers();
    PowerMonotone(n, 32);
  }

  lemma {:induction false} LowLow(x: nat, m: nat, n: nat)
    requires n <= m
    ensures Low(Low(x, m), n) == Low(x, n)
  {
    if n > 0 { LowLow(x / 2, m - 1, n - 1); }
  }

  lemma SlotIsLow(p: nat, n: nat)
    ensures Slot(p, Pow2(n)) == Low(p, n)
  {
    MaskIsSlot(p, n);
    AndLow(p, n);
  }

  /** Reducing modulo 2^32 keeps the index. */
  lemma SlotOfWord(x: nat, n: nat)
    requires n <= 32
    ensures Slot(x % WORDS, Pow2(n)) == Slot(x, Pow2(n))
  {
    PowerUpTo(n);
    ShrIsDiv(x, 32);
    LowLow(x, 32, n);
    SlotIsLow(x, n);
    SlotIsLow(x % WORDS, n);
  }

  /** So does stepping back across zero. */
  lemma SlotOfBack(w: nat, n: nat)
    requires w < WORDS && n <= 32
    ensures Slot(Sub32(w, 1), Pow2(n)) == Slot(w - 1, Pow2(n))
  {
    PowerUpTo(n);
    if w == 0 {
      SlotOfTop(n);
    }
  }

  lemma SlotOfTop(n: nat)
    requires n <= 32
    ensures Slot(WORDS - 1, Pow2(n)) == Slot(-1, Pow2(n))
  {
    PowerUpTo(n);
    SlotLap(-1, Pow2(n));
    SlotSmall(Pow2(n) - 1, Pow2(n));
    TopLow(32, n);
    SlotIsLow(WORDS - 1, n);
  }

  lemma {:induction false} TopLow(m: nat, n: nat)
    requires n <= m
    ensures Low(Pow2(m) - 1, n) == Pow2(n) - 1
  {
    if n > 0 { TopLow(m - 1, n - 1); }
  }

  /** The index modulo the capacity follows from that modulo twice the capacity. */
  lemma {:induction false} SlotHalf(p: int, cap: nat)
    requires cap > 0
    ensures var s := Slot(p, 2 * cap); Slot(p, cap) == if s < cap then s else s - cap
    decreases if p < 0 then -p else p
  {
    if 0 <= p < 2 * cap {
      SlotLap(p - cap, cap);
    } else if p < 0 {
      SlotLap(p, cap);
      SlotLap(p + cap, cap);
      SlotLap(p, 2 * cap);
      if p + 2 * cap < 0 { SlotHalf(p + 2 * cap, cap); } else { SlotLap(p + 2 * cap - cap, cap); }
    } else {
      SlotLap(p - cap, cap);
      SlotLap(p - 2 * cap, cap);
      SlotLap(p - 2 * cap, 2 * cap);
      SlotHalf(p - 2 * cap, cap);
    }
  }

  lemma {:induction false} SlotAdd(p: int, n: nat, m: nat)
    requires n < m
    ensures Slot(p + n, m) == if Slot(p, m) + n < m then Slot(p, m) + n else Slot(p, m) + n - m
    decreases if p < 0 then -p else p
  {
    if 0 <= p < m {
      if p + n >= m { SlotLap(p + n - m, m); }
    } else if p < 0 {
      SlotLap(p, m);
      SlotLap(p + n, m);
      if p + m < 0 { SlotAdd(p + m, n, m); } else if p + m + n >= m { SlotLap(p + n, m); }
    } else {
      SlotLap(p - m, m);
      SlotLap(p + n - m, m);
      SlotAdd(p - m, n, m);
    }
  }

  lemma SlotsAgree(x: int, y: int, n: int, m: nat)
    requires m > 0 && -1 <= n < m && Slot(x, m) == Slot(y, m)
    ensures Slot(x + n, m) == Slot(y + n, m)
  {
    if n < 0 {
      SlotAdd(x, m - 1, m);
      SlotAdd(y, m - 1, m);
      SlotLap(x - 1, m);
      SlotLap(y - 1, m);
    } else {
      SlotAdd(x, n, m);
      SlotAdd(y, n, m);
    }
  }

  /** Forward moves the index one on. */
  lemma ForwardMoves(w: nat, k: nat)
    requires k + 1 <= 32
    ensures Slot(Forward(w, k), Pow2(k + 1)) == Slot(w + 1, Pow2(k + 1))
  {
    assert Shl(Pow2(k), 1) == Pow2(k + 1);
    SlotOfWord(w + Increment(k), k + 1);
    SlotLap(w + 1, Pow2(k + 1));
  }

  lemma BackwardValue(w: nat, k: nat)
    requires w < WORDS && k + 1 <= 32
    ensures Backward(w, k) == Low(Sub32(w, 1), k + 1) + Shl(Shr(w, k + 1), k + 1)
    ensures Low(Sub32(w, 1), k + 1) < Pow2(k + 1)
  {
    var n, v := k + 1, Sub32(w, 1);
    PowerUpTo(n);
    AndLow(v, n);
    AndLow(w, n);
    AndNot(w, Mask2(k), 32);
    HighLow(w, n);
    HighLow(v, n);
    OrDisjoint(Low(v, n), Shr(w, n), n);
  }

  /** Backward moves the index one back, across zero, and changes no other bit of the word. */
  lemma BackwardMoves(w: nat, k: nat)
    requires w < WORDS && k + 1 <= 32
    ensures Backward(w, k) < WORDS
    ensures Slot(Backward(w, k), Pow2(k + 1)) == Slot(w - 1, Pow2(k + 1))
    ensures Shr(Backward(w, k), k + 1) == Shr(w, k + 1)
  {
    var n, v := k + 1, Sub32(w, 1);
    PowerUpTo(n);
    BackwardValue(w, k);
    Join(Shr(w, n), Low(v, n), n);
    SlotIsLow(Backward(w, k), n);
    SlotIsLow(v, n);
    SlotOfBack(w, n);
    BlockBelow(w, Low(v, n), n, 32);
  }

  lemma {:induction false} BlockBelow(w: nat, l: nat, n: nat, width: nat)
    requires n <= width && w < Pow2(width) && l < Pow2(n)
    ensures Shl(Shr(w, n), n) + l < Pow2(width)
  {
    if n > 0 { BlockBelow(w / 2, l / 2, n - 1, width - 1); }
  }
}
