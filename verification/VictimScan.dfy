/**
 How a worker chooses queues (async/concurrent/work_queue_base.h, blocking_work_queue.h): the numbers
 coprime to the number of threads, and scans that add such a number and subtract the size.  Every
 scan visits every queue exactly once.
 */
module VictimScan {
  import opened Bits
  import opened Finite
  import opened Wrappers

  // ------------------------------------------------------------ common divisors

  predicate CommonDivisor(d: nat, a: nat, b: nat) { d >= 1 && a % d == 0 && b % d == 0 }

  ghost predicate Coprime(a: nat, b: nat) { forall d: nat :: CommonDivisor(d, a, b) ==> d == 1 }

  lemma Multiple(x: int, d: int, q: int)
    requires d > 0 && x == q * d
    ensures x % d == 0 && x / d == q
  {
    ModUnique(x, d, q, 0);
  }

  lemma Quotient(x: int, d: int) returns (q: int)
    requires d > 0 && x % d == 0
    ensures x == q * d
  {
    q := x / d;
  }

  /** Euclid's step keeps the common divisors. */
  lemma EuclidStep(d: nat, a: nat, b: nat)
    requires b > 0
    ensures CommonDivisor(d, a, b) <==> CommonDivisor(d, b, a % b)
  {
    var q := a / b;
    assert a == q * b + a % b;
    if d >= 1 && b % d == 0 {
      var k := Quotient(b, d);
      assert q * b == (q * k) * d by { assert q * (k * d) == (q * k) * d; }
      if a % d == 0 {
        var l := Quotient(a, d);
        Distribute(l, q * k, d);
        Multiple(a % b, d, l - q * k);
      }
      if (a % b) % d == 0 {
        var l := Quotient(a % b, d);
        Distribute(l, -(q * k), d);
        Multiple(a, d, l + q * k);
      }
    }
  }

  lemma Distribute(x: int, y: int, d: int)
    ensures (x - y) * d == x * d - y * d
  {
  }

  method ComputeCoprimes(n: nat) returns (coprimes: seq<nat>)
    ensures forall i: nat :: i in coprimes <==> 1 <= i <= n && Coprime(i, n)
    ensures forall j, l :: 0 <= j < l < |coprimes| ==> coprimes[j] < coprimes[l]
  {
    coprimes := [];
    var i: nat := 1;
    while i <= n
      invariant 1 <= i && (n > 0 ==> i <= n + 1)
      invariant forall c: nat :: c in coprimes <==> 1 <= c < i && c <= n && Coprime(c, n)
      invariant forall j, l :: 0 <= j < l < |coprimes| ==> coprimes[j] < coprimes[l]
    {
      var a: nat, b: nat := i, n;
      while b != 0
        invariant a > 0
        invariant forall d: nat :: CommonDivisor(d, a, b) <==> CommonDivisor(d, i, n)
        decreases b
      {
        forall d: nat ensures CommonDivisor(d, a, b) <==> CommonDivisor(d, b, a % b) { EuclidStep(d, a, b); }
        a, b := b, a % b;
      }
      DivisorsWithZero(a);
      if a == 1 {
        assert forall j :: 0 <= j < |coprimes| ==> coprimes[j] in coprimes;
        coprimes := coprimes + [i];
      }
      i := i + 1;
    }
  }

  /** The common divisors of a and 0 include a; there is no other than 1 exactly if a is 1. */
  lemma DivisorsWithZero(a: nat)
    requires a > 0
    ensures CommonDivisor(a, a, 0)
    ensures a == 1 ==> forall d: nat :: CommonDivisor(d, a, 0) ==> d == 1
  {
    Multiple(a, a, 1);
    forall d: nat | CommonDivisor(d, 1, 0) ensures d == 1 {
      if d > 1 { ModUnique(1, d, 0, 1); }
    }
  }

  /** The greatest common divisor as a combination of its arguments. */
  lemma {:induction false} Bezout(a: nat, b: nat) returns (x: int, y: int, g: nat)
    requires a > 0
    ensures x * a + y * b == g && CommonDivisor(g, a, b)
    decreases b
  {
    if b == 0 {
      x, y, g := 1, 0, a;
      DivisorsWithZero(a);
    } else {
      var x', y';
      x', y', g := Bezout(b, a % b);
      EuclidStep(g, a, b);
      var q := a / b;
      x, y := y', x' - q * y';
      BezoutStep(a, b, x', y', g);
    }
  }

  lemma BezoutStep(a: nat, b: nat, x: int, y: int, g: nat)
    requires b > 0 && x * b + y * (a % b) == g
    ensures y * a + (x - (a / b) * y) * b == g
  {
    var q, r := a / b, a % b;
    assert a == q * b + r;
    assert y * (q * b + r) == y * (q * b) + y * r;
    assert (x - q * y) * b == x * b - (q * y) * b;
    assert (q * y) * b == y * (q * b);
  }

  /** A number coprime to n can be cancelled in a multiple of n. */
  lemma CancelCoprime(k: int, inc: nat, n: nat, m: int)
    requires n > 0 && inc > 0 && Coprime(inc, n) && k * inc == m * n
    ensures k % n == 0
  {
    var x, y, g := Bezout(inc, n);
    assert g == 1;
    var w := x * m + y * k;
    assert k == w * n by {
      assert k * 1 == k * (x * inc + y * n);
      assert k * (x * inc + y * n) == x * (k * inc) + (y * k) * n by { Expand(k, x, inc, y, n); }
      assert x * (m * n) == (x * m) * n;
      assert (x * m) * n + (y * k) * n == w * n;
    }
    Multiple(k, n, w);
  }

  lemma Expand(k: int, x: int, inc: int, y: int, n: int)
    ensures k * (x * inc + y * n) == x * (k * inc) + (y * k) * n
  {
    assert k * (x * inc) == x * (k * inc);
    assert k * (y * n) == (y * k) * n;
  }

  // ------------------------------------------------------------ scans

  /** (x * size) >> 32 on 64 bits. */
  function FastReduce(x: nat, size: nat): nat { (x * size) / 0x1_0000_0000 }

  lemma FastReduceInRange(x: nat, size: nat)
    requires x < 0x1_0000_0000 && size > 0
    ensures FastReduce(x, size) < size
  {
    assert (0xFFFF_FFFF - x) * size >= 0;
    assert (0xFFFF_FFFF - x) * size == 0xFFFF_FFFF * size - x * size;
    QuotientBelow(x * size, size);
  }

  lemma QuotientBelow(p: nat, size: nat)
    requires p <= 0xFFFF_FFFF * size && size > 0
    ensures p / 0x1_0000_0000 < size
  {
  }

  /** FastReduce spreads the 32-bit numbers over all indices in order: it never goes down, and every index
      is hit, as long as there are no more indices than numbers. */
  lemma FastReduceMonotone(x: nat, y: nat, size: nat)
    requires x <= y
    ensures FastReduce(x, size) <= FastReduce(y, size)
  {
    assert x * size + (y - x) * size == y * size;
  }

  lemma FastReduceOnto(i: nat, size: nat) returns (x: nat)
    requires i < size <= 0x1_0000_0000
    ensures x < 0x1_0000_0000 && FastReduce(x, size) == i
  {
    var p: nat := i * 0x1_0000_0000;
    x := (p + size - 1) / size;
    assert p <= x * size < p + size by {
      assert p + size - 1 == x * size + (p + size - 1) % size;
    }
    assert p + size <= 0x1_0000_0000 * size;
    FactorBelow(x, 0x1_0000_0000, size);
  }

  lemma FactorBelow(x: nat, y: nat, size: nat)
    requires x * size < y * size
    ensures x < y
  {
    if x >= y { FactorGrows(x, y, size); }
  }

  lemma FactorGrows(x: nat, y: nat, size: nat)
    requires x >= y
    ensures x * size >= y * size
  {
    assert (x - y) * size == x * size - y * size;
  }

  /** The i-th index of the scan that starts at start. */
  function Visit(start: nat, inc: nat, n: nat, i: nat): (v: nat)
    requires start < n && inc <= n
    ensures v < n
  {
    if i == 0 then start
    else
      var v := Visit(start, inc, n, i - 1) + inc;
      if v >= n then v - n else v
  }

  lemma {:induction false} VisitCongruent(start: nat, inc: nat, n: nat, i: nat) returns (q: int)
    requires start < n && inc <= n
    ensures Visit(start, inc, n, i) == start + i * inc - q * n
  {
    if i == 0 {
      q := 0;
    } else {
      q := VisitCongruent(start, inc, n, i - 1);
      assert i * inc == (i - 1) * inc + inc;
      if Visit(start, inc, n, i - 1) + inc >= n {
        assert (q + 1) * n == q * n + n;
        q := q + 1;
      }
    }
  }

  lemma VisitsDiffer(start: nat, inc: nat, n: nat, i: nat, j: nat)
    requires start < n && 1 <= inc <= n && Coprime(inc, n) && i < j < n
    ensures Visit(start, inc, n, i) != Visit(start, inc, n, j)
  {
    if Visit(start, inc, n, i) == Visit(start, inc, n, j) {
      var p := VisitCongruent(start, inc, n, i);
      var q := VisitCongruent(start, inc, n, j);
      Distribute(j, i, inc);
      Distribute(q, p, n);
      CancelCoprime(j - i, inc, n, q - p);
      ModUnique(j - i, n, 0, j - i);
    }
  }

  /** The first n visits. */
  function Visits(start: nat, inc: nat, n: nat, k: nat): (s: seq<nat>)
    requires start < n && inc <= n
    ensures |s| == k && forall i :: 0 <= i < k ==> s[i] == Visit(start, inc, n, i)
  {
    seq(k, i requires 0 <= i => Visit(start, inc, n, i))
  }

  /** A scan of n steps visits every index exactly once. */
  lemma ScanVisitsAll(start: nat, inc: nat, n: nat)
    requires start < n && 1 <= inc <= n && Coprime(inc, n)
    ensures Different(Visits(start, inc, n, n))
    ensures forall v: nat :: v < n ==> v in Visits(start, inc, n, n)
  {
    var s := Visits(start, inc, n, n);
    forall i, j | 0 <= i < j < |s| ensures s[i] != s[j] { VisitsDiffer(start, inc, n, i, j); }
    FewDifferent(s, n);
  }

  lemma OneIsCoprime(n: nat)
    requires n >= 1
    ensures Coprime(1, n)
  {
    forall d: nat | CommonDivisor(d, 1, n) ensures d == 1 {
      if d > 1 { ModUnique(1, d, 0, 1); }
    }
  }

  /** What the constructor stores. */
  ghost predicate IsCoprimes(coprimes: seq<nat>, n: nat) {
    forall i: nat :: i in coprimes <==> 1 <= i <= n && Coprime(i, n)
  }

  lemma SomeCoprime(coprimes: seq<nat>, n: nat)
    requires n >= 1 && IsCoprimes(coprimes, n)
    ensures coprimes != []
    ensures forall i :: 0 <= i < |coprimes| ==> 1 <= coprimes[i] <= n && Coprime(coprimes[i], n)
  {
    OneIsCoprime(n);
    assert 1 in coprimes;
    forall i | 0 <= i < |coprimes| ensures 1 <= coprimes[i] <= n && Coprime(coprimes[i], n) {
      assert coprimes[i] in coprimes;
    }
  }

  /** Every queue was looked at, at some step, and what was found then satisfies seen. */
  ghost predicate AllSeen(n: nat, seen: (nat, nat) -> bool) {
    forall v: nat :: v < n ==> SeenAtSome(n, seen, v)
  }

  ghost predicate SeenAtSome(n: nat, seen: (nat, nat) -> bool, v: nat) { exists i: nat :: i < n && seen(i, v) }

  lemma ScanSees(start: nat, inc: nat, n: nat, seen: (nat, nat) -> bool)
    requires start < n && 1 <= inc <= n && Coprime(inc, n)
    requires forall i: nat :: i < n ==> seen(i, Visit(start, inc, n, i))
    ensures AllSeen(n, seen)
  {
    ScanVisitsAll(start, inc, n);
    var s := Visits(start, inc, n, n);
    forall v: nat | v < n ensures SeenAtSome(n, seen, v) {
      assert v in s;
      var i :| 0 <= i < |s| && s[i] == v;
      assert seen(i, Visit(start, inc, n, i));
    }
  }

  /** empty(i, v): the answer of queue v when it is asked in step i, whatever happens meanwhile.
      Returns -1 only after every queue, when it was asked, was empty, and otherwise a queue that was not. */
  method NonEmptyQueueIndex(n: nat, coprimes: seq<nat>, r: nat, empty: (nat, nat) -> bool) returns (index: int)
    requires n >= 1 && IsCoprimes(coprimes, n) && r < 0x1_0000_0000
    ensures -1 <= index < n
    ensures index == -1 ==> AllSeen(n, empty)
    ensures index >= 0 ==> exists i: nat :: i < n && !empty(i, index)
  {
    SomeCoprime(coprimes, n);
    FastReduceInRange(r, n);
    OneIsCoprime(n);
    var inc := if n == 1 then 1 else coprimes[r % |coprimes|];
    var victim := FastReduce(r, n);
    for i := 0 to n
      invariant victim == Visit(FastReduce(r, n), inc, n, i)
      invariant forall j: nat :: j < i ==> empty(j, Visit(FastReduce(r, n), inc, n, j))
    {
      if !empty(i, victim) { return victim; }
      victim := victim + inc;
      if victim >= n { victim := victim - n; }
    }
    ScanSees(FastReduce(r, n), inc, n, empty);
    return -1;
  }

  function NothingIn(taken: (nat, nat) -> Option<nat>): (nat, nat) -> bool { (i: nat, v: nat) => taken(i, v).None? }

  function Refusing(accepts: (nat, nat) -> bool): (nat, nat) -> bool { (i: nat, v: nat) => !accepts(i, v) }

  /** taken(i, v): what stealing from queue v in step i gives. */
  method Steal(n: nat, coprimes: seq<nat>, r: nat, taken: (nat, nat) -> Option<nat>) returns (task: Option<nat>)
    requires n >= 1 && IsCoprimes(coprimes, n) && r < 0x1_0000_0000
    ensures task.None? ==> AllSeen(n, NothingIn(taken))
    ensures task.Some? ==> exists i: nat, v: nat :: i < n && v < n && taken(i, v) == task
  {
    SomeCoprime(coprimes, n);
    FastReduceInRange(r, n);
    FastReduceInRange(r, |coprimes|);
    var victim := FastReduce(r, n);
    var inc := coprimes[FastReduce(r, |coprimes|)];
    for i := 0 to n
      invariant victim == Visit(FastReduce(r, n), inc, n, i)
      invariant forall j: nat :: j < i ==> taken(j, Visit(FastReduce(r, n), inc, n, j)).None?
    {
      var t := taken(i, victim);
      if t.Some? { return t; }
      victim := victim + inc;
      if victim >= n { victim := victim - n; }
    }
    ScanSees(FastReduce(r, n), inc, n, NothingIn(taken));
    return None;
  }

  /** EnqueueBlockingTask by a thread outside the pool: accepts(i, v) is the answer of queue v to the
      push of step i.  The task comes back exactly if every queue refused it and the pool is not
      quiescing; when it is quiescing, the caller runs it. */
  method EnqueueOutside(n: nat, coprimes: seq<nat>, r: nat, quiescing: bool, accepts: (nat, nat) -> bool)
    returns (back: bool, ranHere: bool, pushed: Option<nat>)
    requires n >= 1 && IsCoprimes(coprimes, n) && r < 0x1_0000_0000
    ensures back || ranHere ==> pushed.None? && AllSeen(n, Refusing(accepts))
    ensures pushed.Some? ==> pushed.value < n && (exists i: nat :: i < n && accepts(i, pushed.value))
    ensures pushed.None? ==> if quiescing then ranHere && !back else back && !ranHere
    ensures pushed.Some? ==> !back && !ranHere
  {
    SomeCoprime(coprimes, n);
    FastReduceInRange(r, n);
    FastReduceInRange(r, |coprimes|);
    back, ranHere, pushed := false, false, None;
    var victim := FastReduce(r, n);
    var inc := coprimes[FastReduce(r, |coprimes|)];
    var i := 0;
    while i < n && pushed.None?
      invariant i <= n && victim == Visit(FastReduce(r, n), inc, n, i)
      invariant pushed.None? ==> forall j: nat :: j < i ==> !accepts(j, Visit(FastReduce(r, n), inc, n, j))
      invariant pushed.Some? ==> pushed.value < n && (exists j: nat :: j < n && accepts(j, pushed.value))
      decreases n - i
    {
      if accepts(i, victim) { pushed := Some(victim); }
      victim := victim + inc;
      if victim >= n { victim := victim - n; }
      i := i + 1;
    }
    if pushed.None? {
      ScanSees(FastReduce(r, n), inc, n, Refusing(accepts));
      if quiescing { ranHere := true; } else { back := true; }
    }
  }
}
