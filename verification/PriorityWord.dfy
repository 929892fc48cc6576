/**
 PointerState of TaskPriorityDeque (async/concurrent/task_priority_queue.h): four rolling indices of n
 bits each and a modification counter of m bits in one word.  The code has n = kCounterBits + 1 = 11
 and m = 20; everything below holds for all n and m.
 */
module PriorityWord {
  import opened Bits
  import opened WordPositions

  type Priority = p: nat | p < 4

  /** kIndexShift, and for p = 4 kIndicesBits. */
  function IndexShift(n: nat, p: nat): nat { if p == 0 then 0 else IndexShift(n, p - 1) + n }

  function IndicesBits(n: nat): nat { IndexShift(n, 4) }

  function IndexMasks(n: nat, p: Priority): nat
    requires n > 0
  {
    Shl(Pow2(n - 1) - 1, IndexShift(n, p))
  }

  function IndexMasksExt(n: nat, p: Priority): nat { Shl(Pow2(n) - 1, IndexShift(n, p)) }

  /** kIndexMaskCompl: the extended masks of the other three priorities. */
  function IndexMaskCompl(n: nat, p: Priority): nat {
    if p == 0 then Three(n, 1, 2, 3) else if p == 1 then Three(n, 0, 2, 3)
    else if p == 2 then Three(n, 0, 1, 3) else Three(n, 0, 1, 2)
  }

  function Three(n: nat, a: Priority, b: Priority, c: Priority): nat {
    Or(Or(IndexMasksExt(n, a), IndexMasksExt(n, b)), IndexMasksExt(n, c))
  }

  function Index(w: nat, n: nat, p: Priority): nat
    requires n > 0
  {
    Shr(And(w, IndexMasks(n, p)), IndexShift(n, p))
  }

  function IndexExt(w: nat, n: nat, p: Priority): nat { Shr(And(w, IndexMasksExt(n, p)), IndexShift(n, p)) }

  predicate IsWord(w: nat, n: nat, m: nat) { w < Pow2(IndicesBits(n) + m) }

  function WithIndexExt(w: nat, index: nat, n: nat, m: nat, p: Priority): nat {
    MaskIsWord(n, m, p);
    Or(Shl(index, IndexShift(n, p)), And(w, Not(IndexMasksExt(n, p), IndicesBits(n) + m)))
  }

  /** The modification counter as Inc reads it: masked with the complement of the number
      kIndicesBits, not of the bits of the indices. */
  function CounterOf(w: nat, n: nat, m: nat): nat {
    PowerAbove(IndicesBits(n), m);
    Shr(And(w, Not(IndicesBits(n), IndicesBits(n) + m)), IndicesBits(n))
  }

  function Inc(w: nat, n: nat, m: nat, p: Priority): nat {
    var index := IndexExt(w, n, p);
    var others := And(w, IndexMaskCompl(n, p));
    var counter := CounterOf(w, n, m);
    Or(Or(Shl(And(index + 1, Pow2(n) - 1), IndexShift(n, p)), Shl(And(counter + 1, Pow2(m) - 1), IndicesBits(n))), others)
  }

  // ------------------------------------------------------------ pieces of a word

  lemma {:induction false} PowerAbove(b: nat, m: nat)
    ensures b < Pow2(b + m)
  {
    if b > 0 { PowerAbove(b - 1, m); }
  }

  lemma {:induction false} ShiftsApart(n: nat, p: nat, q: nat)
    requires p < q
    ensures IndexShift(n, p) + n <= IndexShift(n, q)
    decreases q
  {
    if p < q - 1 { ShiftsApart(n, p, q - 1); }
  }

  lemma {:induction false} ShlBound(x: nat, k: nat, s: nat)
    requires x < Pow2(k)
    ensures Shl(x, s) < Pow2(s + k)
  {
    if s > 0 { ShlBound(x, k, s - 1); }
  }

  lemma MaskIsWord(n: nat, m: nat, p: Priority)
    ensures IndexMasksExt(n, p) < Pow2(IndicesBits(n) + m)
  {
    ShlBound(Pow2(n) - 1, n, IndexShift(n, p));
    ShiftsApart(n, p, 4);
    PowerMonotone(IndexShift(n, p) + n, IndicesBits(n) + m);
  }

  lemma {:induction false} LowSplit(w: nat, s: nat, k: nat)
    ensures Low(w, s + k) == Low(w, s) + Shl(Field(w, s, k), s)
  {
    if s > 0 { LowSplit(w / 2, s - 1, k); }
  }

  lemma {:induction false} OrInsert(l: nat, v: nat, h: nat, s: nat, k: nat)
    requires l < Pow2(s) && v < Pow2(k)
    ensures Or(Shl(v, s), l + Shl(h, s + k)) == l + Shl(v + Shl(h, k), s)
  {
    if s == 0 {
      OrDisjoint(v, h, k);
    } else {
      OrInsert(l / 2, v, h, s - 1, k);
      var x, y := Shl(v, s), l + Shl(h, s + k);
      assert x / 2 == Shl(v, s - 1) && y / 2 == l / 2 + Shl(h, s - 1 + k) && y % 2 == l % 2 && x % 2 == 0;
    }
  }

  /** r is w with the k bits from s on replaced by v. */
  predicate Replaced(w: nat, r: nat, s: nat, k: nat, v: nat) {
    Low(r, s) == Low(w, s) && Field(r, s, k) == v && Shr(r, s + k) == Shr(w, s + k)
  }

  lemma WithoutField(w: nat, s: nat, k: nat)
    ensures w - Shl(Field(w, s, k), s) == Low(w, s) + Shl(Shr(w, s + k), s + k)
  {
    HighLow(w, s + k);
    LowSplit(w, s, k);
  }

  /** A word without the k bits from s on. */
  lemma RestValue(w: nat, s: nat, k: nat, width: nat)
    requires w < Pow2(width) && Shl(Pow2(k) - 1, s) < Pow2(width)
    ensures And(w, Not(Shl(Pow2(k) - 1, s), width)) == Low(w, s) + Shl(Shr(w, s + k), s + k)
  {
    var mask := Shl(Pow2(k) - 1, s);
    assert And(w, mask) == Shl(Field(w, s, k), s) by { AndField(w, s, k); }
    WithoutField(w, s, k);
    AndNot(w, mask, width);
  }

  lemma ReplaceParts(l: nat, v: nat, h: nat, s: nat, k: nat)
    requires l < Pow2(s) && v < Pow2(k)
    ensures var r := l + Shl(v + Shl(h, k), s); Low(r, s) == l && Field(r, s, k) == v && Shr(r, s + k) == h
  {
    Join(v + Shl(h, k), l, s);
    Join(h, v, k);
    ShrShr(l + Shl(v + Shl(h, k), s), s, k);
  }

  lemma ReplaceField(w: nat, s: nat, k: nat, v: nat, width: nat)
    requires w < Pow2(width) && v < Pow2(k) && Shl(Pow2(k) - 1, s) < Pow2(width)
    ensures Replaced(w, Or(Shl(v, s), And(w, Not(Shl(Pow2(k) - 1, s), width))), s, k, v)
  {
    RestValue(w, s, k, width);
    HighLow(w, s);
    OrInsert(Low(w, s), v, Shr(w, s + k), s, k);
    ReplaceParts(Low(w, s), v, Shr(w, s + k), s, k);
  }

  lemma {:induction false} FieldBelow(w: nat, s: nat, a: nat, b: nat)
    requires a + b <= s
    ensures Field(Low(w, s), a, b) == Field(w, a, b)
  {
    if a > 0 { FieldBelow(w / 2, s - 1, a - 1, b); } else { LowLow(w, s, b); }
  }

  lemma FieldAbove(w: nat, s: nat, a: nat, b: nat)
    requires s <= a
    ensures Field(Shr(w, s), a - s, b) == Field(w, a, b)
  {
    ShrShr(w, s, a - s);
  }

  /** Replacing a field keeps every field below and above it. */
  lemma ReplacedKeeps(w: nat, r: nat, s: nat, k: nat, v: nat, a: nat, b: nat)
    requires Replaced(w, r, s, k, v) && (a + b <= s || s + k <= a)
    ensures Field(r, a, b) == Field(w, a, b)
  {
    if a + b <= s {
      FieldBelow(w, s, a, b);
      FieldBelow(r, s, a, b);
    } else {
      FieldAbove(w, s + k, a, b);
      FieldAbove(r, s + k, a, b);
    }
  }

  lemma IndexExtIsField(w: nat, n: nat, p: Priority)
    ensures IndexExt(w, n, p) == Field(w, IndexShift(n, p), n) && IndexExt(w, n, p) < Pow2(n)
  {
    AndField(w, IndexShift(n, p), n);
    HighLow(Shr(w, IndexShift(n, p)), n);
  }

  /** The plain index is the extended one modulo the capacity. */
  lemma IndexIsLow(w: nat, n: nat, p: Priority)
    requires n > 0
    ensures Index(w, n, p) == Low(IndexExt(w, n, p), n - 1)
  {
    assert Index(w, n, p) == Field(w, IndexShift(n, p), n - 1) by { AndField(w, IndexShift(n, p), n - 1); }
    assert IndexExt(w, n, p) == Field(w, IndexShift(n, p), n) by { IndexExtIsField(w, n, p); }
    FieldPrefix(w, IndexShift(n, p), n);
  }

  lemma FieldPrefix(w: nat, s: nat, n: nat)
    requires n > 0
    ensures Low(Field(w, s, n), n - 1) == Field(w, s, n - 1)
  {
    LowLow(Shr(w, s), n, n - 1);
  }

  /** Replacing the index of p leaves the other indices. */
  lemma ReplacedIndex(w: nat, r: nat, n: nat, p: Priority, index: nat, q: Priority)
    requires Replaced(w, r, IndexShift(n, p), n, index)
    ensures IndexExt(r, n, q) == if q == p then index else IndexExt(w, n, q)
  {
    IndexExtIsField(r, n, q);
    if q != p {
      IndexExtIsField(w, n, q);
      if p < q { ShiftsApart(n, p, q); } else { ShiftsApart(n, q, p); }
      ReplacedKeeps(w, r, IndexShift(n, p), n, index, IndexShift(n, q), n);
    }
  }

  lemma ReplacedCounter(w: nat, r: nat, n: nat, p: Priority, index: nat)
    requires Replaced(w, r, IndexShift(n, p), n, index)
    ensures Shr(r, IndicesBits(n)) == Shr(w, IndicesBits(n))
  {
    var s := IndexShift(n, p) + n;
    ShiftsApart(n, p, 4);
    ShrShr(w, s, IndicesBits(n) - s);
    ShrShr(r, s, IndicesBits(n) - s);
  }

  lemma WordFromHigh(w: nat, r: nat, b: nat, m: nat)
    requires w < Pow2(b + m) && Shr(r, b) == Shr(w, b)
    ensures r < Pow2(b + m)
  {
    HighLow(r, b);
    BlockBelow(w, Low(r, b), b, b + m);
  }

  lemma ReplacedFields(w: nat, r: nat, n: nat, m: nat, p: Priority, index: nat)
    requires IsWord(w, n, m) && Replaced(w, r, IndexShift(n, p), n, index)
    ensures forall q: Priority :: IndexExt(r, n, q) == if q == p then index else IndexExt(w, n, q)
    ensures Shr(r, IndicesBits(n)) == Shr(w, IndicesBits(n)) && IsWord(r, n, m)
  {
    forall q: Priority ensures IndexExt(r, n, q) == if q == p then index else IndexExt(w, n, q) {
      ReplacedIndex(w, r, n, p, index, q);
    }
    ReplacedCounter(w, r, n, p, index);
    WordFromHigh(w, r, IndicesBits(n), m);
  }

  /** WithIndexExt changes the chosen index and nothing else. */
  lemma WithIndexExtFields(w: nat, index: nat, n: nat, m: nat, p: Priority)
    requires IsWord(w, n, m) && index < Pow2(n)
    ensures var r := WithIndexExt(w, index, n, m, p);
            && (forall q: Priority :: IndexExt(r, n, q) == if q == p then index else IndexExt(w, n, q))
            && Shr(r, IndicesBits(n)) == Shr(w, IndicesBits(n)) && IsWord(r, n, m)
  {
    var r := WithIndexExt(w, index, n, m, p);
    assert Replaced(w, r, IndexShift(n, p), n, index) by {
      MaskIsWord(n, m, p);
      ReplaceField(w, IndexShift(n, p), n, index, IndicesBits(n) + m);
    }
    ReplacedFields(w, r, n, m, p, index);
  }

  // ------------------------------------------------------------ incrementing

  lemma {:induction false} AndAtMost(x: nat, y: nat)
    ensures And(x, y) <= x
    decreases x + y
  {
    if x > 0 && y > 0 { AndAtMost(x / 2, y / 2); }
  }

  lemma AndOfLow(l: nat, h: nat, c: nat, b: nat)
    requires l < Pow2(b) && c < Pow2(b)
    ensures And(Shl(h, b) + l, c) == And(c, l) <= l
  {
    AndCommutes(Shl(h, b) + l, c);
    AndCommutes(Shl(h, b), l);
    AndDisjoint(l, h, b);
    AndSplit(c, Shl(h, b), l);
    AndDisjoint(c, h, b);
    AndCommutes(c, l);
    AndAtMost(l, c);
  }

  lemma MaskedCounter(w: nat, b: nat, width: nat)
    requires w < Pow2(width) && b < Pow2(b) && b < Pow2(width)
    ensures And(b, Low(w, b)) <= Low(w, b)
    ensures And(w, Not(b, width)) == Shl(Shr(w, b), b) + (Low(w, b) - And(b, Low(w, b)))
  {
    var l, h := Low(w, b), Shr(w, b);
    assert w == Shl(h, b) + l && l < Pow2(b) by { HighLow(w, b); }
    assert And(w, b) == And(b, l) <= l by { AndOfLow(l, h, b, b); }
    assert And(w, Not(b, width)) == w - And(w, b) by { AndNot(w, b, width); }
  }

  /** Although the code masks with the complement of the number kIndicesBits, the shift drops every
      bit in which that makes a difference. */
  lemma CounterIsHigh(w: nat, n: nat, m: nat)
    requires IsWord(w, n, m)
    ensures CounterOf(w, n, m) == Shr(w, IndicesBits(n))
  {
    var b := IndicesBits(n);
    PowerAbove(b, 0);
    PowerAbove(b, m);
    MaskedCounter(w, b, b + m);
    HighLow(w, b);
    Join(Shr(w, b), Low(w, b) - And(b, Low(w, b)), b);
  }

  /** The index of p, in place. */
  function Piece(w: nat, n: nat, p: Priority): nat { Shl(IndexExt(w, n, p), IndexShift(n, p)) }

  lemma PieceBelow(x: nat, n: nat, p: Priority, q: nat)
    requires x < Pow2(n) && p < q
    ensures Shl(x, IndexShift(n, p)) < Pow2(IndexShift(n, q))
  {
    ShlBound(x, n, IndexShift(n, p));
    ShiftsApart(n, p, q);
    PowerMonotone(IndexShift(n, p) + n, IndexShift(n, q));
  }

  /** Pieces of different priorities share no bit; nor does the counter with any of them. */
  lemma PiecesApart(n: nat, x: nat, p: Priority, y: nat, q: nat)
    requires x < Pow2(n) && p != q && (q < p ==> y < Pow2(n))
    ensures And(Shl(x, IndexShift(n, p)), Shl(y, IndexShift(n, q))) == 0
  {
    if p < q {
      PieceBelow(x, n, p, q);
      AndDisjoint(Shl(x, IndexShift(n, p)), y, IndexShift(n, q));
    } else {
      PieceBelow(y, n, q, p);
      AndCommutes(Shl(x, IndexShift(n, p)), Shl(y, IndexShift(n, q)));
      AndDisjoint(Shl(y, IndexShift(n, q)), x, IndexShift(n, p));
    }
  }

  lemma {:induction false} SumBelow(a: nat, y: nat, s: nat, k: nat)
    requires a < Pow2(s) && y < Pow2(k)
    ensures a + Shl(y, s) < Pow2(s + k)
  {
    if s > 0 { SumBelow(a / 2, y, s - 1, k); }
  }

  lemma PairBelow(n: nat, x: nat, p: Priority, y: nat, q: Priority, r: Priority)
    requires x < Pow2(n) && y < Pow2(n) && p < q < r
    ensures Shl(x, IndexShift(n, p)) + Shl(y, IndexShift(n, q)) < Pow2(IndexShift(n, r))
  {
    PieceBelow(x, n, p, q);
    SumBelow(Shl(x, IndexShift(n, p)), y, IndexShift(n, q), n);
    ShiftsApart(n, q, r);
    PowerMonotone(IndexShift(n, q) + n, IndexShift(n, r));
  }

  /** Three masks of different priorities, in ascending order, add up. */
  lemma ThreeIsSum(n: nat, a: Priority, b: Priority, c: Priority)
    requires a < b < c
    ensures Three(n, a, b, c) == IndexMasksExt(n, a) + IndexMasksExt(n, b) + IndexMasksExt(n, c)
  {
    var x := Pow2(n) - 1;
    PieceBelow(x, n, a, b);
    OrDisjoint(IndexMasksExt(n, a), x, IndexShift(n, b));
    PairBelow(n, x, a, x, b, c);
    OrDisjoint(IndexMasksExt(n, a) + IndexMasksExt(n, b), x, IndexShift(n, c));
  }

  lemma AndSplit3(x: nat, a: nat, b: nat, c: nat)
    requires And(a, b) == 0 && And(a, c) == 0 && And(b, c) == 0
    ensures And(x, a + b + c) == And(x, a) + And(x, b) + And(x, c)
  {
    AndSplit(x, a, b);
    AndCommutes(a + b, c);
    AndSplit(c, a, b);
    AndCommutes(a, c);
    AndCommutes(b, c);
    AndSplit(x, a + b, c);
  }

  lemma MaskPicks(w: nat, n: nat, p: Priority)
    ensures And(w, IndexMasksExt(n, p)) == Piece(w, n, p)
  {
    AndField(w, IndexShift(n, p), n);
  }

  lemma PickThree(w: nat, n: nat, a: Priority, b: Priority, c: Priority)
    requires a < b < c
    ensures And(w, Three(n, a, b, c)) == Piece(w, n, a) + Piece(w, n, b) + Piece(w, n, c)
  {
    var x := Pow2(n) - 1;
    ThreeIsSum(n, a, b, c);
    PiecesApart(n, x, a, x, b);
    PiecesApart(n, x, a, x, c);
    PiecesApart(n, x, b, x, c);
    AndSplit3(w, IndexMasksExt(n, a), IndexMasksExt(n, b), IndexMasksExt(n, c));
    MaskPicks(w, n, a);
    MaskPicks(w, n, b);
    MaskPicks(w, n, c);
  }

  /** The new index and counter share no bit with another piece. */
  lemma StitchApart(n: nat, i: nat, p: Priority, k: nat, x: nat, a: Priority)
    requires i < Pow2(n) && x < Pow2(n) && p != a
    ensures And(Shl(i, IndexShift(n, p)) + Shl(k, IndicesBits(n)), Shl(x, IndexShift(n, a))) == 0
  {
    var u, v, y := Shl(i, IndexShift(n, p)), Shl(k, IndicesBits(n)), Shl(x, IndexShift(n, a));
    PiecesApart(n, x, a, i, p);
    PiecesApart(n, i, p, k, 4);
    PiecesApart(n, x, a, k, 4);
    AndCommutes(u + v, y);
    AndSplit(y, u, v);
  }

  lemma StitchApart3(n: nat, i: nat, p: Priority, k: nat, w: nat, a: Priority, b: Priority, c: Priority)
    requires i < Pow2(n) && a < b < c && p != a && p != b && p != c
    ensures And(Shl(i, IndexShift(n, p)) + Shl(k, IndicesBits(n)), Piece(w, n, a) + Piece(w, n, b) + Piece(w, n, c)) == 0
  {
    var x, y, z := IndexExt(w, n, a), IndexExt(w, n, b), IndexExt(w, n, c);
    IndexExtIsField(w, n, a);
    IndexExtIsField(w, n, b);
    IndexExtIsField(w, n, c);
    StitchApart(n, i, p, k, x, a);
    StitchApart(n, i, p, k, y, b);
    StitchApart(n, i, p, k, z, c);
    PiecesApart(n, x, a, y, b);
    PiecesApart(n, x, a, z, c);
    PiecesApart(n, y, b, z, c);
    AndSplit3(Shl(i, IndexShift(n, p)) + Shl(k, IndicesBits(n)), Piece(w, n, a), Piece(w, n, b), Piece(w, n, c));
  }

  lemma Stitch(n: nat, i: nat, p: Priority, k: nat, w: nat, a: Priority, b: Priority, c: Priority)
    requires i < Pow2(n) && a < b < c && p != a && p != b && p != c
    ensures Or(Or(Shl(i, IndexShift(n, p)), Shl(k, IndicesBits(n))), And(w, Three(n, a, b, c))) ==
            Shl(i, IndexShift(n, p)) + Shl(k, IndicesBits(n)) + Piece(w, n, a) + Piece(w, n, b) + Piece(w, n, c)
  {
    PieceBelow(i, n, p, 4);
    OrDisjoint(Shl(i, IndexShift(n, p)), k, IndicesBits(n));
    PickThree(w, n, a, b, c);
    StitchApart3(n, i, p, k, w, a, b, c);
    OrIsAdd(Shl(i, IndexShift(n, p)) + Shl(k, IndicesBits(n)), Piece(w, n, a) + Piece(w, n, b) + Piece(w, n, c));
  }

  // ------------------------------------------------------------ reading the pieces back

  /** A word put together from its pieces. */
  function Pack(n: nat, i0: nat, i1: nat, i2: nat, i3: nat, counter: nat): nat {
    i0 + Shl(i1, IndexShift(n, 1)) + Shl(i2, IndexShift(n, 2)) + Shl(i3, IndexShift(n, 3)) + Shl(counter, IndicesBits(n))
  }

  lemma {:induction false} ShlSum(x: nat, y: nat, a: nat, b: nat)
    ensures Shl(x, a) + Shl(y, a + b) == Shl(x + Shl(y, b), a)
  {
    if a > 0 { ShlSum(x, y, a - 1, b); }
  }

  lemma Shifts(n: nat)
    ensures IndexShift(n, 0) == 0 && IndexShift(n, 1) == n && IndexShift(n, 2) == n + n
    ensures IndexShift(n, 3) == n + n + n && IndicesBits(n) == n + n + n + n
  {
  }

  lemma PackNested(n: nat, i0: nat, i1: nat, i2: nat, i3: nat, counter: nat)
    ensures Pack(n, i0, i1, i2, i3, counter) == i0 + Shl(i1 + Shl(i2 + Shl(i3 + Shl(counter, n), n), n), n)
  {
    var x3 := i3 + Shl(counter, n);
    var x2 := i2 + Shl(x3, n);
    Shifts(n);
    ShlSum(i3, counter, n + n + n, n);
    ShlSum(i2, x3, n + n, n);
    ShlSum(i1, x2, n, n);
  }

  lemma Nested(w: nat, n: nat, p: nat, i: nat, rest: nat)
    requires Shr(w, IndexShift(n, p)) == i + Shl(rest, n) && i < Pow2(n)
    ensures Shr(w, IndexShift(n, p + 1)) == rest
    ensures p < 4 ==> IndexExt(w, n, p) == i
  {
    Join(rest, i, n);
    ShrShr(w, IndexShift(n, p), n);
    if p < 4 { IndexExtIsField(w, n, p); }
  }

  lemma Unpack(n: nat, i0: nat, i1: nat, i2: nat, i3: nat, counter: nat)
    requires i0 < Pow2(n) && i1 < Pow2(n) && i2 < Pow2(n) && i3 < Pow2(n)
    ensures var w := Pack(n, i0, i1, i2, i3, counter);
            && IndexExt(w, n, 0) == i0 && IndexExt(w, n, 1) == i1 && IndexExt(w, n, 2) == i2 && IndexExt(w, n, 3) == i3
            && Shr(w, IndicesBits(n)) == counter
  {
    var x3 := i3 + Shl(counter, n);
    var x2 := i2 + Shl(x3, n);
    var x1 := i1 + Shl(x2, n);
    var w := Pack(n, i0, i1, i2, i3, counter);
    PackNested(n, i0, i1, i2, i3, counter);
    Nested(w, n, 0, i0, x1);
    Nested(w, n, 1, i1, x2);
    Nested(w, n, 2, i2, x3);
    Nested(w, n, 3, i3, counter);
  }

  function IndexAfterInc(w: nat, n: nat, p: Priority, q: Priority): (i: nat)
    ensures i < Pow2(n)
  {
    HighLow(IndexExt(w, n, p) + 1, n);
    IndexExtIsField(w, n, q);
    if p == q then Low(IndexExt(w, n, p) + 1, n) else IndexExt(w, n, q)
  }

  /** The pieces of the other three indices. */
  function OtherPieces(w: nat, n: nat, p: Priority): nat {
    (if p == 0 then 0 else Piece(w, n, 0)) + (if p == 1 then 0 else Piece(w, n, 1))
    + (if p == 2 then 0 else Piece(w, n, 2)) + (if p == 3 then 0 else Piece(w, n, 3))
  }

  lemma StitchOthers(n: nat, i: nat, p: Priority, k: nat, w: nat)
    requires i < Pow2(n)
    ensures Or(Or(Shl(i, IndexShift(n, p)), Shl(k, IndicesBits(n))), And(w, IndexMaskCompl(n, p))) ==
            Shl(i, IndexShift(n, p)) + Shl(k, IndicesBits(n)) + OtherPieces(w, n, p)
  {
    if p == 0 { Stitch(n, i, p, k, w, 1, 2, 3); }
    else if p == 1 { Stitch(n, i, p, k, w, 0, 2, 3); }
    else if p == 2 { Stitch(n, i, p, k, w, 0, 1, 3); }
    else { Stitch(n, i, p, k, w, 0, 1, 2); }
  }

  lemma AndLowNext(x: nat, y: nat, k: nat)
    requires x == y
    ensures And(x + 1, Pow2(k) - 1) == Low(y + 1, k)
  {
    AndLow(y + 1, k);
  }

  lemma IncParts(w: nat, n: nat, m: nat, p: Priority)
    requires IsWord(w, n, m)
    ensures And(IndexExt(w, n, p) + 1, Pow2(n) - 1) == IndexAfterInc(w, n, p, p)
    ensures And(CounterOf(w, n, m) + 1, Pow2(m) - 1) == Low(Shr(w, IndicesBits(n)) + 1, m)
  {
    AndLowNext(IndexExt(w, n, p), IndexExt(w, n, p), n);
    CounterIsHigh(w, n, m);
    AndLowNext(CounterOf(w, n, m), Shr(w, IndicesBits(n)), m);
  }

  lemma IncIsSum(w: nat, n: nat, m: nat, p: Priority)
    requires IsWord(w, n, m)
    ensures Inc(w, n, m, p) == Shl(IndexAfterInc(w, n, p, p), IndexShift(n, p))
                               + Shl(Low(Shr(w, IndicesBits(n)) + 1, m), IndicesBits(n)) + OtherPieces(w, n, p)
  {
    IncParts(w, n, m, p);
    StitchOthers(n, IndexAfterInc(w, n, p, p), p, Low(Shr(w, IndicesBits(n)) + 1, m), w);
  }

  lemma IncIsPack(w: nat, n: nat, m: nat, p: Priority)
    requires IsWord(w, n, m)
    ensures Inc(w, n, m, p) == Pack(n, IndexAfterInc(w, n, p, 0), IndexAfterInc(w, n, p, 1), IndexAfterInc(w, n, p, 2),
                                    IndexAfterInc(w, n, p, 3), Low(Shr(w, IndicesBits(n)) + 1, m))
  {
    IncIsSum(w, n, m, p);
    PiecesPack(w, n, p, Low(Shr(w, IndicesBits(n)) + 1, m));
  }

  lemma PiecesPack(w: nat, n: nat, p: Priority, k: nat)
    ensures Shl(IndexAfterInc(w, n, p, p), IndexShift(n, p)) + Shl(k, IndicesBits(n)) + OtherPieces(w, n, p) ==
            Pack(n, IndexAfterInc(w, n, p, 0), IndexAfterInc(w, n, p, 1), IndexAfterInc(w, n, p, 2), IndexAfterInc(w, n, p, 3), k)
  {
  }

  lemma PackIsWord(r: nat, k: nat, b: nat, m: nat)
    requires Shr(r, b) == k && k < Pow2(m)
    ensures r < Pow2(b + m)
  {
    HighLow(r, b);
    SumBelow(Low(r, b), k, b, m);
  }

  lemma UnpackAt(n: nat, i: seq<nat>, counter: nat, q: Priority)
    requires |i| == 4 && forall j :: 0 <= j < 4 ==> i[j] < Pow2(n)
    ensures IndexExt(Pack(n, i[0], i[1], i[2], i[3], counter), n, q) == i[q]
    ensures Shr(Pack(n, i[0], i[1], i[2], i[3], counter), IndicesBits(n)) == counter
  {
    Unpack(n, i[0], i[1], i[2], i[3], counter);
  }

  /** All indices after incrementing that of p. */
  function AfterInc(w: nat, n: nat, p: Priority): (i: seq<nat>)
    ensures |i| == 4 && (forall j :: 0 <= j < 4 ==> i[j] < Pow2(n))
    ensures forall q: Priority :: i[q] == if q == p then Low(IndexExt(w, n, p) + 1, n) else IndexExt(w, n, q)
  {
    [IndexAfterInc(w, n, p, 0), IndexAfterInc(w, n, p, 1), IndexAfterInc(w, n, p, 2), IndexAfterInc(w, n, p, 3)]
  }

  lemma PackFields(n: nat, m: nat, i: seq<nat>, k: nat, r: nat)
    requires |i| == 4 && (forall j :: 0 <= j < 4 ==> i[j] < Pow2(n)) && k < Pow2(m)
    requires r == Pack(n, i[0], i[1], i[2], i[3], k)
    ensures forall q: Priority :: IndexExt(r, n, q) == i[q]
    ensures Shr(r, IndicesBits(n)) == k && IsWord(r, n, m)
  {
    forall q: Priority ensures IndexExt(r, n, q) == i[q] { UnpackAt(n, i, k, q); }
    UnpackAt(n, i, k, 0);
    PackIsWord(r, k, IndicesBits(n), m);
  }

  /** Inc adds one to the chosen index and to the counter, modulo their widths, and leaves the other
      indices alone. */
  lemma IncFields(w: nat, n: nat, m: nat, p: Priority)
    requires IsWord(w, n, m)
    ensures var r := Inc(w, n, m, p);
            && (forall q: Priority :: IndexExt(r, n, q) == if q == p then Low(IndexExt(w, n, p) + 1, n) else IndexExt(w, n, q))
            && Shr(r, IndicesBits(n)) == Low(Shr(w, IndicesBits(n)) + 1, m) && IsWord(r, n, m)
  {
    IncIsPack(w, n, m, p);
    HighLow(Shr(w, IndicesBits(n)) + 1, m);
    PackFields(n, m, AfterInc(w, n, p), Low(Shr(w, IndicesBits(n)) + 1, m), Inc(w, n, m, p));
  }

  // ------------------------------------------------------------ all indices at once

  predicate SameIndex(x: nat, y: nat, n: nat, p: Priority) { IndexExt(x, n, p) == IndexExt(y, n, p) }

  /** Only the index of p may differ. */
  predicate KeepsOthers(x: nat, y: nat, n: nat, p: Priority) { forall q: Priority :: q != p ==> SameIndex(x, y, n, q) }

  /** Two words agree on the low bits exactly if they agree on every index. */
  lemma SameIndices(x: nat, y: nat, n: nat)
    ensures And(Xor(x, y), Pow2(IndicesBits(n)) - 1) == 0 <==> forall p: Priority :: SameIndex(x, y, n, p)
  {
    XorLowZero(x, y, IndicesBits(n));
    SameUpTo(x, y, n, 4);
  }

  lemma {:induction false} SameUpTo(x: nat, y: nat, n: nat, q: nat)
    requires q <= 4
    ensures Low(x, IndexShift(n, q)) == Low(y, IndexShift(n, q)) <==> forall p: Priority :: p < q ==> SameIndex(x, y, n, p)
  {
    if q > 0 {
      var s := IndexShift(n, q - 1);
      SameUpTo(x, y, n, q - 1);
      SameLonger(x, y, s, n);
      IndexExtIsField(x, n, q - 1);
      IndexExtIsField(y, n, q - 1);
      assert SameIndex(x, y, n, q - 1) <==> Field(x, s, n) == Field(y, s, n);
    }
  }

  lemma SameLonger(x: nat, y: nat, s: nat, n: nat)
    ensures Low(x, s + n) == Low(y, s + n) <==> Low(x, s) == Low(y, s) && Field(x, s, n) == Field(y, s, n)
  {
    LowSplit(x, s, n);
    LowSplit(y, s, n);
    HighLow(x, s);
    HighLow(y, s);
    Join(Field(x, s, n), Low(x, s), s);
    Join(Field(y, s, n), Low(y, s), s);
  }
}
