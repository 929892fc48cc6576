/**
 TaskDeque (async/concurrent/task_deque.h) used by one thread at a time, with its 32-bit words and masks:
 it is a bounded double-ended queue, however often the words have wrapped around.
 */
module SequentialDeque {
  import opened Bits
  import opened Ring
  import opened WordPositions
  import opened Wrappers
  import TaskDeque

  type Task = TaskDeque.Task
  type Elem = TaskDeque.Elem

  // ------------------------------------------------------------ what the words and slots stand for

  /** j places from the back: the task there, or an empty slot. */
  predicate CellIs(e: Elem, j: nat, c: seq<Task>) {
    if j < |c| then e.mark.Ready? && e.task == c[j] else e.mark.Empty?
  }

  predicate CellAt(k: nat, back: nat, slots: seq<Elem>, c: seq<Task>, j: nat)
    requires |slots| == Pow2(k)
  {
    CellIs(slots[Slot(back + j, Pow2(k))], j, c)
  }

  predicate WordsFit(k: nat, front: nat, back: nat, n: nat) {
    front < WORDS && back < WORDS && n <= Pow2(k) && Slot(front, Pow2(k + 1)) == Slot(back + n, Pow2(k + 1))
  }

  /** The deque holds the tasks c, back end first. */
  predicate Holds(k: nat, front: nat, back: nat, slots: seq<Elem>, c: seq<Task>) {
    && 2 <= k <= 16 && |slots| == Pow2(k) && WordsFit(k, front, back, |c|)
    && forall j :: 0 <= j < Pow2(k) ==> CellAt(k, back, slots, c, j)
  }

  lemma IndexOfWord(w: nat, k: nat)
    ensures And(w, Mask(k)) == Slot(w, Pow2(k))
  {
    MaskIsSlot(w, k);
  }

  /** Words with the same index modulo twice the capacity use the same slot. */
  lemma SameSlot(x: int, y: int, k: nat)
    requires Slot(x, Pow2(k + 1)) == Slot(y, Pow2(k + 1))
    ensures Slot(x, Pow2(k)) == Slot(y, Pow2(k))
  {
    SlotHalf(x, Pow2(k));
    SlotHalf(y, Pow2(k));
  }

  /** The slot of the front word is n places from the back; the one before it is n - 1 places. */
  lemma FrontIndex(k: nat, front: nat, back: nat, n: nat)
    requires WordsFit(k, front, back, n)
    ensures Slot(front, Pow2(k)) == Slot(back + n, Pow2(k))
    ensures Slot(front - 1, Pow2(k + 1)) == Slot(back + n - 1, Pow2(k + 1))
    ensures Slot(front - 1, Pow2(k)) == Slot(back + n - 1, Pow2(k))
  {
    SameSlot(front, back + n, k);
    SlotsAgree(front, back + n, -1, Pow2(k + 1));
    SameSlot(front - 1, back + n - 1, k);
  }

  lemma FrontSlots(k: nat, front: nat, back: nat, slots: seq<Elem>, c: seq<Task>)
    requires Holds(k, front, back, slots, c)
    ensures |c| < Pow2(k) ==> slots[Slot(front, Pow2(k))].mark.Empty?
    ensures |c| == Pow2(k) ==> slots[Slot(front, Pow2(k))].mark.Ready?
    ensures |c| == 0 ==> slots[Slot(front - 1, Pow2(k))].mark.Empty?
    ensures |c| > 0 ==> slots[Slot(front - 1, Pow2(k))] == TaskDeque.Elem(TaskDeque.Ready, c[|c| - 1])
  {
    var cap := Pow2(k);
    FrontIndex(k, front, back, |c|);
    SlotLap(back, cap);
    SlotLap(back - 1, cap);
    assert CellAt(k, back, slots, c, if |c| < cap then |c| else 0);
    assert CellAt(k, back, slots, c, if |c| > 0 then |c| - 1 else cap - 1);
  }

  lemma BackSlots(k: nat, front: nat, back: nat, slots: seq<Elem>, c: seq<Task>)
    requires Holds(k, front, back, slots, c)
    ensures |c| == 0 ==> slots[Slot(back, Pow2(k))].mark.Empty?
    ensures |c| > 0 ==> slots[Slot(back, Pow2(k))] == TaskDeque.Elem(TaskDeque.Ready, c[0])
    ensures |c| < Pow2(k) ==> slots[Slot(back - 1, Pow2(k))].mark.Empty?
    ensures |c| == Pow2(k) ==> slots[Slot(back - 1, Pow2(k))].mark.Ready?
  {
    SlotLap(back - 1, Pow2(k));
    assert CellAt(k, back, slots, c, 0) && CellAt(k, back, slots, c, Pow2(k) - 1);
  }

  lemma OtherSlot(b: int, cap: nat, i: nat, j: nat)
    requires i < cap && j < cap && i != j
    ensures Slot(b + i, cap) != Slot(b + j, cap)
  {
    SlotsDiffer(b, cap);
  }

  // ------------------------------------------------------------ the operations on words and slots

  lemma PushFrontHolds(k: nat, front: nat, back: nat, slots: seq<Elem>, c: seq<Task>, task: Task)
    requires Holds(k, front, back, slots, c) && |c| < Pow2(k)
    ensures Holds(k, Forward(front, k), back, slots[Slot(front, Pow2(k)) := TaskDeque.Elem(TaskDeque.Ready, task)], c + [task])
  {
    var slots' := slots[Slot(front, Pow2(k)) := TaskDeque.Elem(TaskDeque.Ready, task)];
    FrontIndex(k, front, back, |c|);
    assert WordsFit(k, Forward(front, k), back, |c| + 1) by {
      ForwardMoves(front, k);
      PowerMonotone(2, k);
      SlotsAgree(front, back + |c|, 1, Pow2(k + 1));
    }
    var c' := c + [task];
    forall j | 0 <= j < Pow2(k) ensures CellAt(k, back, slots', c', j) {
      assert CellAt(k, back, slots, c, j);
      if j != |c| { OtherSlot(back, Pow2(k), |c|, j); }
    }
  }

  lemma PopFrontHolds(k: nat, front: nat, back: nat, slots: seq<Elem>, c: seq<Task>, e: Elem)
    requires Holds(k, front, back, slots, c) && |c| > 0 && e.mark.Empty?
    ensures Holds(k, Backward(front, k), back, slots[Slot(front - 1, Pow2(k)) := e], c[..|c| - 1])
  {
    var slots', c', i := slots[Slot(front - 1, Pow2(k)) := e], c[..|c| - 1], Slot(front - 1, Pow2(k));
    assert i == Slot(back + |c| - 1, Pow2(k)) && WordsFit(k, Backward(front, k), back, |c'|) by {
      FrontIndex(k, front, back, |c|);
      BackwardMoves(front, k);
    }
    forall j | 0 <= j < Pow2(k) ensures CellAt(k, back, slots', c', j) {
      assert CellAt(k, back, slots, c, j);
      if j != |c| - 1 { OtherSlot(back, Pow2(k), |c| - 1, j); }
    }
  }

  /** The slots seen from a back word whose index is one lower or higher. */
  lemma SlotFrom(back': nat, back: nat, d: int, j: nat, k: nat)
    requires Slot(back', Pow2(k + 1)) == Slot(back + d, Pow2(k + 1)) && j <= Pow2(k)
    ensures Slot(back' + j, Pow2(k)) == Slot(back + d + j, Pow2(k))
    ensures Slot(back' + j, Pow2(k + 1)) == Slot(back + d + j, Pow2(k + 1))
  {
    SlotsAgree(back', back + d, j, Pow2(k + 1));
    SameSlot(back' + j, back + d + j, k);
  }

  lemma PushBackCell(k: nat, back: nat, back': nat, slots: seq<Elem>, c: seq<Task>, task: Task, j: nat)
    requires |slots| == Pow2(k) && j < Pow2(k) && Slot(back' + j, Pow2(k)) == Slot(back - 1 + j, Pow2(k))
    requires j > 0 ==> CellAt(k, back, slots, c, j - 1)
    ensures CellAt(k, back', slots[Slot(back - 1, Pow2(k)) := TaskDeque.Elem(TaskDeque.Ready, task)], [task] + c, j)
  {
    if j > 0 { OtherSlot(back - 1, Pow2(k), 0, j); }
  }

  lemma BackwardSlot(k: nat, back: nat, j: nat)
    requires back < WORDS && k <= 16 && j <= Pow2(k)
    ensures Slot(Backward(back, k) + j, Pow2(k)) == Slot(back - 1 + j, Pow2(k))
  {
    BackwardMoves(back, k);
    SlotFrom(Backward(back, k), back, -1, j, k);
  }

  lemma PushBackCellAt(k: nat, front: nat, back: nat, slots: seq<Elem>, c: seq<Task>, task: Task, j: nat)
    requires Holds(k, front, back, slots, c) && |c| < Pow2(k) && j < Pow2(k)
    ensures CellAt(k, Backward(back, k), slots[Slot(back - 1, Pow2(k)) := TaskDeque.Elem(TaskDeque.Ready, task)], [task] + c, j)
  {
    BackwardSlot(k, back, j);
    assert j > 0 ==> CellAt(k, back, slots, c, j - 1);
    PushBackCell(k, back, Backward(back, k), slots, c, task, j);
  }

  lemma PushBackWords(k: nat, front: nat, back: nat, n: nat)
    requires 2 <= k <= 16 && WordsFit(k, front, back, n) && n < Pow2(k)
    ensures WordsFit(k, front, Backward(back, k), n + 1)
  {
    BackwardMoves(back, k);
    SlotFrom(Backward(back, k), back, -1, n + 1, k);
  }

  lemma PushBackHolds(k: nat, front: nat, back: nat, slots: seq<Elem>, c: seq<Task>, task: Task)
    requires Holds(k, front, back, slots, c) && |c| < Pow2(k)
    ensures Holds(k, front, Backward(back, k), slots[Slot(back - 1, Pow2(k)) := TaskDeque.Elem(TaskDeque.Ready, task)], [task] + c)
  {
    var slots', back', c' := slots[Slot(back - 1, Pow2(k)) := TaskDeque.Elem(TaskDeque.Ready, task)], Backward(back, k), [task] + c;
    PushBackWords(k, front, back, |c|);
    forall j | 0 <= j < Pow2(k) ensures CellAt(k, back', slots', c', j) {
      PushBackCellAt(k, front, back, slots, c, task, j);
    }
  }

  lemma PopBackCell(k: nat, back: nat, back': nat, slots: seq<Elem>, c: seq<Task>, e: Elem, j: nat)
    requires |slots| == Pow2(k) && 0 < |c| <= Pow2(k) && j < Pow2(k) && e.mark.Empty?
    requires Slot(back' + j, Pow2(k)) == Slot(back + 1 + j, Pow2(k))
    requires j + 1 < Pow2(k) ==> CellAt(k, back, slots, c, j + 1)
    ensures CellAt(k, back', slots[Slot(back, Pow2(k)) := e], c[1..], j)
  {
    if j + 1 < Pow2(k) { OtherSlot(back, Pow2(k), 0, j + 1); } else { SlotLap(back, Pow2(k)); }
  }

  lemma PopBackCellAt(k: nat, front: nat, back: nat, slots: seq<Elem>, c: seq<Task>, e: Elem, j: nat)
    requires Holds(k, front, back, slots, c) && |c| > 0 && e.mark.Empty? && j < Pow2(k)
    ensures CellAt(k, Forward(back, k), slots[Slot(back, Pow2(k)) := e], c[1..], j)
  {
    ForwardMoves(back, k);
    SlotFrom(Forward(back, k), back, 1, j, k);
    assert j + 1 < Pow2(k) ==> CellAt(k, back, slots, c, j + 1);
    PopBackCell(k, back, Forward(back, k), slots, c, e, j);
  }

  lemma PopBackWords(k: nat, front: nat, back: nat, n: nat)
    requires 2 <= k <= 16 && WordsFit(k, front, back, n) && n > 0
    ensures WordsFit(k, front, Forward(back, k), n - 1)
  {
    ForwardMoves(back, k);
    SlotFrom(Forward(back, k), back, 1, n - 1, k);
  }

  lemma PopBackHolds(k: nat, front: nat, back: nat, slots: seq<Elem>, c: seq<Task>, e: Elem)
    requires Holds(k, front, back, slots, c) && |c| > 0 && e.mark.Empty?
    ensures Holds(k, front, Forward(back, k), slots[Slot(back, Pow2(k)) := e], c[1..])
  {
    var slots', back', c' := slots[Slot(back, Pow2(k)) := e], Forward(back, k), c[1..];
    PopBackWords(k, front, back, |c|);
    forall j | 0 <= j < Pow2(k) ensures CellAt(k, back', slots', c', j) {
      PopBackCellAt(k, front, back, slots, c, e, j);
    }
  }

  // ------------------------------------------------------------ sizes

  /** CalculateSize on two words. */
  function CalculateSize(front: nat, back: nat, k: nat): int {
    SizeOf(And(front, Mask2(k)), And(back, Mask2(k)), Pow2(k))
  }

  function SizeOf(front: int, back: int, cap: nat): int {
    var diff := front - back;
    var size := if diff < 0 then diff + 2 * cap else diff;
    if size > cap then cap else size
  }

  function MaybeZero(front: nat, back: nat, k: nat): nat { And(Xor(front, back), Mask2(k)) }

  /** For words whose positions are d apart, d at most the capacity and one as in concurrent use, the
      size is d, capped at the capacity, and the emptiness test agrees with it. */
  lemma SizeFromDistance(front: nat, back: nat, d: nat, k: nat)
    requires k >= 1 && Slot(front, Pow2(k + 1)) == Slot(back + d, Pow2(k + 1)) && d <= Pow2(k) + 1
    ensures CalculateSize(front, back, k) == if d <= Pow2(k) then d else Pow2(k)
    ensures MaybeZero(front, back, k) == 0 <==> d == 0
    ensures MaybeZero(front, back, k) == 0 <==> CalculateSize(front, back, k) == 0
  {
    assert Pow2(k) >= 2 by { PowerMonotone(1, k); }
    SizeIsOfSlots(front, back, k);
    SizeOfSlots(back, d, Pow2(k));
    ZeroOfSlots(front, back, k);
  }

  lemma SizeIsOfSlots(front: nat, back: nat, k: nat)
    ensures CalculateSize(front, back, k) == SizeOf(Slot(front, Pow2(k + 1)), Slot(back, Pow2(k + 1)), Pow2(k))
  {
    MaskIsSlot(front, k + 1);
    MaskIsSlot(back, k + 1);
  }

  lemma ZeroOfSlots(front: nat, back: nat, k: nat)
    ensures MaybeZero(front, back, k) == 0 <==> Slot(front, Pow2(k + 1)) == Slot(back, Pow2(k + 1))
  {
    XorLowZero(front, back, k + 1);
    SlotIsLow(front, k + 1);
    SlotIsLow(back, k + 1);
  }

  lemma SizeOfSlots(back: nat, d: nat, cap: nat)
    requires cap >= 2 && d <= cap + 1
    ensures SizeOf(Slot(back + d, 2 * cap), Slot(back, 2 * cap), cap) == if d <= cap then d else cap
    ensures Slot(back + d, 2 * cap) == Slot(back, 2 * cap) <==> d == 0
  {
    SlotAdd(back, d, 2 * cap);
  }

  lemma SizeIsLength(k: nat, front: nat, back: nat, slots: seq<Elem>, c: seq<Task>)
    requires Holds(k, front, back, slots, c)
    ensures CalculateSize(front, back, k) == |c| && (MaybeZero(front, back, k) == 0 <==> c == [])
  {
    SizeFromDistance(front, back, |c|, k);
  }

  // ------------------------------------------------------------ taking half

  function Half(n: nat): nat { (n + 1) / 2 }

  function Reversed(s: seq<Task>): (r: seq<Task>)
    ensures |r| == |s|
  {
    if s == [] then [] else [s[|s| - 1]] + Reversed(s[..|s| - 1])
  }

  lemma {:induction false} ReversedAt(s: seq<Task>, i: nat)
    requires i < |s|
    ensures Reversed(s)[i] == s[|s| - 1 - i]
  {
    if i > 0 { ReversedAt(s[..|s| - 1], i - 1); }
  }

  lemma ReversedSnoc(s: seq<Task>, x: Task)
    ensures Reversed([x] + s) == Reversed(s) + [x]
  {
    var r, q := Reversed([x] + s), Reversed(s) + [x];
    forall i | 0 <= i < |r| ensures r[i] == q[i] {
      ReversedAt([x] + s, i);
      if i < |s| { ReversedAt(s, i); }
    }
  }

  /** Cells i + 1 .. h are already empty, the others are as in c. */
  predicate HalfAt(k: nat, back: nat, slots: seq<Elem>, c: seq<Task>, i: int, h: nat, j: nat)
    requires |slots| == Pow2(k)
  {
    if i < j < h then slots[Slot(back + j, Pow2(k))].mark.Empty? else CellAt(k, back, slots, c, j)
  }

  predicate HalfGone(k: nat, back: nat, slots: seq<Elem>, c: seq<Task>, i: int, h: nat)
    requires |slots| == Pow2(k)
  {
    forall j :: 0 <= j < Pow2(k) ==> HalfAt(k, back, slots, c, i, h, j)
  }

  lemma HalfStep(k: nat, back: nat, slots: seq<Elem>, c: seq<Task>, i: nat, h: nat, e: Elem)
    requires |slots| == Pow2(k) && i < h <= |c| <= Pow2(k) && e.mark.Empty? && HalfGone(k, back, slots, c, i, h)
    ensures HalfGone(k, back, slots[Slot(back + i, Pow2(k)) := e], c, i - 1, h)
    ensures slots[Slot(back + i, Pow2(k))] == TaskDeque.Elem(TaskDeque.Ready, c[i])
  {
    var slots', i' := slots[Slot(back + i, Pow2(k)) := e], i - 1;
    assert HalfAt(k, back, slots, c, i, h, i);
    forall j | 0 <= j < Pow2(k) ensures HalfAt(k, back, slots', c, i', h, j) {
      assert HalfAt(k, back, slots, c, i, h, j);
      if j != i { OtherSlot(back, Pow2(k), i, j); }
    }
  }

  lemma HalfCell(k: nat, back: nat, back': nat, slots: seq<Elem>, c: seq<Task>, h: nat, j: nat)
    requires |slots| == Pow2(k) && h <= |c| <= Pow2(k) && j < Pow2(k) && HalfGone(k, back, slots, c, -1, h)
    requires Slot(back' + j, Pow2(k)) == Slot(back + h + j, Pow2(k))
    ensures CellAt(k, back', slots, c[h..], j)
  {
    if h + j < Pow2(k) {
      assert HalfAt(k, back, slots, c, -1, h, h + j);
    } else {
      SlotLap(back + (h + j - Pow2(k)), Pow2(k));
      assert HalfAt(k, back, slots, c, -1, h, h + j - Pow2(k));
    }
  }

  lemma HalfDone(k: nat, front: nat, back: nat, back': nat, slots: seq<Elem>, c: seq<Task>, h: nat)
    requires 2 <= k <= 16 && |slots| == Pow2(k) && WordsFit(k, front, back, |c|) && h <= |c|
    requires HalfGone(k, back, slots, c, -1, h) && back' < WORDS
    requires Slot(back', Pow2(k + 1)) == Slot(back + h, Pow2(k + 1))
    ensures Holds(k, front, back', slots, c[h..])
  {
    SlotFrom(back', back, h, |c| - h, k);
    var c' := c[h..];
    forall j | 0 <= j < Pow2(k) ensures CellAt(k, back', slots, c', j) {
      SlotFrom(back', back, h, j, k);
      HalfCell(k, back, back', slots, c, h, j);
    }
  }

  /** Signed reading of a 32-bit difference. */
  function Signed32(x: nat): int { if x < 0x8000_0000 then x else x - WORDS }

  lemma WordSlot(back: nat, i: nat, k: nat)
    requires k <= 32
    ensures Slot(Add32(back, i), Pow2(k)) == Slot(back + i, Pow2(k))
  {
    SlotOfWord(back + i, k);
  }

  lemma HalfBack(back: nat, h: nat, k: nat)
    requires back < WORDS && k <= 16 && 1 <= h <= Pow2(k)
    ensures Slot(Forward(Add32(back, h - 1), k), Pow2(k + 1)) == Slot(back + h, Pow2(k + 1))
  {
    ForwardMoves(Add32(back, h - 1), k);
    WordSlot(back, h - 1, k + 1);
    PowerMonotone(0, k);
    SlotsAgree(Add32(back, h - 1), back + h - 1, 1, Pow2(k + 1));
  }

  /** The distance of mid from back says whether the walk goes on. */
  lemma MidDistance(back: nat, i: int)
    requires back < WORDS && -1 <= i < 0x1_0000
    ensures Signed32(Sub32((back + i) % WORDS, back)) >= 0 <==> i >= 0
    ensures i >= 0 ==> Sub32((back + i) % WORDS, 1) == (back + i - 1) % WORDS
  {
  }

  /** The walk of PopBackHalf has taken c[i + 1 .. h], last one first. */
  predicate Walk(k: nat, back: nat, slots: seq<Elem>, c: seq<Task>, i: int, mid: nat, n: int, start: nat, result: seq<Task>) {
    var h := Half(|c|);
    && |slots| == Pow2(k) && -1 <= i < h <= |c| <= Pow2(k) <= 0x1_0000 && 2 <= k <= 16 && back < WORDS
    && n == h - 1 - i && mid == (back + i) % WORDS
    && (n > 0 ==> start == Add32(back, h - 1))
    && HalfGone(k, back, slots, c, i, h)
    && result == Reversed(c[i + 1..h])
  }

  lemma WalkStart(k: nat, front: nat, back: nat, slots: seq<Elem>, c: seq<Task>)
    requires Holds(k, front, back, slots, c) && c != []
    ensures Walk(k, back, slots, c, Half(|c|) - 1, if |c| > 1 then Add32(back, (|c| - 1) / 2) else back, 0, 0, [])
  {
    PowerMonotone(k, 16);
    Powers16();
    var h, i := Half(|c|), Half(|c|) - 1;
    assert (|c| - 1) / 2 == i;
    forall j | 0 <= j < Pow2(k) ensures HalfAt(k, back, slots, c, i, h, j) {
      assert CellAt(k, back, slots, c, j);
    }
  }

  lemma WalkStep(k: nat, back: nat, slots: seq<Elem>, c: seq<Task>, i: nat, mid: nat, n: int, start: nat, result: seq<Task>)
    requires Walk(k, back, slots, c, i, mid, n, start, result)
    ensures var j := And(mid, Mask(k));
            && j < |slots| && slots[j].mark.Ready?
            && Walk(k, back, slots[j := slots[j].(mark := TaskDeque.Empty)], c, i - 1, Sub32(mid, 1), n + 1,
                    if n == 0 then mid else start, result + [slots[j].task])
  {
    var h := Half(|c|);
    WordSlot(back, i, k);
    IndexOfWord(mid, k);
    var j := And(mid, Mask(k));
    HalfStep(k, back, slots, c, i, h, slots[j].(mark := TaskDeque.Empty));
    MidDistance(back, i);
    ReversedSnoc(c[i + 1..h], c[i]);
    assert [c[i]] + c[i + 1..h] == c[i..h];
  }

  lemma WalkGoesOn(k: nat, back: nat, slots: seq<Elem>, c: seq<Task>, i: int, mid: nat, n: int, start: nat, result: seq<Task>)
    requires Walk(k, back, slots, c, i, mid, n, start, result)
    ensures Signed32(Sub32(mid, back)) >= 0 <==> i >= 0
  {
    MidDistance(back, i);
  }

  lemma WalkEnd(k: nat, front: nat, back: nat, slots: seq<Elem>, c: seq<Task>, mid: nat, n: int, start: nat, result: seq<Task>)
    requires c != [] && Walk(k, back, slots, c, -1, mid, n, start, result) && WordsFit(k, front, back, |c|)
    ensures Holds(k, front, Forward(start, k), slots, c[Half(|c|)..]) && result == Reversed(c[..Half(|c|)]) && n == Half(|c|)
  {
    HalfBack(back, Half(|c|), k);
    HalfDone(k, front, back, Forward(start, k), slots, c, Half(|c|));
    assert c[0..Half(|c|)] == c[..Half(|c|)];
  }

  // ------------------------------------------------------------ what each operation finds

  lemma AtPushFront(k: nat, front: nat, back: nat, slots: seq<Elem>, c: seq<Task>, task: Task)
    requires Holds(k, front, back, slots, c)
    ensures var i := And(front, Mask(k));
            && i < |slots| && (slots[i].mark.Empty? <==> |c| < Pow2(k))
            && (|c| < Pow2(k) ==> Holds(k, Forward(front, k), back, slots[i := TaskDeque.Elem(TaskDeque.Ready, task)], c + [task]))
  {
    FrontSlots(k, front, back, slots, c);
    IndexOfWord(front, k);
    if |c| < Pow2(k) { PushFrontHolds(k, front, back, slots, c, task); }
  }

  lemma AtPopFront(k: nat, front: nat, back: nat, slots: seq<Elem>, c: seq<Task>)
    requires Holds(k, front, back, slots, c)
    ensures var i := And(Sub32(front, 1), Mask(k));
            && i < |slots| && (slots[i].mark.Ready? <==> c != [])
            && (c != [] ==> slots[i].task == c[|c| - 1])
            && (c != [] ==> Holds(k, Backward(front, k), back, slots[i := slots[i].(mark := TaskDeque.Empty)], c[..|c| - 1]))
  {
    FrontSlots(k, front, back, slots, c);
    BackIndex(front, k);
    if c != [] { PopFrontHolds(k, front, back, slots, c, slots[And(Sub32(front, 1), Mask(k))].(mark := TaskDeque.Empty)); }
  }

  lemma AtPushBack(k: nat, front: nat, back: nat, slots: seq<Elem>, c: seq<Task>, task: Task)
    requires Holds(k, front, back, slots, c)
    ensures var i := And(Sub32(back, 1), Mask(k));
            && i < |slots| && (slots[i].mark.Empty? <==> |c| < Pow2(k))
            && (|c| < Pow2(k) ==> Holds(k, front, Backward(back, k), slots[i := TaskDeque.Elem(TaskDeque.Ready, task)], [task] + c))
  {
    BackSlots(k, front, back, slots, c);
    BackIndex(back, k);
    if |c| < Pow2(k) { PushBackHolds(k, front, back, slots, c, task); }
  }

  lemma AtPopBack(k: nat, front: nat, back: nat, slots: seq<Elem>, c: seq<Task>)
    requires Holds(k, front, back, slots, c)
    ensures var i := And(back, Mask(k));
            && i < |slots| && (slots[i].mark.Ready? <==> c != [])
            && (c != [] ==> slots[i].task == c[0])
            && (c != [] ==> Holds(k, front, Forward(back, k), slots[i := slots[i].(mark := TaskDeque.Empty)], c[1..]))
  {
    BackSlots(k, front, back, slots, c);
    IndexOfWord(back, k);
    if c != [] { PopBackHolds(k, front, back, slots, c, slots[And(back, Mask(k))].(mark := TaskDeque.Empty)); }
  }

  lemma Powers16()
    ensures Pow2(16) == 0x1_0000
  {
    Powers();
    assert Pow2(16) == 2 * Pow2(15) && Pow2(15) == 2 * Pow2(14);
  }

  lemma BackIndex(w: nat, k: nat)
    requires w < WORDS && k <= 32
    ensures And(Sub32(w, 1), Mask(k)) == Slot(w - 1, Pow2(k))
  {
    IndexOfWord(Sub32(w, 1), k);
    SlotOfBack(w, k);
  }

  // ------------------------------------------------------------ the deque

  class Deque {
    const k: nat                  // the capacity is 2^k
    var front: nat                // mFront
    var back: nat                 // mBack
    const elems: array<Elem>      // mArray
    ghost var contents: seq<Task> // back end first

    ghost predicate Valid()
      reads this, elems
    {
      elems.Length == Pow2(k) && Holds(k, front, back, elems[..], contents)
    }

    constructor (k: nat)
      requires 2 <= k <= 16
      ensures Valid() && fresh(elems) && this.k == k && contents == []
    {
      this.k := k;
      front, back, contents := 0, 0, [];
      elems := new Elem[Pow2(k)](_ => TaskDeque.Elem(TaskDeque.Empty, 0));
      new;
      assert forall j: nat :: 0 <= j < Pow2(k) ==> CellAt(k, 0, elems[..], [], j);
    }

    /** Returns the task if the deque is full. */
    method PushFront(task: Task) returns (refused: Option<Task>)
      requires Valid()
      modifies this, elems
      ensures Valid()
      ensures if |old(contents)| < Pow2(k) then refused == None && contents == old(contents) + [task]
              else refused == Some(task) && contents == old(contents)
    {
      AtPushFront(k, front, back, elems[..], contents, task);
      var i := And(front, Mask(k));
      if !elems[i].mark.Empty? { return Some(task); }
      elems[i] := TaskDeque.Elem(TaskDeque.Ready, task);
      front := Forward(front, k);
      contents := contents + [task];
      return None;
    }

    /** Returns None if the deque is empty. */
    method PopFront() returns (task: Option<Task>)
      requires Valid()
      modifies this, elems
      ensures Valid()
      ensures if old(contents) == [] then task == None && contents == []
              else task == Some(old(contents)[|old(contents)| - 1]) && contents == old(contents)[..|old(contents)| - 1]
    {
      AtPopFront(k, front, back, elems[..], contents);
      var i := And(Sub32(front, 1), Mask(k));
      if !elems[i].mark.Ready? { return None; }
      task := Some(elems[i].task);
      elems[i] := elems[i].(mark := TaskDeque.Empty);
      front := Backward(front, k);
      contents := contents[..|contents| - 1];
    }

    method PushBack(task: Task) returns (refused: Option<Task>)
      requires Valid()
      modifies this, elems
      ensures Valid()
      ensures if |old(contents)| < Pow2(k) then refused == None && contents == [task] + old(contents)
              else refused == Some(task) && contents == old(contents)
    {
      AtPushBack(k, front, back, elems[..], contents, task);
      var i := And(Sub32(back, 1), Mask(k));
      if !elems[i].mark.Empty? { return Some(task); }
      elems[i] := TaskDeque.Elem(TaskDeque.Ready, task);
      back := Backward(back, k);
      contents := [task] + contents;
      return None;
    }

    method PopBack() returns (task: Option<Task>)
      requires Valid()
      modifies this, elems
      ensures Valid()
      ensures if old(contents) == [] then task == None && contents == []
              else task == Some(old(contents)[0]) && contents == old(contents)[1..]
    {
      var empty := Empty();
      if empty { return None; }
      AtPopBack(k, front, back, elems[..], contents);
      var i := And(back, Mask(k));
      if !elems[i].mark.Ready? { return None; }
      task := Some(elems[i].task);
      elems[i] := elems[i].(mark := TaskDeque.Empty);
      back := Forward(back, k);
      contents := contents[1..];
    }

    method Size() returns (size: int)
      requires Valid()
      ensures size == |contents|
    {
      SizeIsLength(k, front, back, elems[..], contents);
      size := CalculateSize(front, back, k);
    }

    method Empty() returns (empty: bool)
      requires Valid()
      ensures empty <==> contents == []
    {
      SizeIsLength(k, front, back, elems[..], contents);
      empty := MaybeZero(front, back, k) == 0;
    }

    /** Removes the back-most half, rounded up, and returns it from the middle outward to the back. */
    method PopBackHalf() returns (n: nat, result: seq<Task>)
      requires Valid()
      modifies this, elems
      ensures Valid() && n == |result| == Half(|old(contents)|)
      ensures result == Reversed(old(contents)[..n]) && contents == old(contents)[n..]
    {
      n, result := 0, [];
      var empty := Empty();
      if empty { return; }
      var size := Size();
      ghost var c := contents;
      ghost var i: int := Half(|c|) - 1;
      WalkStart(k, front, back, elems[..], c);
      var mid: nat := if size > 1 then Add32(back, (size - 1) / 2) else back;
      var start: nat := 0;
      while Signed32(Sub32(mid, back)) >= 0
        invariant front == old(front) && back == old(back) && contents == c
        invariant Walk(k, back, elems[..], c, i, mid, n, start, result)
        decreases i
      {
        WalkGoesOn(k, back, elems[..], c, i, mid, n, start, result);
        ghost var slots := elems[..];
        WalkStep(k, back, slots, c, i, mid, n, start, result);
        var j := And(mid, Mask(k));
        if n == 0 { start := mid; }
        result := result + [elems[j].task];
        elems[j] := elems[j].(mark := TaskDeque.Empty);
        assert elems[..] == slots[j := slots[j].(mark := TaskDeque.Empty)];
        n := n + 1;
        mid := Sub32(mid, 1);
        i := i - 1;
      }
      WalkGoesOn(k, back, elems[..], c, i, mid, n, start, result);
      WalkEnd(k, front, back, elems[..], c, mid, n, start, result);
      back := Forward(start, k);
      contents := c[n..];
    }
  }
}
