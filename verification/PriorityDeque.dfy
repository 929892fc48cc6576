/**
 TaskPriorityDeque (async/concurrent/task_priority_queue.h) used by one thread at a time: four bounded
 double-ended queues whose rolling indices share two words, popped in the order of their priority.
 The capacity of each is 2^k; the code has k = 10 and 20 counter bits.
 */
module PriorityDeque {
  import opened Bits
  import opened Ring
  import opened WordPositions
  import opened Wrappers
  import opened PriorityWord
  import SequentialDeque
  import TaskDeque

  type Task = TaskDeque.Task
  type Elem = TaskDeque.Elem

  /** index - 1 on unsigned words of the given width. */
  function Dec(index: nat, width: nat): nat { if index == 0 then Pow2(width) - 1 else index - 1 }

  /** Where the slots of priority p begin. */
  function Offset(k: nat, p: nat): nat { IndexShift(Pow2(k), p) }

  lemma LaneFits(k: nat, p: Priority)
    ensures Offset(k, p) + Pow2(k) <= Offset(k, 4)
  {
    ShiftsApart(Pow2(k), p, 4);
  }

  function LaneSlots(elems: seq<Elem>, k: nat, p: Priority): (slots: seq<Elem>)
    requires |elems| == Offset(k, 4)
    ensures |slots| == Pow2(k)
  {
    LaneFits(k, p);
    elems[Offset(k, p)..Offset(k, p) + Pow2(k)]
  }

  /** The slots and indices of priority p hold the tasks c. */
  predicate Lane(k: nat, front: nat, back: nat, elems: seq<Elem>, p: Priority, c: seq<Task>) {
    && |elems| == Offset(k, 4)
    && SequentialDeque.Holds(k, IndexExt(front, k + 1, p), IndexExt(back, k + 1, p), LaneSlots(elems, k, p), c)
  }

  predicate Lanes(k: nat, m: nat, front: nat, back: nat, elems: seq<Elem>, contents: seq<seq<Task>>) {
    && 2 <= k <= 10 && |contents| == 4 && IsWord(front, k + 1, m) && IsWord(back, k + 1, m)
    && forall p: Priority :: Lane(k, front, back, elems, p, contents[p])
  }

  // ------------------------------------------------------------ one lane changes, the others stay

  lemma SlotUpdate(elems: seq<Elem>, k: nat, p: Priority, i: nat, e: Elem, q: Priority)
    requires |elems| == Offset(k, 4) && i < Pow2(k)
    ensures Offset(k, p) + i < |elems| && elems[Offset(k, p) + i] == LaneSlots(elems, k, p)[i]
    ensures LaneSlots(elems[Offset(k, p) + i := e], k, q) ==
            if q == p then LaneSlots(elems, k, q)[i := e] else LaneSlots(elems, k, q)
  {
    LaneFits(k, p);
    LaneFits(k, q);
    if p < q { ShiftsApart(Pow2(k), p, q); }
    if q < p { ShiftsApart(Pow2(k), q, p); }
  }

  lemma SameFront(k: nat, f: nat, f': nat, b: nat, slots: seq<Elem>, c: seq<Task>)
    requires SequentialDeque.Holds(k, f, b, slots, c) && f' < WORDS && Slot(f', Pow2(k + 1)) == Slot(f, Pow2(k + 1))
    ensures SequentialDeque.Holds(k, f', b, slots, c)
  {
  }

  lemma SameBack(k: nat, f: nat, b: nat, b': nat, slots: seq<Elem>, c: seq<Task>)
    requires SequentialDeque.Holds(k, f, b, slots, c) && b' < WORDS && Slot(b', Pow2(k + 1)) == Slot(b, Pow2(k + 1))
    ensures SequentialDeque.Holds(k, f, b', slots, c)
  {
    SequentialDeque.SlotFrom(b', b, 0, |c|, k);
    forall j | 0 <= j < Pow2(k) ensures SequentialDeque.CellAt(k, b', slots, c, j) {
      SequentialDeque.SlotFrom(b', b, 0, j, k);
      assert SequentialDeque.CellAt(k, b, slots, c, j);
    }
  }

  lemma IndexIsWord(w: nat, k: nat, p: Priority)
    requires k <= 10
    ensures IndexExt(w, k + 1, p) < Pow2(k + 1) <= WORDS
    ensures Slot(IndexExt(w, k + 1, p), Pow2(k + 1)) == IndexExt(w, k + 1, p)
  {
    IndexExtIsField(w, k + 1, p);
    PowerUpTo(k + 1);
    SlotSmall(IndexExt(w, k + 1, p), Pow2(k + 1));
  }

  lemma IndexIsSlot(w: nat, k: nat, p: Priority)
    ensures Index(w, k + 1, p) == Slot(IndexExt(w, k + 1, p), Pow2(k))
  {
    IndexIsLow(w, k + 1, p);
    SlotIsLow(IndexExt(w, k + 1, p), k);
  }

  /** Inc moves the index of p one on. */
  lemma IncSlot(w: nat, k: nat, m: nat, p: Priority)
    requires IsWord(w, k + 1, m)
    ensures Slot(IndexExt(Inc(w, k + 1, m, p), k + 1, p), Pow2(k + 1)) == Slot(IndexExt(w, k + 1, p) + 1, Pow2(k + 1))
  {
    var i := IndexExt(w, k + 1, p);
    IncFields(w, k + 1, m, p);
    LowLow(i + 1, k + 1, k + 1);
    SlotIsLow(Low(i + 1, k + 1), k + 1);
    SlotIsLow(i + 1, k + 1);
  }

  lemma DecSlot(i: nat, a: nat, width: nat)
    requires a <= width
    ensures Slot(Dec(i, width), Pow2(a)) == Slot(i - 1, Pow2(a))
    ensures And(Dec(i, width), Pow2(a) - 1) == Slot(i - 1, Pow2(a))
  {
    MaskIsSlot(Dec(i, width), a);
    if i == 0 {
      SlotLap(-1, Pow2(a));
      SlotSmall(Pow2(a) - 1, Pow2(a));
      TopLow(width, a);
      SlotIsLow(Pow2(width) - 1, a);
    }
  }

  /** The word with the index of p one back. */
  function Back(w: nat, k: nat, m: nat, p: Priority): nat {
    WithIndexExt(w, And(Dec(IndexExt(w, k + 1, p), IndicesBits(k + 1) + m), Pow2(k + 1) - 1), k + 1, m, p)
  }

  lemma BackSlot(w: nat, k: nat, m: nat, p: Priority)
    requires IsWord(w, k + 1, m)
    ensures Slot(IndexExt(Back(w, k, m, p), k + 1, p), Pow2(k + 1)) == Slot(IndexExt(w, k + 1, p) - 1, Pow2(k + 1))
    ensures KeepsOthers(Back(w, k, m, p), w, k + 1, p)
    ensures IsWord(Back(w, k, m, p), k + 1, m)
  {
    var i := Slot(IndexExt(w, k + 1, p) - 1, Pow2(k + 1));
    DecSlot(IndexExt(w, k + 1, p), k + 1, IndicesBits(k + 1) + m);
    WithIndexExtFields(w, i, k + 1, m, p);
    SlotSmall(i, Pow2(k + 1));
  }

  lemma IncKeeps(w: nat, k: nat, m: nat, p: Priority)
    requires IsWord(w, k + 1, m)
    ensures KeepsOthers(Inc(w, k + 1, m, p), w, k + 1, p)
    ensures IsWord(Inc(w, k + 1, m, p), k + 1, m)
  {
    IncFields(w, k + 1, m, p);
  }

  /** A change of one slot of p and of the index of p keeps the other lanes. */
  lemma LaneChange(k: nat, m: nat, front: nat, back: nat, elems: seq<Elem>, contents: seq<seq<Task>>, p: Priority,
                   front': nat, back': nat, i: nat, e: Elem, c: seq<Task>)
    requires Lanes(k, m, front, back, elems, contents) && |elems| == Offset(k, 4) && i < Pow2(k)
    requires IsWord(front', k + 1, m) && IsWord(back', k + 1, m)
    requires KeepsOthers(front', front, k + 1, p)
    requires KeepsOthers(back', back, k + 1, p)
    requires SequentialDeque.Holds(k, IndexExt(front', k + 1, p), IndexExt(back', k + 1, p), LaneSlots(elems, k, p)[i := e], c)
    ensures Offset(k, p) + i < |elems|
    ensures Lanes(k, m, front', back', elems[Offset(k, p) + i := e], contents[p := c])
  {
    SlotUpdate(elems, k, p, i, e, p);
    var elems', contents' := elems[Offset(k, p) + i := e], contents[p := c];
    forall q: Priority ensures Lane(k, front', back', elems', q, contents'[q]) {
      SlotUpdate(elems, k, p, i, e, q);
      if q != p {
        assert Lane(k, front, back, elems, q, contents[q]);
        assert SameIndex(front', front, k + 1, q) && SameIndex(back', back, k + 1, q);
      }
    }
  }

  // ------------------------------------------------------------ what each operation finds

  lemma LaneAt(k: nat, m: nat, front: nat, back: nat, elems: seq<Elem>, contents: seq<seq<Task>>, p: Priority)
    requires Lanes(k, m, front, back, elems, contents)
    ensures |elems| == Offset(k, 4)
    ensures SequentialDeque.Holds(k, IndexExt(front, k + 1, p), IndexExt(back, k + 1, p), LaneSlots(elems, k, p), contents[p])
  {
    assert Lane(k, front, back, elems, p, contents[p]);
  }

  lemma PushFrontLane(k: nat, f: nat, f': nat, b: nat, slots: seq<Elem>, c: seq<Task>, i: nat, task: Task)
    requires SequentialDeque.Holds(k, f, b, slots, c) && i == Slot(f, Pow2(k))
    requires f' < WORDS && Slot(f', Pow2(k + 1)) == Slot(f + 1, Pow2(k + 1))
    ensures i < Pow2(k) && (slots[i].mark.Empty? <==> |c| < Pow2(k))
    ensures |c| < Pow2(k) ==> SequentialDeque.Holds(k, f', b, slots[i := TaskDeque.Elem(TaskDeque.Ready, task)], c + [task])
  {
    SequentialDeque.FrontSlots(k, f, b, slots, c);
    if |c| < Pow2(k) {
      SequentialDeque.PushFrontHolds(k, f, b, slots, c, task);
      ForwardMoves(f, k);
      SameFront(k, Forward(f, k), f', b, slots[i := TaskDeque.Elem(TaskDeque.Ready, task)], c + [task]);
    }
  }

  lemma PopFrontLane(k: nat, f: nat, f': nat, b: nat, slots: seq<Elem>, c: seq<Task>, i: nat)
    requires SequentialDeque.Holds(k, f, b, slots, c) && i == Slot(f - 1, Pow2(k))
    requires f' < WORDS && Slot(f', Pow2(k + 1)) == Slot(f - 1, Pow2(k + 1))
    ensures i < Pow2(k) && (slots[i].mark.Ready? <==> c != [])
    ensures c != [] ==> slots[i].task == c[|c| - 1]
    ensures c != [] ==> SequentialDeque.Holds(k, f', b, slots[i := slots[i].(mark := TaskDeque.Empty)], c[..|c| - 1])
  {
    SequentialDeque.FrontSlots(k, f, b, slots, c);
    if c != [] {
      var e := slots[i].(mark := TaskDeque.Empty);
      SequentialDeque.PopFrontHolds(k, f, b, slots, c, e);
      BackwardMoves(f, k);
      SameFront(k, Backward(f, k), f', b, slots[i := e], c[..|c| - 1]);
    }
  }

  lemma PushBackLane(k: nat, f: nat, b: nat, b': nat, slots: seq<Elem>, c: seq<Task>, i: nat, task: Task)
    requires SequentialDeque.Holds(k, f, b, slots, c) && i == Slot(b - 1, Pow2(k))
    requires b' < WORDS && Slot(b', Pow2(k + 1)) == Slot(b - 1, Pow2(k + 1))
    ensures i < Pow2(k) && (slots[i].mark.Empty? <==> |c| < Pow2(k))
    ensures |c| < Pow2(k) ==> SequentialDeque.Holds(k, f, b', slots[i := TaskDeque.Elem(TaskDeque.Ready, task)], [task] + c)
  {
    SequentialDeque.BackSlots(k, f, b, slots, c);
    if |c| < Pow2(k) {
      SequentialDeque.PushBackHolds(k, f, b, slots, c, task);
      BackwardMoves(b, k);
      SameBack(k, f, Backward(b, k), b', slots[i := TaskDeque.Elem(TaskDeque.Ready, task)], [task] + c);
    }
  }

  lemma PopBackLane(k: nat, f: nat, b: nat, b': nat, slots: seq<Elem>, c: seq<Task>, i: nat)
    requires SequentialDeque.Holds(k, f, b, slots, c) && i == Slot(b, Pow2(k))
    requires b' < WORDS && Slot(b', Pow2(k + 1)) == Slot(b + 1, Pow2(k + 1))
    ensures i < Pow2(k) && (slots[i].mark.Ready? <==> c != [])
    ensures c != [] ==> slots[i].task == c[0]
    ensures c != [] ==> SequentialDeque.Holds(k, f, b', slots[i := slots[i].(mark := TaskDeque.Empty)], c[1..])
  {
    SequentialDeque.BackSlots(k, f, b, slots, c);
    if c != [] {
      var e := slots[i].(mark := TaskDeque.Empty);
      SequentialDeque.PopBackHolds(k, f, b, slots, c, e);
      ForwardMoves(b, k);
      SameBack(k, f, Forward(b, k), b', slots[i := e], c[1..]);
    }
  }

  /** The slot before an index. */
  function Before(w: nat, k: nat, m: nat, p: Priority): nat {
    And(Dec(IndexExt(w, k + 1, p), IndicesBits(k + 1) + m), Pow2(k) - 1)
  }

  lemma BeforeIsSlot(w: nat, k: nat, m: nat, p: Priority)
    ensures Before(w, k, m, p) == Slot(IndexExt(w, k + 1, p) - 1, Pow2(k))
  {
    DecSlot(IndexExt(w, k + 1, p), k, IndicesBits(k + 1) + m);
  }

  /** Inc, seen as a move of the index of p: what the lane lemmas ask for. */
  lemma MoveOn(w: nat, w': nat, k: nat, m: nat, p: Priority)
    requires k <= 10 && IsWord(w, k + 1, m) && w' == Inc(w, k + 1, m, p)
    ensures Index(w, k + 1, p) == Slot(IndexExt(w, k + 1, p), Pow2(k))
    ensures IndexExt(w', k + 1, p) < WORDS && Slot(IndexExt(w', k + 1, p), Pow2(k + 1)) == Slot(IndexExt(w, k + 1, p) + 1, Pow2(k + 1))
    ensures IsWord(w', k + 1, m) && KeepsOthers(w', w, k + 1, p)
  {
    IndexIsSlot(w, k, p);
    IncSlot(w, k, m, p);
    IncKeeps(w, k, m, p);
    IndexIsWord(w', k, p);
  }

  lemma MoveBack(w: nat, w': nat, k: nat, m: nat, p: Priority)
    requires k <= 10 && IsWord(w, k + 1, m) && w' == Back(w, k, m, p)
    ensures IndexExt(w', k + 1, p) < WORDS && Slot(IndexExt(w', k + 1, p), Pow2(k + 1)) == Slot(IndexExt(w, k + 1, p) - 1, Pow2(k + 1))
    ensures IsWord(w', k + 1, m) && KeepsOthers(w', w, k + 1, p)
  {
    BackSlot(w, k, m, p);
    IndexIsWord(w', k, p);
  }

  lemma PushFrontAt(k: nat, m: nat, front: nat, back: nat, elems: seq<Elem>, contents: seq<seq<Task>>, p: Priority, front': nat, j: nat, task: Task)
    requires Lanes(k, m, front, back, elems, contents) && IsWord(front', k + 1, m) && KeepsOthers(front', front, k + 1, p)
    requires j == Slot(IndexExt(front, k + 1, p), Pow2(k)) && IndexExt(front', k + 1, p) < WORDS
    requires Slot(IndexExt(front', k + 1, p), Pow2(k + 1)) == Slot(IndexExt(front, k + 1, p) + 1, Pow2(k + 1))
    ensures var i := Offset(k, p) + j;
            && i < |elems| && (elems[i].mark.Empty? <==> |contents[p]| < Pow2(k))
            && (|contents[p]| < Pow2(k) ==> Lanes(k, m, front', back, elems[i := TaskDeque.Elem(TaskDeque.Ready, task)], contents[p := contents[p] + [task]]))
  {
    LaneAt(k, m, front, back, elems, contents, p);
    var slots := LaneSlots(elems, k, p);
    PushFrontLane(k, IndexExt(front, k + 1, p), IndexExt(front', k + 1, p), IndexExt(back, k + 1, p), slots, contents[p], j, task);
    var e := TaskDeque.Elem(TaskDeque.Ready, task);
    SlotUpdate(elems, k, p, j, e, p);
    if |contents[p]| < Pow2(k) {
      LaneChange(k, m, front, back, elems, contents, p, front', back, j, e, contents[p] + [task]);
    }
  }

  lemma AtPushFront(k: nat, m: nat, front: nat, back: nat, elems: seq<Elem>, contents: seq<seq<Task>>, p: Priority, task: Task, front': nat, j: nat)
    requires Lanes(k, m, front, back, elems, contents) && front' == Inc(front, k + 1, m, p) && j == Index(front, k + 1, p)
    ensures var i := Offset(k, p) + j;
            && i < |elems| && (elems[i].mark.Empty? <==> |contents[p]| < Pow2(k))
            && (|contents[p]| < Pow2(k) ==> Lanes(k, m, front', back, elems[i := TaskDeque.Elem(TaskDeque.Ready, task)], contents[p := contents[p] + [task]]))
  {
    MoveOn(front, front', k, m, p);
    PushFrontAt(k, m, front, back, elems, contents, p, front', j, task);
  }

  lemma PopFrontAt(k: nat, m: nat, front: nat, back: nat, elems: seq<Elem>, contents: seq<seq<Task>>, p: Priority, front': nat, j: nat)
    requires Lanes(k, m, front, back, elems, contents) && IsWord(front', k + 1, m) && KeepsOthers(front', front, k + 1, p)
    requires j == Slot(IndexExt(front, k + 1, p) - 1, Pow2(k)) && IndexExt(front', k + 1, p) < WORDS
    requires Slot(IndexExt(front', k + 1, p), Pow2(k + 1)) == Slot(IndexExt(front, k + 1, p) - 1, Pow2(k + 1))
    ensures var i := Offset(k, p) + j;
            && i < |elems| && (elems[i].mark.Ready? <==> contents[p] != [])
            && (contents[p] != [] ==> elems[i].task == contents[p][|contents[p]| - 1])
            && (contents[p] != [] ==> Lanes(k, m, front', back, elems[i := elems[i].(mark := TaskDeque.Empty)], contents[p := contents[p][..|contents[p]| - 1]]))
  {
    LaneAt(k, m, front, back, elems, contents, p);
    var slots := LaneSlots(elems, k, p);
    PopFrontLane(k, IndexExt(front, k + 1, p), IndexExt(front', k + 1, p), IndexExt(back, k + 1, p), slots, contents[p], j);
    var e := slots[j].(mark := TaskDeque.Empty);
    SlotUpdate(elems, k, p, j, e, p);
    if contents[p] != [] {
      LaneChange(k, m, front, back, elems, contents, p, front', back, j, e, contents[p][..|contents[p]| - 1]);
    }
  }

  lemma AtPopFront(k: nat, m: nat, front: nat, back: nat, elems: seq<Elem>, contents: seq<seq<Task>>, p: Priority, front': nat, j: nat)
    requires Lanes(k, m, front, back, elems, contents) && front' == Back(front, k, m, p) && j == Before(front, k, m, p)
    ensures var i := Offset(k, p) + j;
            && i < |elems| && (elems[i].mark.Ready? <==> contents[p] != [])
            && (contents[p] != [] ==> elems[i].task == contents[p][|contents[p]| - 1])
            && (contents[p] != [] ==> Lanes(k, m, front', back, elems[i := elems[i].(mark := TaskDeque.Empty)], contents[p := contents[p][..|contents[p]| - 1]]))
  {
    MoveBack(front, front', k, m, p);
    BeforeIsSlot(front, k, m, p);
    PopFrontAt(k, m, front, back, elems, contents, p, front', j);
  }

  lemma PushBackAt(k: nat, m: nat, front: nat, back: nat, elems: seq<Elem>, contents: seq<seq<Task>>, p: Priority, back': nat, j: nat, task: Task)
    requires Lanes(k, m, front, back, elems, contents) && IsWord(back', k + 1, m) && KeepsOthers(back', back, k + 1, p)
    requires j == Slot(IndexExt(back, k + 1, p) - 1, Pow2(k)) && IndexExt(back', k + 1, p) < WORDS
    requires Slot(IndexExt(back', k + 1, p), Pow2(k + 1)) == Slot(IndexExt(back, k + 1, p) - 1, Pow2(k + 1))
    ensures var i := Offset(k, p) + j;
            && i < |elems| && (elems[i].mark.Empty? <==> |contents[p]| < Pow2(k))
            && (|contents[p]| < Pow2(k) ==> Lanes(k, m, front, back', elems[i := TaskDeque.Elem(TaskDeque.Ready, task)], contents[p := [task] + contents[p]]))
  {
    LaneAt(k, m, front, back, elems, contents, p);
    var slots := LaneSlots(elems, k, p);
    PushBackLane(k, IndexExt(front, k + 1, p), IndexExt(back, k + 1, p), IndexExt(back', k + 1, p), slots, contents[p], j, task);
    var e := TaskDeque.Elem(TaskDeque.Ready, task);
    SlotUpdate(elems, k, p, j, e, p);
    if |contents[p]| < Pow2(k) {
      LaneChange(k, m, front, back, elems, contents, p, front, back', j, e, [task] + contents[p]);
    }
  }

  lemma AtPushBack(k: nat, m: nat, front: nat, back: nat, elems: seq<Elem>, contents: seq<seq<Task>>, p: Priority, task: Task, back': nat, j: nat)
    requires Lanes(k, m, front, back, elems, contents) && back' == Back(back, k, m, p) && j == Before(back, k, m, p)
    ensures var i := Offset(k, p) + j;
            && i < |elems| && (elems[i].mark.Empty? <==> |contents[p]| < Pow2(k))
            && (|contents[p]| < Pow2(k) ==> Lanes(k, m, front, back', elems[i := TaskDeque.Elem(TaskDeque.Ready, task)], contents[p := [task] + contents[p]]))
  {
    MoveBack(back, back', k, m, p);
    BeforeIsSlot(back, k, m, p);
    PushBackAt(k, m, front, back, elems, contents, p, back', j, task);
  }

  lemma PopBackAt(k: nat, m: nat, front: nat, back: nat, elems: seq<Elem>, contents: seq<seq<Task>>, p: Priority, back': nat, j: nat)
    requires Lanes(k, m, front, back, elems, contents) && IsWord(back', k + 1, m) && KeepsOthers(back', back, k + 1, p)
    requires j == Slot(IndexExt(back, k + 1, p), Pow2(k)) && IndexExt(back', k + 1, p) < WORDS
    requires Slot(IndexExt(back', k + 1, p), Pow2(k + 1)) == Slot(IndexExt(back, k + 1, p) + 1, Pow2(k + 1))
    ensures var i := Offset(k, p) + j;
            && i < |elems| && (elems[i].mark.Ready? <==> contents[p] != [])
            && (contents[p] != [] ==> elems[i].task == contents[p][0])
            && (contents[p] != [] ==> Lanes(k, m, front, back', elems[i := elems[i].(mark := TaskDeque.Empty)], contents[p := contents[p][1..]]))
  {
    LaneAt(k, m, front, back, elems, contents, p);
    var slots := LaneSlots(elems, k, p);
    PopBackLane(k, IndexExt(front, k + 1, p), IndexExt(back, k + 1, p), IndexExt(back', k + 1, p), slots, contents[p], j);
    var e := slots[j].(mark := TaskDeque.Empty);
    SlotUpdate(elems, k, p, j, e, p);
    if contents[p] != [] {
      LaneChange(k, m, front, back, elems, contents, p, front, back', j, e, contents[p][1..]);
    }
  }

  lemma AtPopBack(k: nat, m: nat, front: nat, back: nat, elems: seq<Elem>, contents: seq<seq<Task>>, p: Priority, back': nat, j: nat)
    requires Lanes(k, m, front, back, elems, contents) && back' == Inc(back, k + 1, m, p) && j == Index(back, k + 1, p)
    ensures var i := Offset(k, p) + j;
            && i < |elems| && (elems[i].mark.Ready? <==> contents[p] != [])
            && (contents[p] != [] ==> elems[i].task == contents[p][0])
            && (contents[p] != [] ==> Lanes(k, m, front, back', elems[i := elems[i].(mark := TaskDeque.Empty)], contents[p := contents[p][1..]]))
  {
    MoveOn(back, back', k, m, p);
    PopBackAt(k, m, front, back, elems, contents, p, back', j);
  }

  // ------------------------------------------------------------ sizes

  function LaneSize(front: nat, back: nat, k: nat, p: Priority): int {
    SequentialDeque.SizeOf(IndexExt(front, k + 1, p), IndexExt(back, k + 1, p), Pow2(k))
  }

  function CalculateSize(front: nat, back: nat, k: nat): int {
    LaneSize(front, back, k, 0) + LaneSize(front, back, k, 1) + LaneSize(front, back, k, 2) + LaneSize(front, back, k, 3)
  }

  function MaybeZero(front: nat, back: nat, k: nat): nat { And(Xor(front, back), Pow2(IndicesBits(k + 1)) - 1) }

  lemma LaneSizeIs(k: nat, m: nat, front: nat, back: nat, elems: seq<Elem>, contents: seq<seq<Task>>, p: Priority)
    requires Lanes(k, m, front, back, elems, contents)
    ensures LaneSize(front, back, k, p) == |contents[p]|
    ensures SameIndex(front, back, k + 1, p) <==> contents[p] == []
  {
    LaneAt(k, m, front, back, elems, contents, p);
    IndexIsWord(front, k, p);
    IndexIsWord(back, k, p);
    PowerMonotone(2, k);
    SequentialDeque.SizeOfSlots(IndexExt(back, k + 1, p), |contents[p]|, Pow2(k));
  }

  /** The size is the sum of the four lengths, and the emptiness test agrees with it. */
  lemma SizeIsSum(k: nat, m: nat, front: nat, back: nat, elems: seq<Elem>, contents: seq<seq<Task>>)
    requires Lanes(k, m, front, back, elems, contents)
    ensures CalculateSize(front, back, k) == |contents[0]| + |contents[1]| + |contents[2]| + |contents[3]|
    ensures MaybeZero(front, back, k) == 0 <==> CalculateSize(front, back, k) == 0
  {
    ZeroIsEmpty(k, m, front, back, elems, contents);
    forall p: Priority ensures LaneSize(front, back, k, p) == |contents[p]| {
      LaneSizeIs(k, m, front, back, elems, contents, p);
    }
    NoneOfFour(contents);
  }

  lemma NoneOfFour(contents: seq<seq<Task>>)
    requires |contents| == 4
    ensures (forall p: Priority :: contents[p] == []) <==> |contents[0]| + |contents[1]| + |contents[2]| + |contents[3]| == 0
  {
    if |contents[0]| + |contents[1]| + |contents[2]| + |contents[3]| == 0 {
      forall p: Priority ensures contents[p] == [] {
        assert p == 0 || p == 1 || p == 2 || p == 3;
      }
    }
  }

  lemma ZeroIsEmpty(k: nat, m: nat, front: nat, back: nat, elems: seq<Elem>, contents: seq<seq<Task>>)
    requires Lanes(k, m, front, back, elems, contents)
    ensures MaybeZero(front, back, k) == 0 <==> forall p: Priority :: contents[p] == []
  {
    MaskedMeansEmpty(k + 1, m, front, back, elems, contents);
  }

  lemma MaskedMeansEmpty(n: nat, m: nat, front: nat, back: nat, elems: seq<Elem>, contents: seq<seq<Task>>)
    requires n > 0 && Lanes(n - 1, m, front, back, elems, contents)
    ensures And(Xor(front, back), Pow2(IndicesBits(n)) - 1) == 0 <==> forall p: Priority :: contents[p] == []
  {
    SameIndices(front, back, n);
    SameMeansEmpty(n, m, front, back, elems, contents);
  }

  lemma SameMeansEmpty(n: nat, m: nat, front: nat, back: nat, elems: seq<Elem>, contents: seq<seq<Task>>)
    requires n > 0 && Lanes(n - 1, m, front, back, elems, contents)
    ensures (forall p: Priority :: SameIndex(front, back, n, p)) <==> (forall p: Priority :: contents[p] == [])
  {
    forall p: Priority ensures SameIndex(front, back, n, p) <==> contents[p] == [] {
      LaneSizeIs(n - 1, m, front, back, elems, contents, p);
    }
  }

  // ------------------------------------------------------------ the deque

  /** The first priority from p on with a task, or 4. */
  function Highest(contents: seq<seq<Task>>, p: nat): (h: nat)
    requires |contents| == 4 && p <= 4
    ensures p <= h <= 4 && (h < 4 ==> contents[h] != []) && forall q :: p <= q < h ==> contents[q] == []
    decreases 4 - p
  {
    if p == 4 || contents[p] != [] then p else Highest(contents, p + 1)
  }

  class Deque {
    const k: nat                      // kCounterBits
    const m: nat                      // kModificationCounterBits
    var front: nat
    var back: nat
    const elems: array<Elem>
    ghost var contents: seq<seq<Task>>  // by priority, back end first

    ghost predicate Valid()
      reads this, elems
    {
      elems.Length == Offset(k, 4) && Lanes(k, m, front, back, elems[..], contents)
    }

    constructor (k: nat, m: nat)
      requires 2 <= k <= 10
      ensures Valid() && fresh(elems) && this.k == k && this.m == m && contents == [[], [], [], []]
    {
      this.k, this.m := k, m;
      front, back, contents := 0, 0, [[], [], [], []];
      elems := new Elem[Offset(k, 4)](_ => TaskDeque.Elem(TaskDeque.Empty, 0));
      new;
      EmptyLanes(k, m, elems[..]);
    }

    /** Returns the task if the queue of this priority is full. */
    method PushFront(task: Task, p: Priority) returns (refused: Option<Task>)
      requires Valid()
      modifies this, elems
      ensures Valid()
      ensures var c := old(contents);
              if |c[p]| < Pow2(k) then refused.None? && contents == c[p := c[p] + [task]]
              else refused == Some(task) && contents == c
    {
      var next := Inc(front, k + 1, m, p);
      AtPushFront(k, m, front, back, elems[..], contents, p, task, next, Index(front, k + 1, p));
      var i := Offset(k, p) + Index(front, k + 1, p);
      if !elems[i].mark.Empty? { return Some(task); }
      elems[i] := TaskDeque.Elem(TaskDeque.Ready, task);
      front := next;
      contents := contents[p := contents[p] + [task]];
      return None;
    }

    method PushBack(task: Task, p: Priority) returns (refused: Option<Task>)
      requires Valid()
      modifies this, elems
      ensures Valid()
      ensures var c := old(contents);
              if |c[p]| < Pow2(k) then refused.None? && contents == c[p := [task] + c[p]]
              else refused == Some(task) && contents == c
    {
      var next := Back(back, k, m, p);
      AtPushBack(k, m, front, back, elems[..], contents, p, task, next, Before(back, k, m, p));
      var i := Offset(k, p) + Before(back, k, m, p);
      if !elems[i].mark.Empty? { return Some(task); }
      elems[i] := TaskDeque.Elem(TaskDeque.Ready, task);
      back := next;
      contents := contents[p := [task] + contents[p]];
      return None;
    }

    /** The front task of priority p, if it has one. */
    method TakeFront(p: Priority) returns (task: Option<Task>)
      requires Valid()
      modifies this, elems
      ensures Valid()
      ensures var c := old(contents);
              if c[p] == [] then task.None? && contents == c
              else task == Some(c[p][|c[p]| - 1]) && contents == c[p := c[p][..|c[p]| - 1]]
    {
      var next := Back(front, k, m, p);
      AtPopFront(k, m, front, back, elems[..], contents, p, next, Before(front, k, m, p));
      var i := Offset(k, p) + Before(front, k, m, p);
      if !elems[i].mark.Ready? { return None; }
      task := Some(elems[i].task);
      elems[i] := elems[i].(mark := TaskDeque.Empty);
      front := next;
      contents := contents[p := contents[p][..|contents[p]| - 1]];
    }

    /** The back task of priority p, if it has one. */
    method TakeBack(p: Priority) returns (task: Option<Task>)
      requires Valid()
      modifies this, elems
      ensures Valid()
      ensures var c := old(contents);
              if c[p] == [] then task.None? && contents == c
              else task == Some(c[p][0]) && contents == c[p := c[p][1..]]
    {
      var next := Inc(back, k + 1, m, p);
      AtPopBack(k, m, front, back, elems[..], contents, p, next, Index(back, k + 1, p));
      var i := Offset(k, p) + Index(back, k + 1, p);
      if !elems[i].mark.Ready? { return None; }
      task := Some(elems[i].task);
      elems[i] := elems[i].(mark := TaskDeque.Empty);
      back := next;
      contents := contents[p := contents[p][1..]];
    }

    /** Takes the front task of the highest priority that has one. */
    method PopFront() returns (task: Option<Task>)
      requires Valid()
      modifies this, elems
      ensures Valid()
      ensures var c, p := old(contents), Highest(old(contents), 0);
              if p == 4 then task.None? && contents == c
              else task == Some(c[p][|c[p]| - 1]) && contents == c[p := c[p][..|c[p]| - 1]]
    {
      for p := 0 to 4
        invariant Valid() && contents == old(contents) && Highest(contents, 0) == Highest(contents, p)
      {
        task := TakeFront(p);
        if task.Some? { return; }
      }
      return None;
    }

    /** Takes the back task of the highest priority that has one. */
    method PopBack() returns (task: Option<Task>)
      requires Valid()
      modifies this, elems
      ensures Valid()
      ensures var c, p := old(contents), Highest(old(contents), 0);
              if p == 4 then task.None? && contents == c
              else task == Some(c[p][0]) && contents == c[p := c[p][1..]]
    {
      var empty := Empty();
      if empty { return None; }
      for p := 0 to 4
        invariant Valid() && contents == old(contents) && Highest(contents, 0) == Highest(contents, p)
      {
        task := TakeBack(p);
        if task.Some? { return; }
      }
      return None;
    }

    method Size() returns (size: int)
      requires Valid()
      ensures size == |contents[0]| + |contents[1]| + |contents[2]| + |contents[3]|
    {
      SizeIsSum(k, m, front, back, elems[..], contents);
      size := CalculateSize(front, back, k);
    }

    method Empty() returns (empty: bool)
      requires Valid()
      ensures empty <==> Highest(contents, 0) == 4
    {
      SizeIsSum(k, m, front, back, elems[..], contents);
      empty := MaybeZero(front, back, k) == 0;
    }
  }

  lemma EmptyLanes(k: nat, m: nat, elems: seq<Elem>)
    requires 2 <= k <= 10 && |elems| == Offset(k, 4) && forall i :: 0 <= i < |elems| ==> elems[i].mark.Empty?
    ensures Lanes(k, m, 0, 0, elems, [[], [], [], []])
  {
    forall p: Priority ensures Lane(k, 0, 0, elems, p, []) {
      IndexIsWord(0, k, p);
      LaneFits(k, p);
      var slots, back := LaneSlots(elems, k, p), IndexExt(0, k + 1, p);
      forall j | 0 <= j < Pow2(k) ensures SequentialDeque.CellAt(k, back, slots, [], j) {}
    }
    forall p: Priority ensures Lane(k, 0, 0, elems, p, [[], [], [], []][p]) {
      assert Lane(k, 0, 0, elems, p, []);
    }
  }
}
