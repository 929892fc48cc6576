/**
 TaskDeque (async/concurrent/task_deque.h) under concurrency: one owner thread pushes and pops at the
 front without a lock, and the back operations are serialized by a mutex, so at any moment one
 thread is inside a back operation.  Every load, compare-exchange and store is a step; PopBackHalf
 is not called concurrently and is left to the sequential model.

 Positions are unbounded; the low bits of the words mFront and mBack are these positions modulo twice the
 capacity.  `held` (what is in or between the slots) and `claimed` are history variables.
 */
module TaskDeque {
  import opened Ring

  type Task = nat
  datatype Mark = Empty | Busy | Ready
  datatype Elem = Elem(mark: Mark, task: Task)
  datatype End = Front | Back
  datatype Result = Stored | Refused(task: Task) | Got(task: Task) | Nothing

  /** pos is the position the operation works on; claimed, what the winning compare-exchange of a pop took. */
  datatype Pc =
    | Idle
    | PushLoad(task: Task)
    | PushCheck(task: Task, pos: int)
    | PushCas(task: Task, pos: int)
    | PushStore(task: Task, pos: int)      // owns the slot, the word is not yet stored
    | PushWrite(task: Task, pos: int)
    | PushPublish(task: Task, pos: int)
    | PopLoad
    | PopCheck(pos: int)
    | PopCas(pos: int)
    | PopTake(pos: int, claimed: Task)
    | PopClear(pos: int, task: Task, claimed: Task)
    | PopStore(pos: int, task: Task, claimed: Task)  // the slot is empty, the word is not yet stored
    | Returned(r: Result)

  datatype State = State(cap: nat, front: int, back: int, slots: seq<Elem>, fpc: Pc, bpc: Pc, held: seq<Task>)

  datatype Action =
    | CallPush(end: End, task: Task)
    | CallPop(end: End)
    | SeeEmpty                  // PopBack's unlocked emptiness test answers yes
    | Run(end: End)
    | Return(end: End)

  function PcOf(s: State, end: End): Pc { if end.Front? then s.fpc else s.bpc }

  function At(s: State, end: End, pc: Pc): State { if end.Front? then s.(fpc := pc) else s.(bpc := pc) }

  predicate Sane(s: State) { s.cap > 2 && |s.slots| == s.cap }

  predicate Enabled(s: State, act: Action) {
    && Sane(s)
    && match act
       case CallPush(end, _) => PcOf(s, end).Idle?
       case CallPop(end) => PcOf(s, end).Idle?
       case SeeEmpty => s.bpc.PopLoad?
       case Run(end) => !PcOf(s, end).Idle? && !PcOf(s, end).Returned? && (PcOf(s, end).PopClear? ==> s.held != [])
       case Return(end) => PcOf(s, end).Returned?
  }

  function PushPos(s: State, end: End): int { if end.Front? then s.front else s.back - 1 }

  function PopPos(s: State, end: End): int { if end.Front? then s.front - 1 else s.back }

  function MarkSlot(s: State, pos: int, mark: Mark): (s': State)
    requires Sane(s)
    ensures Sane(s')
  {
    var i := Slot(pos, s.cap);
    s.(slots := s.slots[i := s.slots[i].(mark := mark)])
  }

  function Grown(held: seq<Task>, end: End, task: Task): seq<Task> {
    if end.Front? then held + [task] else [task] + held
  }

  function Shrunk(held: seq<Task>, end: End): seq<Task>
    requires held != []
  {
    if end.Front? then held[..|held| - 1] else held[1..]
  }

  function EndItem(held: seq<Task>, end: End): Task {
    if held == [] then 0 else if end.Front? then held[|held| - 1] else held[0]
  }

  function RunPush(s: State, end: End, pc: Pc): State
    requires Sane(s)
  {
    match pc
    case PushLoad(task) => At(s, end, PushCheck(task, PushPos(s, end)))
    case PushCheck(task, pos) =>
      if s.slots[Slot(pos, s.cap)].mark.Empty? then At(s, end, PushCas(task, pos)) else At(s, end, Returned(Refused(task)))
    case PushCas(task, pos) =>
      if s.slots[Slot(pos, s.cap)].mark.Empty? then
        At(MarkSlot(s, pos, Busy), end, PushStore(task, pos)).(held := Grown(s.held, end, task))
      else At(s, end, Returned(Refused(task)))
    case PushStore(task, pos) =>
      var s1 := At(s, end, PushWrite(task, pos));
      if end.Front? then s1.(front := pos + 1) else s1.(back := pos)
    case PushWrite(task, pos) =>
      var i := Slot(pos, s.cap);
      At(s, end, PushPublish(task, pos)).(slots := s.slots[i := s.slots[i].(task := task)])
    case PushPublish(task, pos) => At(MarkSlot(s, pos, Ready), end, Returned(Stored))
    case _ => s
  }

  function RunPop(s: State, end: End, pc: Pc): State
    requires Sane(s) && (pc.PopClear? ==> s.held != [])
  {
    match pc
    case PopLoad => At(s, end, PopCheck(PopPos(s, end)))
    case PopCheck(pos) =>
      if s.slots[Slot(pos, s.cap)].mark.Ready? then At(s, end, PopCas(pos)) else At(s, end, Returned(Nothing))
    case PopCas(pos) =>
      if s.slots[Slot(pos, s.cap)].mark.Ready? then At(MarkSlot(s, pos, Busy), end, PopTake(pos, EndItem(s.held, end)))
      else At(s, end, Returned(Nothing))
    case PopTake(pos, claimed) => At(s, end, PopClear(pos, s.slots[Slot(pos, s.cap)].task, claimed))
    case PopClear(pos, task, claimed) =>
      At(MarkSlot(s, pos, Empty), end, PopStore(pos, task, claimed)).(held := Shrunk(s.held, end))
    case PopStore(pos, task, claimed) =>
      var s1 := At(s, end, Returned(Got(task)));
      if end.Front? then s1.(front := pos) else s1.(back := pos + 1)
    case _ => s
  }

  function Apply(s: State, act: Action): State
    requires Enabled(s, act)
  {
    match act
    case CallPush(end, task) => At(s, end, PushLoad(task))
    case CallPop(end) => At(s, end, PopLoad)
    case SeeEmpty => At(s, Back, Returned(Nothing))
    case Run(end) => RunPop(RunPush(s, end, PcOf(s, end)), end, PcOf(s, end))
    case Return(end) => At(s, end, Idle)
  }

  predicate Init(s: State) {
    && Sane(s) && s.front == s.back == 0 && s.fpc == s.bpc == Idle && s.held == []
    && forall i :: 0 <= i < s.cap ==> s.slots[i].mark.Empty?
  }

  // ------------------------------------------------------------ the invariant

  /** The operation owns the slot at its end of the held region. */
  predicate Claims(p: Pc) { p.PushStore? || p.PushWrite? || p.PushPublish? || p.PopTake? || p.PopClear? }

  /** How far the stored word is behind the region: a claimed push not yet stored, or a cleared pop. */
  function Lag(p: Pc): int { if p.PushStore? then 1 else if p.PopStore? then -1 else 0 }

  /** The region of held positions is [RegionBack, RegionFront). */
  function RegionFront(s: State): int { s.front + Lag(s.fpc) }
  function RegionBack(s: State): int { s.back - Lag(s.bpc) }

  /** What a slot claimed by p holds, for the task t at that position. */
  predicate ClaimFits(p: Pc, e: Elem, t: Task) {
    && e.mark.Busy?
    && (p.PushStore? || p.PushWrite? || p.PushPublish? ==> p.task == t)
    && (p.PushPublish? ==> e.task == t)
    && (p.PopTake? ==> e.task == t && p.claimed == t)
    && (p.PopClear? ==> p.task == t && p.claimed == t)
  }

  /** The slot k positions after the back of the region. */
  predicate CellFits(e: Elem, k: int, held: seq<Task>, fpc: Pc, bpc: Pc) {
    if k >= |held| || k < 0 then e.mark.Empty?
    else if k == |held| - 1 && Claims(fpc) then ClaimFits(fpc, e, held[k])
    else if k == 0 && Claims(bpc) then ClaimFits(bpc, e, held[k])
    else e.mark.Ready? && e.task == held[k]
  }

  predicate CellAt(s: State, k: int)
    requires Sane(s)
  {
    CellFits(s.slots[Slot(RegionBack(s) + k, s.cap)], k, s.held, s.fpc, s.bpc)
  }

  predicate PcFits(p: Pc, push: int, pop: int, stored: int) {
    && (p.PushCheck? || p.PushCas? || p.PushStore? ==> p.pos == push)
    && (p.PopCheck? || p.PopCas? || p.PopTake? || p.PopClear? || p.PopStore? ==> p.pos == pop)
    && (p.PushWrite? || p.PushPublish? ==> p.pos == stored)
    && (p.PopStore? ==> p.task == p.claimed)
  }

  predicate RegionFits(s: State) {
    && RegionFront(s) - RegionBack(s) == |s.held| <= s.cap
    && |s.held| >= (if Claims(s.fpc) then 1 else 0) + (if Claims(s.bpc) then 1 else 0)
    && PcFits(s.fpc, s.front, s.front - 1, s.front - 1)
    && PcFits(s.bpc, s.back - 1, s.back, s.back)
  }

  predicate Inv(s: State) {
    Sane(s) && RegionFits(s) && forall k :: 0 <= k < s.cap ==> CellAt(s, k)
  }

  /** Positions of one lap use different slots. */
  lemma OtherSlot(b: int, cap: nat, j: int, k: int)
    requires cap > 0 && 0 <= j < cap && 0 <= k < cap && j != k
    ensures Slot(b + j, cap) != Slot(b + k, cap)
  {
    SlotsDiffer(b, cap);
  }

  /** Only the slot j positions after the back of the region changed, and the region begins where it did. */
  lemma ChangedCell(s: State, s': State, j: int)
    requires Inv(s) && Sane(s') && s'.cap == s.cap && RegionBack(s') == RegionBack(s) && 0 <= j < s.cap
    requires forall i :: 0 <= i < s.cap && i != Slot(RegionBack(s) + j, s.cap) ==> s'.slots[i] == s.slots[i]
    requires CellAt(s', j) && RegionFits(s')
    requires forall k, e :: 0 <= k < s.cap && k != j && CellFits(e, k, s.held, s.fpc, s.bpc) ==> CellFits(e, k, s'.held, s'.fpc, s'.bpc)
    ensures Inv(s')
  {
    forall k | 0 <= k < s.cap ensures CellAt(s', k) {
      if k != j {
        OtherSlot(RegionBack(s), s.cap, j, k);
        assert CellAt(s, k);
      }
    }
  }

  /** No slot changed, and the region begins where it did. */
  lemma SameCells(s: State, s': State)
    requires Inv(s) && Sane(s') && s'.cap == s.cap && RegionBack(s') == RegionBack(s)
    requires s'.slots == s.slots && s'.held == s.held && RegionFits(s')
    requires Claims(s'.fpc) == Claims(s.fpc) && Claims(s'.bpc) == Claims(s.bpc)
    requires Claims(s.fpc) ==> forall e, t :: ClaimFits(s.fpc, e, t) ==> ClaimFits(s'.fpc, e, t)
    requires Claims(s.bpc) ==> forall e, t :: ClaimFits(s.bpc, e, t) ==> ClaimFits(s'.bpc, e, t)
    ensures Inv(s')
  {
    forall k | 0 <= k < s.cap ensures CellAt(s', k) {
      assert CellAt(s, k);
    }
  }

  // ------------------------------------------------------------ the front

  /** The slot before the front of the region is the last held one. */
  lemma FrontCell(s: State)
    requires Inv(s)
    ensures |s.held| > 0 ==> CellFits(s.slots[Slot(RegionFront(s) - 1, s.cap)], |s.held| - 1, s.held, s.fpc, s.bpc)
    ensures |s.held| < s.cap ==> s.slots[Slot(RegionFront(s), s.cap)].mark.Empty?
    ensures |s.held| == s.cap ==> Slot(RegionFront(s), s.cap) == Slot(RegionBack(s), s.cap)
    ensures |s.held| == 0 ==> s.slots[Slot(RegionFront(s) - 1, s.cap)].mark.Empty?
  {
    if |s.held| > 0 { assert CellAt(s, |s.held| - 1); }
    if |s.held| < s.cap { assert CellAt(s, |s.held|); }
    SlotLap(RegionBack(s), s.cap);
    SlotLap(RegionBack(s) - 1, s.cap);
    if |s.held| == 0 { assert CellAt(s, s.cap - 1); }
  }

  /** A push whose slot is not empty found the region full. */
  lemma FrontPushes(s: State)
    requires Inv(s) && !Claims(s.fpc) && Lag(s.fpc) == 0
    ensures s.slots[Slot(s.front, s.cap)].mark.Empty? <==> |s.held| < s.cap
  {
    FrontCell(s);
    if |s.held| == s.cap { assert CellAt(s, 0); }
  }

  lemma FrontPushInv(s: State, s': State)
    requires Inv(s) && s.fpc.PushCas? && s.slots[Slot(s.fpc.pos, s.cap)].mark.Empty? && s' == RunPush(s, Front, s.fpc)
    ensures Inv(s') && |s.held| < s.cap
  {
    FrontPushes(s);
    var j := |s.held|;
    ChangedCell(s, s', j);
  }

  lemma FrontClaimInv(s: State, s': State)
    requires Inv(s) && Enabled(s, Run(Front)) && s' == Apply(s, Run(Front))
    requires s.fpc.PushWrite? || s.fpc.PushPublish? || (s.fpc.PopCas? && s.slots[Slot(s.fpc.pos, s.cap)].mark.Ready?)
    ensures Inv(s') && s.held != []
  {
    FrontCell(s);
    ChangedCell(s, s', |s.held| - 1);
  }

  lemma FrontClearInv(s: State, s': State)
    requires Inv(s) && s.fpc.PopClear? && s.held != [] && s' == RunPop(s, Front, s.fpc)
    ensures Inv(s')
  {
    FrontCell(s);
    ChangedCell(s, s', |s.held| - 1);
  }

  lemma FrontInv(s: State, s': State)
    requires Inv(s) && Enabled(s, Run(Front)) && s' == Apply(s, Run(Front))
    ensures Inv(s')
  {
    if s.fpc.PushCas? && s.slots[Slot(s.fpc.pos, s.cap)].mark.Empty? {
      FrontPushInv(s, s');
    } else if s.fpc.PushWrite? || s.fpc.PushPublish? || (s.fpc.PopCas? && s.slots[Slot(s.fpc.pos, s.cap)].mark.Ready?) {
      FrontClaimInv(s, s');
    } else if s.fpc.PopClear? {
      FrontClearInv(s, s');
    } else if s.fpc.PopTake? {
      FrontCell(s);
      ChangedCell(s, s', |s.held| - 1);
    } else {
      SameCells(s, s');
    }
  }

  // ------------------------------------------------------------ the back

  /** The slot before the back of the region is the last one of the lap. */
  lemma BackCell(s: State)
    requires Inv(s)
    ensures CellFits(s.slots[Slot(RegionBack(s), s.cap)], 0, s.held, s.fpc, s.bpc)
    ensures CellFits(s.slots[Slot(RegionBack(s) - 1, s.cap)], s.cap - 1, s.held, s.fpc, s.bpc)
  {
    assert CellAt(s, 0) && CellAt(s, s.cap - 1);
    SlotLap(RegionBack(s) - 1, s.cap);
  }

  lemma BackPushes(s: State)
    requires Inv(s) && !Claims(s.bpc) && Lag(s.bpc) == 0
    ensures s.slots[Slot(s.back - 1, s.cap)].mark.Empty? <==> |s.held| < s.cap
  {
    BackCell(s);
  }

  lemma BackPushInv(s: State, s': State)
    requires Inv(s) && s.bpc.PushCas? && s.slots[Slot(s.bpc.pos, s.cap)].mark.Empty? && s' == RunPush(s, Back, s.bpc)
    ensures Inv(s') && |s.held| < s.cap
  {
    BackPushes(s);
    forall k | 0 <= k < s.cap ensures CellAt(s', k) {
      if k > 0 {
        OtherSlot(s.back - 1, s.cap, 0, k);
        assert CellAt(s, k - 1);
      }
    }
  }

  lemma BackClearInv(s: State, s': State)
    requires Inv(s) && s.bpc.PopClear? && s.held != [] && s' == RunPop(s, Back, s.bpc)
    ensures Inv(s')
  {
    BackCell(s);
    forall k | 0 <= k < s.cap ensures CellAt(s', k) {
      if k < s.cap - 1 {
        OtherSlot(s.back, s.cap, 0, k + 1);
        assert CellAt(s, k + 1);
      } else {
        SlotLap(s.back, s.cap);
      }
    }
  }

  lemma BackClaimInv(s: State, s': State)
    requires Inv(s) && Enabled(s, Run(Back)) && s' == Apply(s, Run(Back))
    requires s.bpc.PushWrite? || s.bpc.PushPublish? || s.bpc.PopTake? || (s.bpc.PopCas? && s.slots[Slot(s.bpc.pos, s.cap)].mark.Ready?)
    ensures Inv(s') && s.held != []
  {
    BackCell(s);
    ChangedCell(s, s', 0);
  }

  lemma BackInv(s: State, s': State)
    requires Inv(s) && Enabled(s, Run(Back)) && s' == Apply(s, Run(Back))
    ensures Inv(s')
  {
    if s.bpc.PushCas? && s.slots[Slot(s.bpc.pos, s.cap)].mark.Empty? {
      BackPushInv(s, s');
    } else if s.bpc.PushWrite? || s.bpc.PushPublish? || s.bpc.PopTake? || (s.bpc.PopCas? && s.slots[Slot(s.bpc.pos, s.cap)].mark.Ready?) {
      BackClaimInv(s, s');
    } else if s.bpc.PopClear? {
      BackClearInv(s, s');
    } else {
      SameCells(s, s');
    }
  }

  // ------------------------------------------------------------ runs

  lemma ApplyInv(s: State, act: Action)
    requires Inv(s) && Enabled(s, act)
    ensures Inv(Apply(s, act))
  {
    var s' := Apply(s, act);
    if act.Run? {
      if act.end.Front? { FrontInv(s, s'); } else { BackInv(s, s'); }
    } else {
      SameCells(s, s');
    }
  }

  ghost predicate Next(s: State, s': State) { exists act :: Enabled(s, act) && s' == Apply(s, act) }

  lemma NextInv(s: State, s': State)
    requires Inv(s) && Next(s, s')
    ensures Inv(s')
  {
    var act :| Enabled(s, act) && s' == Apply(s, act);
    ApplyInv(s, act);
  }

  ghost predicate StepAt(run: seq<State>, i: nat)
    requires i + 1 < |run|
  {
    Next(run[i], run[i + 1])
  }

  ghost predicate IsRun(run: seq<State>) {
    |run| > 0 && Init(run[0]) && forall i :: 0 <= i < |run| - 1 ==> StepAt(run, i)
  }

  lemma {:induction false} RunInv(run: seq<State>, i: nat)
    requires IsRun(run) && i < |run|
    ensures Inv(run[i])
  {
    if i == 0 {
      forall k | 0 <= k < run[0].cap ensures CellAt(run[0], k) {}
    } else {
      RunInv(run, i - 1);
      assert StepAt(run, i - 1);
      NextInv(run[i - 1], run[i]);
    }
  }

  // ------------------------------------------------------------ what it is for

  /** A pop that has claimed its task and not yet cleared its slot. */
  predicate Taking(p: Pc) { p.PopTake? || p.PopClear? }

  /** The deque as its users see it: the held tasks but those a pop has claimed. */
  function Items(s: State): seq<Task> {
    var lo := if Taking(s.bpc) then 1 else 0;
    var hi := if Taking(s.fpc) then |s.held| - 1 else |s.held|;
    Slice(s.held, lo, hi)
  }

  function Slice(held: seq<Task>, lo: int, hi: int): seq<Task> {
    if 0 <= lo <= hi <= |held| then held[lo..hi] else []
  }

  /** Taking or adding an element at one end of a slice. */
  lemma SliceEnds(held: seq<Task>, lo: int, hi: int)
    requires 0 <= lo < hi <= |held|
    ensures Slice(held, lo, hi) != []
    ensures Shrunk(Slice(held, lo, hi), Front) == Slice(held, lo, hi - 1) && EndItem(Slice(held, lo, hi), Front) == held[hi - 1]
    ensures Shrunk(Slice(held, lo, hi), Back) == Slice(held, lo + 1, hi) && EndItem(Slice(held, lo, hi), Back) == held[lo]
  {
  }

  lemma SliceGrows(held: seq<Task>, lo: int, hi: int, task: Task)
    requires 0 <= lo <= hi <= |held|
    ensures hi == |held| ==> Slice(held + [task], lo, hi + 1) == Slice(held, lo, hi) + [task]
    ensures lo == 0 ==> Slice([task] + held, 0, hi + 1) == [task] + Slice(held, lo, hi)
  {
  }

  lemma SliceCut(held: seq<Task>, lo: int, hi: int)
    requires held != []
    ensures hi < |held| ==> Slice(held[..|held| - 1], lo, hi) == Slice(held, lo, hi)
    ensures 1 <= lo ==> Slice(held[1..], lo - 1, hi - 1) == Slice(held, lo, hi)
  {
  }

  predicate WinsPush(s: State, end: End) {
    Sane(s) && PcOf(s, end).PushCas? && s.slots[Slot(PcOf(s, end).pos, s.cap)].mark.Empty?
  }

  predicate WinsPop(s: State, end: End) {
    Sane(s) && PcOf(s, end).PopCas? && s.slots[Slot(PcOf(s, end).pos, s.cap)].mark.Ready?
  }

  /** What one step does to the queue: a push that wins its slot adds its task at its end of a queue
      that is not full, a pop that wins takes the task at its end, and no other step changes it. */
  predicate DequeStep(s: State, act: Action, s': State) {
    if act.Run? && WinsPush(s, act.end) then
      |Items(s)| < s.cap && Items(s') == Grown(Items(s), act.end, EndTask(PcOf(s, act.end)))
    else if act.Run? && WinsPop(s, act.end) then
      && Items(s) != [] && Items(s') == Shrunk(Items(s), act.end)
      && PcOf(s', act.end).PopTake? && PcOf(s', act.end).claimed == EndItem(Items(s), act.end)
    else Items(s') == Items(s)
  }

  /** The task a push is about to store. */
  function EndTask(p: Pc): Task { if p.PushCas? then p.task else 0 }

  /** In every reachable state every step is a step of one bounded double-ended queue. */
  lemma StepRefinesDeque(run: seq<State>, i: nat, act: Action)
    requires IsRun(run) && i < |run| && Enabled(run[i], act)
    ensures DequeStep(run[i], act, Apply(run[i], act))
  {
    RunInv(run, i);
    StateRefinesDeque(run[i], act);
  }

  lemma StateRefinesDeque(s: State, act: Action)
    requires Inv(s) && Enabled(s, act)
    ensures DequeStep(s, act, Apply(s, act))
  {
    if act == Run(Front) {
      FrontRefines(s, Apply(s, act));
    } else if act == Run(Back) {
      BackRefines(s, Apply(s, act));
    }
  }

  lemma FrontPushRefines(s: State, s': State)
    requires Inv(s) && WinsPush(s, Front) && s' == RunPush(s, Front, s.fpc)
    ensures |Items(s)| < s.cap && Items(s') == Items(s) + [s.fpc.task]
  {
    FrontPushInv(s, s');
    var lo := if Taking(s.bpc) then 1 else 0;
    assert s'.held == s.held + [s.fpc.task] && |s.held| >= lo;
    SliceGrows(s.held, lo, |s.held|, s.fpc.task);
  }

  lemma FrontPopRefines(s: State, s': State)
    requires Inv(s) && WinsPop(s, Front) && s' == RunPop(s, Front, s.fpc)
    ensures Items(s) != [] && Items(s') == Shrunk(Items(s), Front) && s'.fpc.PopTake? && s'.fpc.claimed == EndItem(Items(s), Front)
  {
    FrontCell(s);
    FrontClaimInv(s, s');
    var lo := if Taking(s.bpc) then 1 else 0;
    assert s'.held == s.held && lo < |s.held|;
    SliceEnds(s.held, lo, |s.held|);
  }

  lemma FrontClears(s: State, s': State)
    requires Inv(s) && s.fpc.PopClear? && s.held != [] && s' == RunPop(s, Front, s.fpc)
    ensures Items(s') == Items(s)
  {
    var lo := if Taking(s.bpc) then 1 else 0;
    assert s'.held == s.held[..|s.held| - 1] && s'.fpc.PopStore?;
    SliceCut(s.held, lo, |s.held| - 1);
  }

  lemma FrontQuiet(s: State, s': State)
    requires Enabled(s, Run(Front)) && s' == Apply(s, Run(Front)) && !WinsPush(s, Front) && !WinsPop(s, Front) && !s.fpc.PopClear?
    ensures s'.held == s.held && s'.bpc == s.bpc && Taking(s'.fpc) == Taking(s.fpc)
  {
  }

  lemma FrontKeeps(s: State, s': State)
    requires Inv(s) && Enabled(s, Run(Front)) && s' == Apply(s, Run(Front)) && !WinsPush(s, Front) && !WinsPop(s, Front)
    ensures Items(s') == Items(s)
  {
    if s.fpc.PopClear? { FrontClears(s, s'); } else { FrontQuiet(s, s'); }
  }

  lemma FrontRefines(s: State, s': State)
    requires Inv(s) && Enabled(s, Run(Front)) && s' == Apply(s, Run(Front))
    ensures WinsPush(s, Front) ==> |Items(s)| < s.cap && Items(s') == Items(s) + [s.fpc.task]
    ensures WinsPop(s, Front) ==>
              Items(s) != [] && Items(s') == Shrunk(Items(s), Front) && s'.fpc.PopTake? && s'.fpc.claimed == EndItem(Items(s), Front)
    ensures !WinsPush(s, Front) && !WinsPop(s, Front) ==> Items(s') == Items(s)
  {
    if WinsPush(s, Front) { FrontPushRefines(s, s'); } else if WinsPop(s, Front) { FrontPopRefines(s, s'); } else { FrontKeeps(s, s'); }
  }

  lemma BackPushRefines(s: State, s': State)
    requires Inv(s) && WinsPush(s, Back) && s' == RunPush(s, Back, s.bpc)
    ensures |Items(s)| < s.cap && Items(s') == [s.bpc.task] + Items(s)
  {
    BackPushInv(s, s');
    var hi := if Taking(s.fpc) then |s.held| - 1 else |s.held|;
    assert s'.held == [s.bpc.task] + s.held && 0 <= hi;
    SliceGrows(s.held, 0, hi, s.bpc.task);
  }

  lemma BackPopRefines(s: State, s': State)
    requires Inv(s) && WinsPop(s, Back) && s' == RunPop(s, Back, s.bpc)
    ensures Items(s) != [] && Items(s') == Shrunk(Items(s), Back) && s'.bpc.PopTake? && s'.bpc.claimed == EndItem(Items(s), Back)
  {
    BackCell(s);
    BackClaimInv(s, s');
    var hi := if Taking(s.fpc) then |s.held| - 1 else |s.held|;
    assert s'.held == s.held && 0 < hi;
    SliceEnds(s.held, 0, hi);
  }

  lemma BackClears(s: State, s': State)
    requires Inv(s) && s.bpc.PopClear? && s.held != [] && s' == RunPop(s, Back, s.bpc)
    ensures Items(s') == Items(s)
  {
    var hi := if Taking(s.fpc) then |s.held| - 1 else |s.held|;
    assert s'.held == s.held[1..] && s'.bpc.PopStore?;
    SliceCut(s.held, 1, hi);
  }

  lemma BackQuiet(s: State, s': State)
    requires Enabled(s, Run(Back)) && s' == Apply(s, Run(Back)) && !WinsPush(s, Back) && !WinsPop(s, Back) && !s.bpc.PopClear?
    ensures s'.held == s.held && s'.fpc == s.fpc && Taking(s'.bpc) == Taking(s.bpc)
  {
  }

  lemma BackKeeps(s: State, s': State)
    requires Inv(s) && Enabled(s, Run(Back)) && s' == Apply(s, Run(Back)) && !WinsPush(s, Back) && !WinsPop(s, Back)
    ensures Items(s') == Items(s)
  {
    if s.bpc.PopClear? { BackClears(s, s'); } else { BackQuiet(s, s'); }
  }

  lemma BackRefines(s: State, s': State)
    requires Inv(s) && Enabled(s, Run(Back)) && s' == Apply(s, Run(Back))
    ensures WinsPush(s, Back) ==> |Items(s)| < s.cap && Items(s') == [s.bpc.task] + Items(s)
    ensures WinsPop(s, Back) ==>
              Items(s) != [] && Items(s') == Shrunk(Items(s), Back) && s'.bpc.PopTake? && s'.bpc.claimed == EndItem(Items(s), Back)
    ensures !WinsPush(s, Back) && !WinsPop(s, Back) ==> Items(s') == Items(s)
  {
    if WinsPush(s, Back) { BackPushRefines(s, s'); } else if WinsPop(s, Back) { BackPopRefines(s, s'); } else { BackKeeps(s, s'); }
  }

  /** A pop returns the very task that its winning compare-exchange took out of the queue. */
  lemma PopReturnsItsClaim(run: seq<State>, i: nat, end: End)
    requires IsRun(run) && i + 1 < |run| && PcOf(run[i], end).PopStore? && Enabled(run[i], Run(end))
    requires run[i + 1] == Apply(run[i], Run(end))
    ensures PcOf(run[i + 1], end) == Returned(Got(PcOf(run[i], end).claimed))
  {
    RunInv(run, i);
  }

  lemma CloseStep(s: State, act: Action)
    requires Inv(s) && Enabled(s, act) && 0 <= s.front - s.back <= s.cap + 1
    ensures 0 <= Apply(s, act).front - Apply(s, act).back <= s.cap + 1 && Apply(s, act).cap == s.cap
  {
    if act.Run? && PcOf(s, act.end).PushStore? {
      assert Claims(PcOf(s, act.end));
    } else if act.Run? && PcOf(s, act.end).PopStore? {
      assert !Claims(PcOf(s, act.end));
    } else {
      assert Apply(s, act).front == s.front && Apply(s, act).back == s.back;
    }
  }

  lemma CloseNext(s: State, s': State)
    requires Inv(s) && Next(s, s') && 0 <= s.front - s.back <= s.cap + 1
    ensures 0 <= s'.front - s'.back <= s'.cap + 1
  {
    var act :| Enabled(s, act) && s' == Apply(s, act);
    CloseStep(s, act);
  }

  /** The stored words never differ by more than the capacity and one, as the size computation
      assumes. */
  lemma {:induction false} WordsStayClose(run: seq<State>, i: nat)
    requires IsRun(run) && i < |run|
    ensures 0 <= run[i].front - run[i].back <= run[i].cap + 1
  {
    if i > 0 {
      WordsStayClose(run, i - 1);
      RunInv(run, i - 1);
      assert StepAt(run, i - 1);
      CloseNext(run[i - 1], run[i]);
    }
  }

  /** Between operations they differ by exactly the number of tasks. */
  lemma IdleWordsCount(run: seq<State>, i: nat)
    requires IsRun(run) && i < |run| && run[i].fpc.Idle? && run[i].bpc.Idle?
    ensures run[i].front - run[i].back == |Items(run[i])|
  {
    RunInv(run, i);
  }

  /** A push is refused only when every slot is held, counting operations in progress. */
  lemma RefusedMeansFull(run: seq<State>, i: nat, end: End)
    requires IsRun(run) && i + 1 < |run| && Enabled(run[i], Run(end)) && run[i + 1] == Apply(run[i], Run(end))
    requires PcOf(run[i + 1], end).Returned? && PcOf(run[i + 1], end).r.Refused?
    ensures |run[i].held| == run[i].cap
  {
    RunInv(run, i);
    if end.Front? { FrontPushes(run[i]); } else { BackPushes(run[i]); }
  }

  /** A pop that finds its slot not ready found nothing held, or only the slot of the other end's operation. */
  lemma NothingMeansEmpty(run: seq<State>, i: nat, end: End)
    requires IsRun(run) && i + 1 < |run| && Enabled(run[i], Run(end)) && run[i + 1] == Apply(run[i], Run(end))
    requires PcOf(run[i + 1], end) == Returned(Nothing)
    ensures run[i].held == [] || (|run[i].held| == 1 && Claims(if end.Front? then run[i].bpc else run[i].fpc))
  {
    RunInv(run, i);
    FrontCell(run[i]);
    BackCell(run[i]);
  }
}
