/**
 TaskQueue (async/concurrent/task_queue.h): a bounded multi-producer multi-consumer queue with a
 sequence number per slot, as a state machine over its atomic steps.

 Positions are unbounded, as if fewer than 2^32 pushes happen; the last section says exactly when
 the 32-bit comparison of the code decides like the unbounded one.  `pushed`, `holder` and the
 snapshot taken by Size are history variables.
 */
module TaskQueue {
  import opened Ring

  type Task = nat

  datatype Elem = Elem(state: int, task: Task)

  datatype Pc =
    | Idle
    | PushStart(task: Task)
    | PushRead(task: Task, pos: nat)                  // has loaded mFront
    | PushCas(task: Task, pos: nat, state: int)       // has loaded the slot's state
    | PushWrite(task: Task, pos: nat)                 // owns the slot
    | PushPublish(task: Task, pos: nat)               // has moved the task in
    | Pushed(task: Task, pos: nat)                    // returned nullopt
    | Refused(task: Task)                             // returned the task
    | PopStart
    | PopRead(pos: nat)
    | PopCas(pos: nat, state: int)
    | PopTake(pos: nat)
    | PopRelease(pos: nat, task: Task)                // has moved the task out
    | Popped(pos: nat, task: Task)                    // returned a task
    | FoundEmpty                                      // returned nullopt
    | SizeStart
    | SizeBack(front: nat)                            // has loaded mFront
    | SizeFront(front: nat, back: nat, atBack: nat)   // has loaded mBack when mFront was atBack
    | Sized(size: int, front: nat, back: nat)         // returned size; the true positions at that moment

  datatype State = State(
    cap: nat, front: nat, back: nat, slots: seq<Elem>, pcs: seq<Pc>,
    pushed: seq<Task>, holder: seq<int>)

  datatype Action = CallPush(task: Task) | CallPop | CallSize | Return | Run

  function At(s: State, t: nat, pc: Pc): State
    requires t < |s.pcs|
  {
    s.(pcs := s.pcs[t := pc])
  }

  predicate Sane(s: State) { 2 <= s.cap == |s.slots| == |s.holder| }

  predicate Returned(p: Pc) { p.Pushed? || p.Refused? || p.Popped? || p.FoundEmpty? || p.Sized? }

  predicate Enabled(s: State, t: nat, act: Action) {
    && t < |s.pcs| && Sane(s)
    && match act
       case CallPush(_) => s.pcs[t].Idle?
       case CallPop => s.pcs[t].Idle?
       case CallSize => s.pcs[t].Idle?
       case Return => Returned(s.pcs[t])
       case Run => !s.pcs[t].Idle? && !Returned(s.pcs[t])
  }

  function Apply(s: State, t: nat, act: Action): State
    requires Enabled(s, t, act)
  {
    match act
    case CallPush(task) => At(s, t, PushStart(task))
    case CallPop => At(s, t, PopStart)
    case CallSize => At(s, t, SizeStart)
    case Return => At(s, t, Idle)
    case Run =>
      match s.pcs[t]
      case PushStart(task) => At(s, t, PushRead(task, s.front))
      case PushRead(task, pos) => At(s, t, PushCas(task, pos, s.slots[Slot(pos, s.cap)].state))
      case PushCas(task, pos, state) => RunPushCas(s, t, task, pos, state)
      case PushWrite(task, pos) =>
        At(s, t, PushPublish(task, pos)).(slots := s.slots[Slot(pos, s.cap) := s.slots[Slot(pos, s.cap)].(task := task)])
      case PushPublish(task, pos) => RunPublish(s, t, Pushed(task, pos), pos, pos + 1)
      case PopStart => At(s, t, PopRead(s.back))
      case PopRead(pos) => At(s, t, PopCas(pos, s.slots[Slot(pos, s.cap)].state))
      case PopCas(pos, state) => RunPopCas(s, t, pos, state)
      case PopTake(pos) => At(s, t, PopRelease(pos, s.slots[Slot(pos, s.cap)].task))
      case PopRelease(pos, task) => RunPublish(s, t, Popped(pos, task), pos, pos + s.cap)
      case SizeStart => At(s, t, SizeBack(s.front))
      case SizeBack(front) => At(s, t, SizeFront(front, s.back, s.front))
      case SizeFront(front, back, atBack) =>
        if s.front != front then At(s, t, SizeBack(s.front))
        else At(s, t, Sized(if front - back < s.cap then front - back else s.cap, atBack, back))
      case _ => s
  }

  /** diff == 0: try to claim the position; diff < 0: full; diff > 0: reload mFront. */
  function RunPushCas(s: State, t: nat, task: Task, pos: nat, state: int): State
    requires t < |s.pcs| && Sane(s)
  {
    if state == pos && s.front == pos then
      At(s, t, PushWrite(task, pos)).(
        front := pos + 1, pushed := s.pushed + [task], holder := s.holder[Slot(pos, s.cap) := t])
    else if state < pos then At(s, t, Refused(task))
    else At(s, t, PushRead(task, s.front))
  }

  function RunPopCas(s: State, t: nat, pos: nat, state: int): State
    requires t < |s.pcs| && Sane(s)
  {
    if state == pos + 1 && s.back == pos then
      At(s, t, PopTake(pos)).(back := pos + 1, holder := s.holder[Slot(pos, s.cap) := t])
    else if state < pos + 1 then At(s, t, FoundEmpty)
    else At(s, t, PopRead(s.back))
  }

  /** The release store of the slot's next sequence number. */
  function RunPublish(s: State, t: nat, pc: Pc, pos: nat, state: int): State
    requires t < |s.pcs| && Sane(s)
  {
    var i := Slot(pos, s.cap);
    At(s, t, pc).(slots := s.slots[i := s.slots[i].(state := state)], holder := s.holder[i := -1])
  }

  ghost predicate Next(s: State, s': State) {
    exists t: nat, act: Action :: Enabled(s, t, act) && s' == Apply(s, t, act)
  }

  predicate Init(s: State) {
    && Sane(s) && s.front == 0 && s.back == 0 && s.pushed == []
    && (forall i :: 0 <= i < s.cap ==> s.slots[i].state == i && s.holder[i] == -1)
    && (forall t :: 0 <= t < |s.pcs| ==> s.pcs[t].Idle?)
  }

  ghost predicate StepAt(run: seq<State>, i: nat)
    requires i + 1 < |run|
  {
    Next(run[i], run[i + 1])
  }

  ghost predicate IsRun(run: seq<State>) {
    |run| > 0 && Init(run[0]) && forall i :: 0 <= i < |run| - 1 ==> StepAt(run, i)
  }

  // ------------------------------------------------------------ the invariant

  /** The slot of position p in the window [back, back + cap): being filled or full below front;
      free, or still being drained one lap behind, from front on. */
  predicate SlotOk(p: int, cap: nat, front: nat, e: Elem, holder: int, pushed: seq<Task>) {
    if p < front then
      || (e.state == p && holder >= 0)
      || (e.state == p + 1 && holder == -1 && 0 <= p < |pushed| && e.task == pushed[p])
    else
      || (e.state == p && holder == -1)
      || (e.state == p + 1 - cap && holder >= 0)
  }

  predicate SlotAt(s: State, p: int)
    requires Sane(s)
  {
    SlotOk(p, s.cap, s.front, s.slots[Slot(p, s.cap)], s.holder[Slot(p, s.cap)], s.pushed)
  }

  predicate Filling(p: Pc) { p.PushWrite? || p.PushPublish? }

  predicate Draining(p: Pc) { p.PopTake? || p.PopRelease? }

  /** What the local variables of agent t say, given the slot e of its position. */
  predicate AgentOk(p: Pc, t: nat, cap: nat, front: nat, back: nat, e: Elem, holder: int, pushed: seq<Task>) {
    && (p.PushRead? || p.PushCas? ==> p.pos <= front)
    && (p.PopRead? || p.PopCas? ==> p.pos <= back)
    && (p.PushCas? || p.PopCas? ==> p.state <= e.state)
    && (Filling(p) ==> back <= p.pos < front && p.pos < |pushed| && holder == t && e.state == p.pos && pushed[p.pos] == p.task)
    && (p.PushPublish? ==> e.task == p.task)
    && (Draining(p) ==> p.pos < back && front <= p.pos + cap && p.pos < |pushed| && holder == t && e.state == p.pos + 1)
    && (p.PopTake? ==> e.task == pushed[p.pos])
    && (p.PopRelease? ==> p.task == pushed[p.pos])
    && (p.Popped? ==> p.pos < back && p.pos < |pushed| && p.task == pushed[p.pos])
    && (p.Pushed? ==> p.pos < front && p.pos < |pushed| && p.task == pushed[p.pos])
    && (p.SizeBack? ==> p.front <= front)
    && (p.SizeFront? ==> p.front <= p.atBack <= front && p.back <= p.atBack <= p.back + cap)
    && (p.Sized? ==> p.size == p.front - p.back)
  }

  function PosOf(p: Pc): nat {
    if p.PushRead? || p.PushCas? || p.PushWrite? || p.PushPublish? || p.PopRead? || p.PopCas? || p.PopTake? || p.PopRelease?
    then p.pos else 0
  }

  predicate AgentAt(s: State, t: nat)
    requires Sane(s) && t < |s.pcs|
  {
    var i := Slot(PosOf(s.pcs[t]), s.cap);
    AgentOk(s.pcs[t], t, s.cap, s.front, s.back, s.slots[i], s.holder[i], s.pushed)
  }

  /** A held slot is being filled or drained by its holder. */
  predicate HolderAt(s: State, i: nat)
    requires Sane(s) && i < s.cap
  {
    s.holder[i] >= 0 ==>
      && s.holder[i] < |s.pcs|
      && (Filling(s.pcs[s.holder[i]]) || Draining(s.pcs[s.holder[i]]))
      && Slot(PosOf(s.pcs[s.holder[i]]), s.cap) == i
  }

  predicate Inv(s: State) {
    && Sane(s) && s.back <= s.front <= s.back + s.cap && |s.pushed| == s.front
    && (forall p :: s.back <= p < s.back + s.cap ==> SlotAt(s, p))
    && (forall t :: 0 <= t < |s.pcs| ==> AgentAt(s, t))
    && (forall i :: 0 <= i < s.cap ==> HolderAt(s, i))
  }

  lemma InitInv(s: State)
    requires Init(s)
    ensures Inv(s)
  {
    forall p | s.back <= p < s.back + s.cap ensures SlotAt(s, p) { SlotSmall(p, s.cap); }
  }

  /** The sequence number at the slot of a position below the window's end has reached it. */
  lemma ReachedState(s: State, p: nat)
    requires Inv(s) && p < s.back + s.cap
    ensures p < s.back ==> s.slots[Slot(p, s.cap)].state >= p + 1
    ensures s.back <= p < s.front ==> s.slots[Slot(p, s.cap)].state >= p
  {
    var q := Rep(s.back, p, s.cap);
    assert SlotAt(s, q);
  }

  /** Moving agent t without touching the shared state. */
  lemma Move(s: State, t: nat, pc: Pc)
    requires Inv(s) && t < |s.pcs| && !Filling(s.pcs[t]) && !Draining(s.pcs[t])
    requires AgentAt(At(s, t, pc), t)
    ensures Inv(At(s, t, pc))
  {
    var s' := At(s, t, pc);
    forall p | s.back <= p < s.back + s.cap ensures SlotAt(s', p) { assert SlotAt(s, p); }
    forall a | 0 <= a < |s.pcs| ensures AgentAt(s', a) { assert AgentAt(s, a) || a == t; }
    forall i | 0 <= i < s.cap ensures HolderAt(s', i) { assert HolderAt(s, i); }
  }

  // ------------------------------------------------------------ claiming a position

  /** A push can only claim a free slot. */
  lemma ClaimFree(s: State, t: nat)
    requires Inv(s) && t < |s.pcs| && s.pcs[t].PushCas? && s.pcs[t].state == s.pcs[t].pos == s.front
    ensures s.front < s.back + s.cap
    ensures s.slots[Slot(s.front, s.cap)].state == s.front && s.holder[Slot(s.front, s.cap)] == -1
  {
    assert AgentAt(s, t);
    SlotLap(s.back, s.cap);
    assert SlotAt(s, s.back);
    assert s.front < s.back + s.cap ==> SlotAt(s, s.front);
  }

  lemma PushClaimAgent(s: State, s': State, t: nat, a: nat)
    requires Inv(s) && t < |s.pcs| && s.pcs[t].PushCas? && s.pcs[t].state == s.pcs[t].pos == s.front
    requires s' == RunPushCas(s, t, s.pcs[t].task, s.front, s.front) && a < |s.pcs| && a != t
    ensures AgentAt(s', a)
  {
    ClaimFree(s, t);
    assert AgentAt(s, a);
    SlotLap(PosOf(s.pcs[a]), s.cap);
  }

  lemma PushClaim(s: State, t: nat)
    requires Inv(s) && t < |s.pcs| && s.pcs[t].PushCas? && s.pcs[t].state == s.pcs[t].pos == s.front
    ensures Inv(RunPushCas(s, t, s.pcs[t].task, s.front, s.front))
  {
    var s' := RunPushCas(s, t, s.pcs[t].task, s.front, s.front);
    ClaimFree(s, t);
    SlotsDiffer(s.back, s.cap);
    forall p | s.back <= p < s.back + s.cap ensures SlotAt(s', p) { assert SlotAt(s, p); }
    forall a | 0 <= a < |s.pcs| ensures AgentAt(s', a) {
      if a != t { PushClaimAgent(s, s', t, a); }
    }
    forall i | 0 <= i < s.cap ensures HolderAt(s', i) { assert HolderAt(s, i); }
  }

  /** A pop can only claim a full slot. */
  lemma ClaimFull(s: State, t: nat)
    requires Inv(s) && t < |s.pcs| && s.pcs[t].PopCas? && s.pcs[t].state == s.pcs[t].pos + 1 && s.pcs[t].pos == s.back
    ensures s.back < s.front && s.holder[Slot(s.back, s.cap)] == -1
    ensures s.slots[Slot(s.back, s.cap)] == Elem(s.back + 1, s.pushed[s.back])
  {
    assert AgentAt(s, t);
    assert SlotAt(s, s.back);
  }

  lemma PopClaimAgent(s: State, s': State, t: nat, a: nat)
    requires Inv(s) && t < |s.pcs| && s.pcs[t].PopCas? && s.pcs[t].state == s.pcs[t].pos + 1 && s.pcs[t].pos == s.back
    requires s' == RunPopCas(s, t, s.back, s.back + 1) && a < |s.pcs| && a != t
    ensures AgentAt(s', a)
  {
    ClaimFull(s, t);
    assert AgentAt(s, a);
  }

  lemma PopClaim(s: State, t: nat)
    requires Inv(s) && t < |s.pcs| && s.pcs[t].PopCas? && s.pcs[t].state == s.pcs[t].pos + 1 && s.pcs[t].pos == s.back
    ensures Inv(RunPopCas(s, t, s.back, s.back + 1))
  {
    var s' := RunPopCas(s, t, s.back, s.back + 1);
    ClaimFull(s, t);
    SlotsDiffer(s.back, s.cap);
    SlotLap(s.back, s.cap);
    forall p | s'.back <= p < s'.back + s.cap ensures SlotAt(s', p) {
      assert p < s.back + s.cap ==> SlotAt(s, p);
    }
    forall a | 0 <= a < |s.pcs| ensures AgentAt(s', a) {
      if a != t { PopClaimAgent(s, s', t, a); }
    }
    forall i | 0 <= i < s.cap ensures HolderAt(s', i) { assert HolderAt(s, i); }
  }

  // ------------------------------------------------------------ working on an owned slot

  /** The owner of slot i changes it; the sequence number does not go back. */
  predicate OwnerStep(s: State, s': State, t: nat, i: nat)
    requires Sane(s)
  {
    && t < |s.pcs| && i < s.cap && s.holder[i] == t && i == Slot(PosOf(s.pcs[t]), s.cap)
    && Sane(s') && s'.cap == s.cap && s'.front == s.front && s'.back == s.back && s'.pushed == s.pushed
    && |s'.pcs| == |s.pcs| && s'.pcs == s.pcs[t := s'.pcs[t]]
    && s'.slots == s.slots[i := s'.slots[i]] && s'.holder == s.holder[i := s'.holder[i]]
    && s.slots[i].state <= s'.slots[i].state
  }

  lemma OwnerAgent(s: State, s': State, t: nat, i: nat, a: nat)
    requires Inv(s) && OwnerStep(s, s', t, i) && a < |s.pcs| && a != t
    ensures AgentAt(s', a)
  {
    assert AgentAt(s, a);
  }

  lemma OwnerKeepsInv(s: State, s': State, t: nat, i: nat, q: int)
    requires Inv(s) && OwnerStep(s, s', t, i) && s.back <= q < s.back + s.cap && Slot(q, s.cap) == i
    requires AgentAt(s', t) && SlotAt(s', q) && HolderAt(s', i)
    ensures Inv(s')
  {
    SlotsDiffer(s.back, s.cap);
    forall p | s.back <= p < s.back + s.cap ensures SlotAt(s', p) { assert SlotAt(s, p); }
    forall a | 0 <= a < |s.pcs| ensures AgentAt(s', a) {
      if a != t { OwnerAgent(s, s', t, i, a); }
    }
    forall j | 0 <= j < s.cap ensures HolderAt(s', j) { assert HolderAt(s, j); }
  }

  lemma FillStep(s: State, t: nat)
    requires Inv(s) && t < |s.pcs| && Filling(s.pcs[t])
    ensures Inv(Apply(s, t, Run))
  {
    var pos := s.pcs[t].pos;
    assert AgentAt(s, t) && SlotAt(s, pos);
    OwnerKeepsInv(s, Apply(s, t, Run), t, Slot(pos, s.cap), pos);
  }

  lemma DrainStep(s: State, t: nat)
    requires Inv(s) && t < |s.pcs| && Draining(s.pcs[t])
    ensures Inv(Apply(s, t, Run))
  {
    var pos := s.pcs[t].pos;
    assert AgentAt(s, t);
    var q := Rep(s.back, pos, s.cap);
    assert SlotAt(s, q);
    assert q == pos + s.cap;
    OwnerKeepsInv(s, Apply(s, t, Run), t, Slot(pos, s.cap), q);
  }

  // ------------------------------------------------------------ every run

  lemma QuietRun(s: State, t: nat)
    requires Inv(s) && Enabled(s, t, Run) && !Filling(s.pcs[t]) && !Draining(s.pcs[t])
    requires s.pcs[t].PushCas? ==> !(s.pcs[t].state == s.pcs[t].pos == s.front)
    requires s.pcs[t].PopCas? ==> !(s.pcs[t].state == s.pcs[t].pos + 1 && s.pcs[t].pos == s.back)
    ensures Apply(s, t, Run) == At(s, t, Apply(s, t, Run).pcs[t]) && AgentAt(Apply(s, t, Run), t)
  {
    assert AgentAt(s, t);
  }

  lemma QuietStep(s: State, t: nat, act: Action)
    requires Inv(s) && Enabled(s, t, act)
    requires act == Run ==> !Filling(s.pcs[t]) && !Draining(s.pcs[t])
    requires act == Run && s.pcs[t].PushCas? ==> !(s.pcs[t].state == s.pcs[t].pos == s.front)
    requires act == Run && s.pcs[t].PopCas? ==> !(s.pcs[t].state == s.pcs[t].pos + 1 && s.pcs[t].pos == s.back)
    ensures Inv(Apply(s, t, act))
  {
    if act == Run { QuietRun(s, t); }
    Move(s, t, Apply(s, t, act).pcs[t]);
  }

  lemma NextInv(s: State, s': State)
    requires Inv(s) && Next(s, s')
    ensures Inv(s')
  {
    var t: nat, act :| Enabled(s, t, act) && s' == Apply(s, t, act);
    if act == Run && Filling(s.pcs[t]) {
      FillStep(s, t);
    } else if act == Run && Draining(s.pcs[t]) {
      DrainStep(s, t);
    } else if act == Run && s.pcs[t].PushCas? && s.pcs[t].state == s.pcs[t].pos == s.front {
      PushClaim(s, t);
    } else if act == Run && s.pcs[t].PopCas? && s.pcs[t].state == s.pcs[t].pos + 1 && s.pcs[t].pos == s.back {
      PopClaim(s, t);
    } else {
      QuietStep(s, t, act);
    }
  }

  lemma {:induction false} RunInv(run: seq<State>, i: nat)
    requires IsRun(run) && i < |run|
    ensures Inv(run[i])
  {
    if i == 0 { InitInv(run[0]); } else { RunInv(run, i - 1); assert StepAt(run, i - 1); NextInv(run[i - 1], run[i]); }
  }

  // ------------------------------------------------------------ a linearizable bounded FIFO

  /** The abstract queue: what the claimed but not yet popped positions hold. */
  function Queue(s: State): seq<Task>
    requires s.back <= s.front <= |s.pushed|
  {
    s.pushed[s.back..s.front]
  }

  /** The agent enqueues `task` in this step. */
  predicate Enqueues(s: State, s': State, t: nat, task: Task) {
    t < |s.pcs| && t < |s'.pcs| && s.pcs[t].PushCas? && s'.pcs[t] == PushWrite(task, s.front)
  }

  predicate Dequeues(s: State, s': State, t: nat) {
    t < |s.pcs| && t < |s'.pcs| && s.pcs[t].PopCas? && s'.pcs[t] == PopTake(s.back)
  }

  /** Each step is one atomic operation of a FIFO with `cap` places, or leaves it alone. */
  lemma StepRefinesFifo(s: State, t: nat, act: Action)
    requires Inv(s) && Enabled(s, t, act)
    ensures Inv(Apply(s, t, act)) && s.pushed <= Apply(s, t, act).pushed && Apply(s, t, act).cap == s.cap
    ensures
      var s' := Apply(s, t, act);
      if act == Run && s.pcs[t].PushCas? && s'.pcs[t].PushWrite? then
        && Enqueues(s, s', t, s.pcs[t].task) && |Queue(s)| < s.cap && Queue(s') == Queue(s) + [s.pcs[t].task]
      else if act == Run && s.pcs[t].PopCas? && s'.pcs[t].PopTake? then
        && Dequeues(s, s', t) && Queue(s) != [] && Queue(s') == Queue(s)[1..] && Queue(s)[0] == s'.pushed[s'.pcs[t].pos]
      else Queue(s') == Queue(s)
  {
    var s' := Apply(s, t, act);
    assert Next(s, s');
    NextInv(s, s');
    if act == Run && s.pcs[t].PushCas? && s'.pcs[t].PushWrite? {
      ClaimFree(s, t);
    } else if act == Run && s.pcs[t].PopCas? && s'.pcs[t].PopTake? {
      ClaimFull(s, t);
    }
  }

  /** A pop that returned gives the task of the push that claimed the same position, however the
      run went on; the bounds hold in every state. */
  lemma PopReturnsItsPush(run: seq<State>, i: nat, t: nat)
    requires IsRun(run) && i < |run| && t < |run[i].pcs|
    ensures run[i].back <= run[i].front <= run[i].back + run[i].cap && |run[i].pushed| == run[i].front
    ensures run[i].pcs[t].Popped? ==>
              run[i].pcs[t].pos < run[i].back && run[i].pcs[t].task == run[i].pushed[run[i].pcs[t].pos]
    ensures run[i].pcs[t].Pushed? ==>
              run[i].pcs[t].pos < run[i].front && run[i].pcs[t].task == run[i].pushed[run[i].pcs[t].pos]
  {
    RunInv(run, i);
    assert AgentAt(run[i], t);
  }

  lemma {:induction false} HistoryGrows(run: seq<State>, i: nat, j: nat)
    requires IsRun(run) && i <= j < |run|
    ensures run[i].pushed <= run[j].pushed && run[i].back <= run[j].back && run[i].cap == run[j].cap
  {
    if i < j {
      HistoryGrows(run, i, j - 1);
      RunInv(run, j - 1);
      assert StepAt(run, j - 1);
      var t: nat, act :| Enabled(run[j - 1], t, act) && run[j] == Apply(run[j - 1], t, act);
      StepRefinesFifo(run[j - 1], t, act);
    }
  }

  /** No position is handed out twice: claims happen in position order. */
  lemma ClaimsAreDistinct(run: seq<State>, i: nat, j: nat, a: nat, b: nat)
    requires IsRun(run) && i < j < |run| - 1
    requires Dequeues(run[i], run[i + 1], a) && Dequeues(run[j], run[j + 1], b)
    ensures run[i + 1].pcs[a].pos < run[j + 1].pcs[b].pos
  {
    RunInv(run, i);
    RunInv(run, i + 1);
    assert AgentAt(run[i + 1], a);
    HistoryGrows(run, i + 1, j);
  }

  /** A push is refused only when the queue is full, or when the pop of the position one lap
      back has claimed its slot but not yet released it. */
  lemma RefusalReason(s: State, t: nat)
    requires Inv(s) && t < |s.pcs| && s.pcs[t].PushRead?
    requires s.slots[Slot(s.pcs[t].pos, s.cap)].state < s.pcs[t].pos
    ensures s.pcs[t].pos == s.front
    ensures |Queue(s)| == s.cap
            || exists a :: 0 <= a < |s.pcs| && Draining(s.pcs[a]) && s.pcs[a].pos == s.front - s.cap
  {
    var pos := s.pcs[t].pos;
    assert AgentAt(s, t);
    if pos < s.front { ReachedState(s, pos); }
    if s.front < s.back + s.cap {
      assert SlotAt(s, s.front);
      var i := Slot(s.front, s.cap);
      assert HolderAt(s, i);
      var a := s.holder[i];
      assert AgentAt(s, a);
      var q := Rep(s.back, s.pcs[a].pos, s.cap);
      SlotsDiffer(s.back, s.cap);
      assert q == s.front;
    }
  }

  /** A pop reports empty only when the queue is empty, or when the push of the position at the
      back has claimed its slot but not yet published its task. */
  lemma EmptyReason(s: State, t: nat)
    requires Inv(s) && t < |s.pcs| && s.pcs[t].PopRead?
    requires s.slots[Slot(s.pcs[t].pos, s.cap)].state < s.pcs[t].pos + 1
    ensures s.pcs[t].pos == s.back
    ensures Queue(s) == [] || exists a :: 0 <= a < |s.pcs| && Filling(s.pcs[a]) && s.pcs[a].pos == s.back
  {
    var pos := s.pcs[t].pos;
    assert AgentAt(s, t);
    if pos < s.back { ReachedState(s, pos); }
    if s.back < s.front {
      assert SlotAt(s, s.back);
      var i := Slot(s.back, s.cap);
      assert HolderAt(s, i);
      var a := s.holder[i];
      assert AgentAt(s, a);
      SlotsDiffer(s.back, s.cap);
      SlotsDiffer(s.back - 1, s.cap);
      assert Slot(s.back - 1, s.cap) != Slot(s.back, s.cap);
    }
  }

  /** Past the read of mBack in a call of Size, or returned from it. */
  predicate HasRead(p: Pc) { p.SizeFront? || p.Sized? }

  /** p carries the positions that state s had: the answer of Size is their difference. */
  predicate Carries(p: Pc, s: State) {
    && (p.SizeFront? ==> p.back == s.back && p.atBack == s.front)
    && (p.Sized? ==> p.back == s.back && p.front == s.front)
  }

  /** Size reaches the second half of its round only by reading mBack, and keeps what it read. */
  lemma HasReadStep(s: State, s': State, t: nat)
    requires Inv(s) && Next(s, s') && t < |s'.pcs| && HasRead(s'.pcs[t])
    ensures t < |s.pcs| && (s.pcs[t].SizeBack? || HasRead(s.pcs[t]))
    ensures s.pcs[t].SizeBack? ==> Carries(s'.pcs[t], s)
    ensures HasRead(s.pcs[t]) ==> SameRead(s.pcs[t], s'.pcs[t])
  {
    var a: nat, act :| Enabled(s, a, act) && s' == Apply(s, a, act);
    if a == t {
      OwnRead(s, t, act);
    } else {
      OtherKeeps(s, a, act, t);
    }
  }

  predicate SameRead(p: Pc, q: Pc) {
    q == p || (p.SizeFront? && q.Sized? && q.back == p.back && q.front == p.atBack)
  }

  lemma OtherKeeps(s: State, a: nat, act: Action, t: nat)
    requires Enabled(s, a, act) && a != t
    ensures |Apply(s, a, act).pcs| == |s.pcs| && (t < |s.pcs| ==> Apply(s, a, act).pcs[t] == s.pcs[t])
  {
  }

  lemma OwnRead(s: State, t: nat, act: Action)
    requires Inv(s) && Enabled(s, t, act) && t < |Apply(s, t, act).pcs| && HasRead(Apply(s, t, act).pcs[t])
    ensures act == Run && (s.pcs[t].SizeBack? || HasRead(s.pcs[t]))
    ensures s.pcs[t].SizeBack? ==> Carries(Apply(s, t, act).pcs[t], s)
    ensures HasRead(s.pcs[t]) ==> SameRead(s.pcs[t], Apply(s, t, act).pcs[t])
  {
  }

  /** The read of mBack that the answer rests on: it belongs to this very call, and the positions
      of that moment are the ones carried to the end. */
  lemma {:induction false} SnapshotTaken(run: seq<State>, i: nat, t: nat) returns (j: nat)
    requires IsRun(run) && i < |run| && t < |run[i].pcs| && HasRead(run[i].pcs[t])
    ensures j < i && t < |run[j].pcs| && run[j].pcs[t].SizeBack? && Carries(run[i].pcs[t], run[j])
    ensures forall k :: j < k <= i ==> t < |run[k].pcs| && HasRead(run[k].pcs[t])
  {
    assert i > 0;
    assert StepAt(run, i - 1);
    RunInv(run, i - 1);
    HasReadStep(run[i - 1], run[i], t);
    if run[i - 1].pcs[t].SizeBack? {
      j := i - 1;
    } else {
      j := SnapshotTaken(run, i - 1, t);
    }
  }

  /** Size returns the length the queue had at the moment mBack was read inside this call, which counts
      every push that had claimed a place and that no pop had claimed: 0 only if there was none. */
  lemma SizeIsALength(run: seq<State>, i: nat, t: nat) returns (j: nat)
    requires IsRun(run) && i < |run| && t < |run[i].pcs| && run[i].pcs[t].Sized?
    ensures j < i && t < |run[j].pcs| && run[j].pcs[t].SizeBack?
    ensures forall k :: j < k <= i ==> t < |run[k].pcs| && HasRead(run[k].pcs[t])
    ensures run[j].back <= run[j].front <= |run[j].pushed| && run[i].pcs[t].size == |Queue(run[j])| <= run[j].cap
  {
    j := SnapshotTaken(run, i, t);
    RunInv(run, i);
    RunInv(run, j);
    assert AgentAt(run[i], t);
  }

  // ------------------------------------------------------------ 32-bit positions

  const UINT: nat := 0x1_0000_0000

  datatype Verdict = Claim | Full | Reload

  /** The sign of the difference of two unsigned numbers, both widened to int64. */
  function Judge(state: int, pos: int): Verdict {
    if state == pos then Claim else if state < pos then Full else Reload
  }

  function Judge32(state: nat, pos: nat): Verdict { Judge(state % UINT, pos % UINT) }

  predicate SameBlock(x: nat, y: nat) { x / UINT == y / UINT }

  /** On numbers less than 2^32 apart, ahead or behind, the 32-bit code judges as the unbounded
      model does exactly when the two are equal or lie in the same block of 2^32. */
  lemma WrapVerdict(state: nat, pos: nat)
    requires state < pos + UINT && pos < state + UINT
    ensures Judge32(state, pos) == Judge(state, pos) <==> state == pos || SameBlock(state, pos)
    ensures Judge32(state, pos) == Claim <==> state == pos
  {
  }

  /** The step after the load of the state, as the code takes it with 32-bit numbers. */
  function RunPushCas32(s: State, t: nat, task: Task, pos: nat, state: nat): State
    requires t < |s.pcs| && Sane(s)
  {
    var verdict := Judge32(state, pos);
    if verdict == Claim && s.front % UINT == pos % UINT then
      At(s, t, PushWrite(task, pos)).(
        front := s.front + 1, pushed := s.pushed + [task], holder := s.holder[Slot(pos, s.cap) := t])
    else if verdict == Full then At(s, t, Refused(task))
    else At(s, t, PushRead(task, s.front))
  }

  function RunPopCas32(s: State, t: nat, pos: nat, state: nat): State
    requires t < |s.pcs| && Sane(s)
  {
    var verdict := Judge32(state, pos + 1);
    if verdict == Claim && s.back % UINT == pos % UINT then
      At(s, t, PopTake(pos)).(back := s.back + 1, holder := s.holder[Slot(pos, s.cap) := t])
    else if verdict == Full then At(s, t, FoundEmpty)
    else At(s, t, PopRead(s.back))
  }

  /** Sequence numbers near position p: not more than a lap behind it, nor ahead of the front. */
  predicate Near(state: int, p: nat, cap: nat, front: nat) { p <= state + cap && 0 <= state <= front + cap }

  predicate ReadAt(p: Pc, cap: nat, front: nat) {
    && (p.PushCas? ==> Near(p.state, p.pos, cap, front))
    && (p.PopCas? ==> Near(p.state, p.pos + 1, cap, front))
  }

  predicate ReadsNear(s: State) { forall t :: 0 <= t < |s.pcs| ==> ReadAt(s.pcs[t], s.cap, s.front) }

  /** What a push at most at the front, or a pop at most at the back, can load. */
  lemma LoadIsNear(s: State, p: nat)
    requires Inv(s) && p <= s.front
    ensures Near(s.slots[Slot(p, s.cap)].state, p, s.cap, s.front)
    ensures p <= s.back ==> Near(s.slots[Slot(p, s.cap)].state, p + 1, s.cap, s.front)
  {
    var q := if p == s.back + s.cap then s.back else Rep(s.back, p, s.cap);
    if p == s.back + s.cap { SlotLap(s.back, s.cap); }
    assert SlotAt(s, q);
    var i := Slot(p, s.cap);
    assert HolderAt(s, i);
    if s.holder[i] >= 0 { assert AgentAt(s, s.holder[i]); }
  }

  lemma ReadsNearStep(s: State, t: nat, act: Action)
    requires Inv(s) && ReadsNear(s) && Enabled(s, t, act)
    ensures ReadsNear(Apply(s, t, act))
  {
    var s' := Apply(s, t, act);
    if act == Run && (s.pcs[t].PushRead? || s.pcs[t].PopRead?) {
      assert AgentAt(s, t);
      LoadIsNear(s, s.pcs[t].pos);
    }
    forall u | 0 <= u < |s'.pcs| ensures ReadAt(s'.pcs[u], s'.cap, s'.front) {
      if u != t { OtherKeeps(s, t, act, u); assert ReadAt(s.pcs[u], s.cap, s.front); }
    }
  }

  lemma {:induction false} RunReadsNear(run: seq<State>, i: nat)
    requires IsRun(run) && i < |run|
    ensures ReadsNear(run[i])
  {
    if i > 0 {
      RunReadsNear(run, i - 1);
      RunInv(run, i - 1);
      assert StepAt(run, i - 1);
      var t: nat, act :| Enabled(run[i - 1], t, act) && run[i] == Apply(run[i - 1], t, act);
      ReadsNearStep(run[i - 1], t, act);
    }
  }

  lemma AtDiffers(s: State, t: nat, p: Pc, q: Pc)
    requires t < |s.pcs| && p != q
    ensures At(s, t, p) != At(s, t, q)
  {
    assert At(s, t, p).pcs[t] == p && At(s, t, q).pcs[t] == q;
  }

  /** In every reachable state in which fewer than 2^32 - 2 * capacity pushes happened since this one
      loaded mFront, the 32-bit push does what the unbounded one does if and only if the sequence
      number it loaded and its position are equal or lie in the same block of 2^32. */
  lemma Push32Agrees(run: seq<State>, i: nat, t: nat)
    requires IsRun(run) && i < |run| && t < |run[i].pcs| && run[i].pcs[t].PushCas?
    requires run[i].front + 2 * run[i].cap < run[i].pcs[t].pos + UINT
    ensures Sane(run[i]) && run[i].pcs[t].state >= 0
    ensures var p := run[i].pcs[t];
            (RunPushCas32(run[i], t, p.task, p.pos, p.state) == RunPushCas(run[i], t, p.task, p.pos, p.state))
            <==> (p.state == p.pos || SameBlock(p.state, p.pos))
  {
    RunInv(run, i);
    RunReadsNear(run, i);
    var s, p := run[i], run[i].pcs[t];
    assert AgentAt(s, t) && ReadAt(p, s.cap, s.front);
    WrapVerdict(p.state, p.pos);
    WrapVerdict(s.front, p.pos);
    AtDiffers(s, t, Refused(p.task), PushRead(p.task, s.front));
  }

  lemma Pop32Agrees(run: seq<State>, i: nat, t: nat)
    requires IsRun(run) && i < |run| && t < |run[i].pcs| && run[i].pcs[t].PopCas?
    requires run[i].back + 2 * run[i].cap < run[i].pcs[t].pos + UINT
    ensures Sane(run[i]) && run[i].pcs[t].state >= 0
    ensures var p := run[i].pcs[t];
            (RunPopCas32(run[i], t, p.pos, p.state) == RunPopCas(run[i], t, p.pos, p.state))
            <==> (p.state == p.pos + 1 || SameBlock(p.state, p.pos + 1))
  {
    RunInv(run, i);
    RunReadsNear(run, i);
    var s, p := run[i], run[i].pcs[t];
    assert AgentAt(s, t) && ReadAt(p, s.cap, s.front);
    WrapVerdict(p.state, p.pos + 1);
    WrapVerdict(s.back, p.pos);
    AtDiffers(s, t, FoundEmpty, PopRead(s.back));
  }

  /** Before the positions reach the first wrap the 32-bit code is the unbounded one. */
  lemma ShortRunsAgree(run: seq<State>, i: nat, t: nat)
    requires IsRun(run) && i < |run| && t < |run[i].pcs| && run[i].front + 2 * run[i].cap < UINT
    ensures Sane(run[i])
    ensures var p := run[i].pcs[t];
            p.PushCas? ==> p.state >= 0 && RunPushCas32(run[i], t, p.task, p.pos, p.state) == RunPushCas(run[i], t, p.task, p.pos, p.state)
    ensures var p := run[i].pcs[t];
            p.PopCas? ==> p.state >= 0 && RunPopCas32(run[i], t, p.pos, p.state) == RunPopCas(run[i], t, p.pos, p.state)
  {
    RunInv(run, i);
    RunReadsNear(run, i);
    assert AgentAt(run[i], t) && ReadAt(run[i].pcs[t], run[i].cap, run[i].front);
    if run[i].pcs[t].PushCas? { Push32Agrees(run, i, t); }
    if run[i].pcs[t].PopCas? { Pop32Agrees(run, i, t); }
  }

  /** A full queue whose front has just wrapped, with nobody at work on the slot: its sequence number
      says full to the unbounded comparison, and the 32-bit push neither claims nor refuses. */
  lemma FullQueueAtWrapReloads(s: State, t: nat, task: Task)
    requires Inv(s) && t < |s.pcs| && s.cap < UINT
    requires s.front == s.back + s.cap && s.front > 0 && s.front % UINT == 0
    requires s.holder[Slot(s.front, s.cap)] == -1
    ensures var state := s.slots[Slot(s.front, s.cap)].state;
            && state == s.front - s.cap + 1 && state >= 0
            && RunPushCas(s, t, task, s.front, state) == At(s, t, Refused(task))
            && RunPushCas32(s, t, task, s.front, state) == At(s, t, PushRead(task, s.front))
  {
    SlotLap(s.back, s.cap);
    assert SlotAt(s, s.back);
    LapBehindWrap(s.front, s.cap);
  }

  lemma LapBehindWrap(pos: nat, cap: nat)
    requires 2 <= cap < UINT && pos > 0 && pos % UINT == 0
    ensures pos >= cap && Judge32(pos - cap + 1, pos) == Reload
  {
  }

  /** A push that loaded the last position before the wrap and finds it taken is refused, whether or
      not the queue is full; the unbounded push would try again. */
  lemma StalePushAtWrapRefused(s: State, t: nat, task: Task, pos: nat)
    requires t < |s.pcs| && Sane(s) && pos % UINT == UINT - 1
    ensures RunPushCas32(s, t, task, pos, pos + 1) == At(s, t, Refused(task))
    ensures RunPushCas(s, t, task, pos, pos + 1) == At(s, t, PushRead(task, s.front))
  {
  }

  /** A pop whose task was taken by another reports empty if the slot's next lap begins behind the
      wrap; the unbounded pop would try again. */
  lemma StalePopAtWrapFindsNothing(s: State, t: nat, pos: nat)
    requires t < |s.pcs| && Sane(s) && s.cap < UINT && (pos + 1) % UINT >= UINT - s.cap + 1
    ensures RunPopCas32(s, t, pos, pos + s.cap) == At(s, t, FoundEmpty)
    ensures RunPopCas(s, t, pos, pos + s.cap) == At(s, t, PopRead(s.back))
  {
  }
}
