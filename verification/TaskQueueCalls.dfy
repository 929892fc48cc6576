/**
 What each call of TaskQueue promises its caller: a refused push hands back the very task it was called
 with and met a full queue inside this call, a pop that found nothing met an empty one, and a call that
 runs alone finishes with exactly the answer of a sequential queue.
 */
module TaskQueueCalls {
  import opened Ring
  import opened TaskQueue

  datatype Turn = Turn(t: nat, act: Action)

  predicate TurnAt(run: seq<State>, turns: seq<Turn>, i: nat)
    requires i < |turns| && i + 1 < |run|
  {
    Enabled(run[i], turns[i].t, turns[i].act) && run[i + 1] == Apply(run[i], turns[i].t, turns[i].act)
  }

  /** A run together with who did what. */
  predicate IsHistory(run: seq<State>, turns: seq<Turn>) {
    |run| == |turns| + 1 && Init(run[0]) && forall i :: 0 <= i < |turns| ==> TurnAt(run, turns, i)
  }

  lemma HistoryIsRun(run: seq<State>, turns: seq<Turn>)
    requires IsHistory(run, turns)
    ensures IsRun(run)
  {
    forall i | 0 <= i < |run| - 1 ensures StepAt(run, i) { assert TurnAt(run, turns, i); }
  }

  // ------------------------------------------------------------ the task of a call

  predicate InPush(p: Pc) {
    p.PushStart? || p.PushRead? || p.PushCas? || p.PushWrite? || p.PushPublish? || p.Pushed? || p.Refused?
  }

  predicate InPop(p: Pc) { p.PopStart? || p.PopRead? || p.PopCas? || p.PopTake? || p.PopRelease? || p.Popped? || p.FoundEmpty? }

  /** From p to q: a thread is in a push only by calling it, or by going on with the task it called it with;
      in a pop only by calling it or by going on. */
  predicate GoesOn(p: Pc, act: Action, q: Pc) {
    && (InPush(q) ==> (p.Idle? && act == CallPush(q.task)) || (InPush(p) && p.task == q.task && !act.CallPush?))
    && (InPop(q) ==> (p.Idle? && act == CallPop) || (InPop(p) && act != CallPop))
  }

  lemma OwnGoesOn(s: State, t: nat, act: Action)
    requires Enabled(s, t, act)
    ensures |Apply(s, t, act).pcs| == |s.pcs| && GoesOn(s.pcs[t], act, Apply(s, t, act).pcs[t])
  {
  }

  /** From moment j on, up to moment i, thread t is in one push of one task. */
  predicate OnePush(run: seq<State>, j: nat, i: nat, t: nat)
    requires j <= i < |run| && t < |run[i].pcs| && InPush(run[i].pcs[t])
  {
    forall k :: j <= k <= i ==> t < |run[k].pcs| && InPush(run[k].pcs[t]) && run[k].pcs[t].task == run[i].pcs[t].task
  }

  predicate OnePop(run: seq<State>, j: nat, i: nat, t: nat)
    requires j <= i < |run| && t < |run[i].pcs|
  {
    forall k :: j <= k <= i ==> t < |run[k].pcs| && InPop(run[k].pcs[t])
  }

  /** The task that a push refuses, stores, or is working on is the one it was called with. */
  lemma {:induction false} PushHasItsTask(run: seq<State>, turns: seq<Turn>, i: nat, t: nat) returns (j: nat)
    requires IsHistory(run, turns) && i < |run| && t < |run[i].pcs| && InPush(run[i].pcs[t])
    ensures j < i && turns[j] == Turn(t, CallPush(run[i].pcs[t].task)) && OnePush(run, j + 1, i, t)
    ensures forall k :: j < k < i && turns[k].t == t ==> !turns[k].act.CallPush?
  {
    assert i > 0;
    assert TurnAt(run, turns, i - 1);
    var s, turn := run[i - 1], turns[i - 1];
    OneMoves(s, turn.t, turn.act, t);
    if turn.t == t && s.pcs[t].Idle? {
      j := i - 1;
    } else {
      j := PushHasItsTask(run, turns, i - 1, t);
    }
  }

  lemma OneMoves(s: State, a: nat, act: Action, t: nat)
    requires Enabled(s, a, act) && t < |Apply(s, a, act).pcs|
    ensures t < |s.pcs| && if a == t then GoesOn(s.pcs[t], act, Apply(s, a, act).pcs[t]) else Apply(s, a, act).pcs[t] == s.pcs[t]
  {
    OwnGoesOn(s, a, act);
    if a != t { OtherKeeps(s, a, act, t); }
  }

  // ------------------------------------------------------------ why a push is refused

  /** The queue has no room for a push that reads position pos: it holds cap tasks, or the pop of the position
      one lap back has not yet released its slot. */
  predicate NoRoom(s: State)
    requires s.back <= s.front <= |s.pushed|
  {
    |Queue(s)| == s.cap || exists a :: 0 <= a < |s.pcs| && Draining(s.pcs[a]) && s.pcs[a].pos == s.front - s.cap
  }

  predicate NothingThere(s: State)
    requires s.back <= s.front <= |s.pushed|
  {
    Queue(s) == [] || exists a :: 0 <= a < |s.pcs| && Filling(s.pcs[a]) && s.pcs[a].pos == s.back
  }

  /** A push about to fail, or refused, has read a sequence number behind its position. */
  predicate Behind(p: Pc) { p.Refused? || (p.PushCas? && p.state < p.pos) }

  predicate PopBehind(p: Pc) { p.FoundEmpty? || (p.PopCas? && p.state < p.pos + 1) }

  lemma BehindStep(s: State, t: nat, act: Action)
    requires Inv(s) && Enabled(s, t, act)
    ensures |Apply(s, t, act).pcs| == |s.pcs|
    ensures Behind(Apply(s, t, act).pcs[t]) ==> Behind(s.pcs[t]) || (s.pcs[t].PushRead? && s.pcs[t].pos == s.front && NoRoom(s))
    ensures PopBehind(Apply(s, t, act).pcs[t]) ==> PopBehind(s.pcs[t]) || (s.pcs[t].PopRead? && s.pcs[t].pos == s.back && NothingThere(s))
  {
    if act == Run && s.pcs[t].PushRead? && Behind(Apply(s, t, act).pcs[t]) { RefusalReason(s, t); }
    if act == Run && s.pcs[t].PopRead? && PopBehind(Apply(s, t, act).pcs[t]) { EmptyReason(s, t); }
  }

  lemma {:induction false} BehindSince(run: seq<State>, turns: seq<Turn>, i: nat, t: nat) returns (j: nat)
    requires IsHistory(run, turns) && i < |run| && t < |run[i].pcs| && Behind(run[i].pcs[t])
    ensures j < i && OnePush(run, j, i, t) && run[j].pcs[t].PushRead?
    ensures Inv(run[j]) && run[j].pcs[t].pos == run[j].front && NoRoom(run[j])
  {
    HistoryIsRun(run, turns);
    assert i > 0;
    assert TurnAt(run, turns, i - 1);
    RunInv(run, i - 1);
    var s, turn := run[i - 1], turns[i - 1];
    OneMoves(s, turn.t, turn.act, t);
    if turn.t == t { BehindStep(s, t, turn.act); }
    if Behind(s.pcs[t]) {
      j := BehindSince(run, turns, i - 1, t);
    } else {
      j := i - 1;
    }
  }

  lemma {:induction false} PopBehindSince(run: seq<State>, turns: seq<Turn>, i: nat, t: nat) returns (j: nat)
    requires IsHistory(run, turns) && i < |run| && t < |run[i].pcs| && PopBehind(run[i].pcs[t])
    ensures j < i && OnePop(run, j, i, t) && run[j].pcs[t].PopRead?
    ensures Inv(run[j]) && run[j].pcs[t].pos == run[j].back && NothingThere(run[j])
  {
    HistoryIsRun(run, turns);
    assert i > 0;
    assert TurnAt(run, turns, i - 1);
    RunInv(run, i - 1);
    var s, turn := run[i - 1], turns[i - 1];
    OneMoves(s, turn.t, turn.act, t);
    if turn.t == t { BehindStep(s, t, turn.act); }
    if PopBehind(s.pcs[t]) {
      j := PopBehindSince(run, turns, i - 1, t);
    } else {
      j := i - 1;
    }
  }

  /** A push that is refused was called with the task it hands back, and at its load of the slot, inside this
      very call, its position was the front and there was no room. */
  lemma RefusedInCall(run: seq<State>, turns: seq<Turn>, i: nat, t: nat) returns (c: nat, j: nat)
    requires IsHistory(run, turns) && i < |run| && t < |run[i].pcs| && run[i].pcs[t].Refused?
    ensures c < j < i && turns[c] == Turn(t, CallPush(run[i].pcs[t].task)) && OnePush(run, c + 1, i, t)
    ensures t < |run[j].pcs| && run[j].pcs[t] == PushRead(run[i].pcs[t].task, run[j].front)
    ensures run[j].back <= run[j].front <= |run[j].pushed| && NoRoom(run[j])
  {
    c := PushHasItsTask(run, turns, i, t);
    j := BehindSince(run, turns, i, t);
    assert TurnAt(run, turns, c);
    assert t < |run[c].pcs| && !InPush(run[c].pcs[t]);
  }

  /** A pop that found nothing loaded, inside this call, the slot at the back when nothing was there. */
  lemma FoundEmptyInCall(run: seq<State>, turns: seq<Turn>, i: nat, t: nat) returns (j: nat)
    requires IsHistory(run, turns) && i < |run| && t < |run[i].pcs| && run[i].pcs[t].FoundEmpty?
    ensures j < i && OnePop(run, j, i, t) && run[j].pcs[t] == PopRead(run[j].back)
    ensures run[j].back <= run[j].front <= |run[j].pushed| && NothingThere(run[j])
  {
    j := PopBehindSince(run, turns, i, t);
  }

  // ------------------------------------------------------------ why a call succeeds

  predicate Claimed(p: Pc) { Filling(p) || p.Pushed? }

  predicate PopClaimed(p: Pc) { Draining(p) || p.Popped? }

  lemma ClaimedStep(s: State, t: nat, act: Action)
    requires Enabled(s, t, act) && t < |Apply(s, t, act).pcs| && Claimed(Apply(s, t, act).pcs[t])
    ensures var p, q := s.pcs[t], Apply(s, t, act).pcs[t];
            if Claimed(p) then p.pos == q.pos else Enqueues(s, Apply(s, t, act), t, q.task) && q.pos == s.front
  {
  }

  lemma PopClaimedStep(s: State, t: nat, act: Action)
    requires Enabled(s, t, act) && t < |Apply(s, t, act).pcs| && PopClaimed(Apply(s, t, act).pcs[t])
    ensures var p, q := s.pcs[t], Apply(s, t, act).pcs[t];
            if PopClaimed(p) then p.pos == q.pos else Dequeues(s, Apply(s, t, act), t) && q.pos == s.back
  {
  }

  /** A push that was not refused put its task at the end of the queue by one step inside this call. */
  lemma {:induction false} StoredInCall(run: seq<State>, turns: seq<Turn>, i: nat, t: nat) returns (j: nat)
    requires IsHistory(run, turns) && i < |run| && t < |run[i].pcs| && Claimed(run[i].pcs[t])
    ensures j < i && OnePush(run, j, i, t) && Enqueues(run[j], run[j + 1], t, run[i].pcs[t].task)
    ensures run[j].back <= run[j].front <= |run[j].pushed| && run[j + 1].back <= run[j + 1].front <= |run[j + 1].pushed|
    ensures |Queue(run[j])| < run[j].cap && Queue(run[j + 1]) == Queue(run[j]) + [run[i].pcs[t].task]
    ensures run[i].pcs[t].pos == run[j].front
  {
    HistoryIsRun(run, turns);
    assert i > 0;
    assert TurnAt(run, turns, i - 1);
    RunInv(run, i - 1);
    var s, turn := run[i - 1], turns[i - 1];
    OneMoves(s, turn.t, turn.act, t);
    if turn.t == t { ClaimedStep(s, t, turn.act); }
    if Claimed(s.pcs[t]) {
      j := StoredInCall(run, turns, i - 1, t);
    } else {
      j := i - 1;
      StepRefinesFifo(s, t, turn.act);
    }
  }

  /** A pop that returns a task took it from the head of the queue by one step inside this call. */
  lemma {:induction false} TakenInCall(run: seq<State>, turns: seq<Turn>, i: nat, t: nat) returns (j: nat)
    requires IsHistory(run, turns) && i < |run| && t < |run[i].pcs| && PopClaimed(run[i].pcs[t])
    ensures j < i && OnePop(run, j, i, t) && Dequeues(run[j], run[j + 1], t)
    ensures run[j].back <= run[j].front <= |run[j].pushed| && run[j + 1].back <= run[j + 1].front <= |run[j + 1].pushed|
    ensures Queue(run[j]) != [] && Queue(run[j + 1]) == Queue(run[j])[1..]
    ensures run[i].pcs[t].pos == run[j].back
    ensures run[i].pcs[t].Popped? ==> run[i].pcs[t].task == Queue(run[j])[0]
  {
    HistoryIsRun(run, turns);
    assert i > 0;
    assert TurnAt(run, turns, i - 1);
    RunInv(run, i - 1);
    var s, turn := run[i - 1], turns[i - 1];
    OneMoves(s, turn.t, turn.act, t);
    if turn.t == t { PopClaimedStep(s, t, turn.act); }
    if PopClaimed(s.pcs[t]) {
      j := TakenInCall(run, turns, i - 1, t);
    } else {
      j := i - 1;
      StepRefinesFifo(s, t, turn.act);
    }
    if run[i].pcs[t].Popped? { HeadIsKept(run, i, j, t); }
  }

  /** What a pop returns is what was at the head when it claimed its position. */
  lemma HeadIsKept(run: seq<State>, i: nat, j: nat, t: nat)
    requires IsRun(run) && j <= i < |run| && t < |run[i].pcs| && run[i].pcs[t].Popped? && run[i].pcs[t].pos == run[j].back
    requires run[j].back < run[j].front <= |run[j].pushed|
    ensures Queue(run[j]) != [] && run[i].pcs[t].task == Queue(run[j])[0]
  {
    PopReturnsItsPush(run, i, t);
    HistoryGrows(run, j, i);
  }

  // ------------------------------------------------------------ a call that runs alone

  /** The state after at most n steps of t alone, stopping when its call has returned. */
  function Alone(s: State, t: nat, n: nat): State
    requires t < |s.pcs| && Sane(s)
    decreases n
  {
    if n == 0 || !Enabled(s, t, Run) then s
    else
      OwnGoesOn(s, t, Run);
      Alone(Apply(s, t, Run), t, n - 1)
  }

  lemma AloneStep(s: State, t: nat, n: nat)
    requires n > 0 && Inv(s) && Enabled(s, t, Run)
    ensures Inv(Apply(s, t, Run)) && t < |Apply(s, t, Run).pcs| && Alone(s, t, n) == Alone(Apply(s, t, Run), t, n - 1)
  {
    assert Next(s, Apply(s, t, Run));
    NextInv(s, Apply(s, t, Run));
    OwnGoesOn(s, t, Run);
  }

  /** Steps a push or a pop takes alone before it returns: what it loaded may be stale, so that it has to
      start over once, but not twice. */
  function StepsLeft(p: Pc, front: nat, back: nat): nat {
    match p
    case PushStart(_) => 5
    case PushRead(_, pos) => if pos == front then 4 else 6
    case PushCas(_, pos, _) => if pos == front then 3 else 5
    case PushWrite(_, _) => 2
    case PushPublish(_, _) => 1
    case PopStart => 5
    case PopRead(pos) => if pos == back then 4 else 6
    case PopCas(pos, _) => if pos == back then 3 else 5
    case PopTake(_) => 2
    case PopRelease(_, _) => 1
    case SizeStart => 3
    case SizeBack(f) => if f == front then 2 else 4
    case SizeFront(f, _, _) => if f == front then 1 else 3
    case _ => 0
  }

  /** The sequence numbers at the two ends never run ahead of them. */
  lemma EndStates(s: State)
    requires Inv(s)
    ensures s.slots[Slot(s.front, s.cap)].state <= s.front && s.slots[Slot(s.back, s.cap)].state <= s.back + 1
  {
    SlotLap(s.back, s.cap);
    assert SlotAt(s, s.back);
    if s.front < s.back + s.cap { assert SlotAt(s, s.front); }
  }

  /** What a call alone has loaded from the current end is current enough to decide it. */
  predicate Decides(p: Pc, front: nat, back: nat) {
    && (p.PushCas? && p.pos == front ==> p.state <= front)
    && (p.PopCas? && p.pos == back ==> p.state <= back + 1)
  }

  lemma LoadsDecide(s: State, t: nat)
    requires Inv(s) && t < |s.pcs|
    ensures Decides(s.pcs[t], s.front, s.back)
  {
    assert AgentAt(s, t);
    EndStates(s);
  }

  predicate Closer(p: Pc, s: State, s': State, t: nat) {
    t < |s'.pcs| && StepsLeft(s'.pcs[t], s'.front, s'.back) < StepsLeft(p, s.front, s.back)
  }

  lemma PushProgress(s: State, t: nat)
    requires Enabled(s, t, Run) && Decides(s.pcs[t], s.front, s.back) && InPush(s.pcs[t])
    ensures Closer(s.pcs[t], s, Apply(s, t, Run), t)
  {
  }

  lemma PopProgress(s: State, t: nat)
    requires Enabled(s, t, Run) && Decides(s.pcs[t], s.front, s.back) && InPop(s.pcs[t])
    ensures Closer(s.pcs[t], s, Apply(s, t, Run), t)
  {
  }

  lemma SizeProgress(s: State, t: nat)
    requires Enabled(s, t, Run) && !InPush(s.pcs[t]) && !InPop(s.pcs[t])
    ensures Closer(s.pcs[t], s, Apply(s, t, Run), t)
  {
  }

  lemma StepProgress(s: State, t: nat)
    requires Inv(s) && Enabled(s, t, Run)
    ensures Inv(Apply(s, t, Run)) && Closer(s.pcs[t], s, Apply(s, t, Run), t)
  {
    assert Next(s, Apply(s, t, Run));
    NextInv(s, Apply(s, t, Run));
    LoadsDecide(s, t);
    if InPush(s.pcs[t]) { PushProgress(s, t); } else if InPop(s.pcs[t]) { PopProgress(s, t); } else { SizeProgress(s, t); }
  }

  /** Wherever a call stands in a reachable state, it returns when its thread runs alone for at most 6 steps. */
  lemma {:induction false} ReturnsAlone(s: State, t: nat, n: nat)
    requires Inv(s) && t < |s.pcs| && !s.pcs[t].Idle? && StepsLeft(s.pcs[t], s.front, s.back) <= n
    ensures t < |Alone(s, t, n).pcs| && Returned(Alone(s, t, n).pcs[t])
    decreases n
  {
    if Enabled(s, t, Run) {
      StepProgress(s, t);
      StillBusy(s, t);
      ReturnsAlone(Apply(s, t, Run), t, n - 1);
    }
  }

  lemma StillBusy(s: State, t: nat)
    requires Enabled(s, t, Run)
    ensures t < |Apply(s, t, Run).pcs| && !Apply(s, t, Run).pcs[t].Idle?
  {
  }

  /** There is no room exactly if the slot of the front does not show the front's position. */
  lemma RoomShows(s: State, t: nat)
    requires Inv(s) && t < |s.pcs| && s.pcs[t].Idle?
    ensures NoRoom(s) <==> s.slots[Slot(s.front, s.cap)].state != s.front
  {
    SlotLap(s.back, s.cap);
    SlotLap(s.front - s.cap, s.cap);
    assert SlotAt(s, s.back);
    if s.slots[Slot(s.front, s.cap)].state != s.front {
      var push := At(s, t, PushRead(0, s.front));
      EndStates(s);
      Move(s, t, PushRead(0, s.front));
      RefusalReason(push, t);
      if |Queue(s)| != s.cap {
        var a :| 0 <= a < |s.pcs| && Draining(push.pcs[a]) && push.pcs[a].pos == s.front - s.cap;
        assert Draining(s.pcs[a]);
      }
    } else {
      forall a | 0 <= a < |s.pcs| ensures !(Draining(s.pcs[a]) && s.pcs[a].pos == s.front - s.cap) { assert AgentAt(s, a); }
    }
  }

  /** There is nothing exactly if the slot of the back does not show a task put there. */
  lemma TaskShows(s: State, t: nat)
    requires Inv(s) && t < |s.pcs| && s.pcs[t].Idle?
    ensures NothingThere(s) <==> s.slots[Slot(s.back, s.cap)].state != s.back + 1
  {
    SlotLap(s.back, s.cap);
    assert SlotAt(s, s.back);
    if s.slots[Slot(s.back, s.cap)].state != s.back + 1 {
      var pop := At(s, t, PopRead(s.back));
      EndStates(s);
      Move(s, t, PopRead(s.back));
      EmptyReason(pop, t);
      if Queue(s) != [] {
        var a :| 0 <= a < |s.pcs| && Filling(pop.pcs[a]) && pop.pcs[a].pos == s.back;
        assert Filling(s.pcs[a]);
      }
    } else {
      forall a | 0 <= a < |s.pcs| ensures !(Filling(s.pcs[a]) && s.pcs[a].pos == s.back) { assert AgentAt(s, a); }
    }
  }

  /** A push that starts alone reaches its compare-exchange with the current front and its sequence number. */
  lemma PushLooks(s: State, t: nat, task: Task)
    requires Inv(s) && t < |s.pcs| && s.pcs[t].Idle?
    ensures var s' := At(s, t, PushCas(task, s.front, s.slots[Slot(s.front, s.cap)].state));
            Inv(s') && Alone(Apply(s, t, CallPush(task)), t, 5) == Alone(s', t, 3)
  {
    var s1 := Apply(s, t, CallPush(task));
    assert Next(s, s1);
    NextInv(s, s1);
    AloneStep(s1, t, 5);
    var s2 := Apply(s1, t, Run);
    AloneStep(s2, t, 4);
    assert Apply(s2, t, Run) == At(s, t, PushCas(task, s.front, s.slots[Slot(s.front, s.cap)].state));
  }

  lemma PopLooks(s: State, t: nat)
    requires Inv(s) && t < |s.pcs| && s.pcs[t].Idle?
    ensures var s' := At(s, t, PopCas(s.back, s.slots[Slot(s.back, s.cap)].state));
            Inv(s') && Alone(Apply(s, t, CallPop), t, 5) == Alone(s', t, 3)
  {
    var s1 := Apply(s, t, CallPop);
    assert Next(s, s1);
    NextInv(s, s1);
    AloneStep(s1, t, 5);
    var s2 := Apply(s1, t, Run);
    AloneStep(s2, t, 4);
    assert Apply(s2, t, Run) == At(s, t, PopCas(s.back, s.slots[Slot(s.back, s.cap)].state));
  }

  /** A push that runs alone stores its task at the end if and only if there is room, and otherwise hands it
      back and leaves the queue as it was. */
  lemma PushAlone(s: State, t: nat, task: Task)
    requires Inv(s) && t < |s.pcs| && s.pcs[t].Idle?
    ensures var e := Alone(Apply(s, t, CallPush(task)), t, 5);
            && Inv(e) && t < |e.pcs|
            && e.pcs[t] == (if NoRoom(s) then Refused(task) else Pushed(task, s.front))
            && Queue(e) == (if NoRoom(s) then Queue(s) else Queue(s) + [task])
  {
    RoomShows(s, t);
    EndStates(s);
    PushLooks(s, t, task);
    var s3 := At(s, t, PushCas(task, s.front, s.slots[Slot(s.front, s.cap)].state));
    AloneStep(s3, t, 3);
    StepRefinesFifo(s3, t, Run);
    if !NoRoom(s) { StoreAlone(Apply(s3, t, Run), t, task, s.front); }
  }

  lemma StoreAlone(s: State, t: nat, task: Task, pos: nat)
    requires Inv(s) && t < |s.pcs| && s.pcs[t] == PushWrite(task, pos)
    ensures var e := Alone(s, t, 2);
            Inv(e) && t < |e.pcs| && e.pcs[t] == Pushed(task, pos) && Queue(e) == Queue(s)
  {
    AloneStep(s, t, 2);
    StepRefinesFifo(s, t, Run);
    var s' := Apply(s, t, Run);
    AloneStep(s', t, 1);
    StepRefinesFifo(s', t, Run);
  }

  lemma CasTakes(s: State, t: nat)
    requires Inv(s) && t < |s.pcs| && s.pcs[t] == PopCas(s.back, s.back + 1)
    ensures var s' := Apply(s, t, Run);
            && Inv(s') && t < |s'.pcs| && s'.pcs[t] == PopTake(s.back) && Alone(s, t, 3) == Alone(s', t, 2)
            && Queue(s) != [] && s.back < |s'.pushed| && Queue(s)[0] == s'.pushed[s.back] && Queue(s') == Queue(s)[1..]
  {
    AloneStep(s, t, 3);
    StepRefinesFifo(s, t, Run);
  }

  lemma CasGivesUp(s: State, t: nat, state: int)
    requires Inv(s) && t < |s.pcs| && s.pcs[t] == PopCas(s.back, state) && state < s.back + 1
    ensures var e := Alone(s, t, 3);
            Inv(e) && t < |e.pcs| && e.pcs[t] == FoundEmpty && Queue(e) == Queue(s)
  {
    AloneStep(s, t, 3);
    StepRefinesFifo(s, t, Run);
  }

  /** A pop that runs alone takes and returns the task at the head, unless nothing is there. */
  lemma PopAlone(s: State, t: nat)
    requires Inv(s) && t < |s.pcs| && s.pcs[t].Idle?
    ensures var e := Alone(Apply(s, t, CallPop), t, 5);
            && Inv(e) && t < |e.pcs|
            && (NothingThere(s) ==> e.pcs[t] == FoundEmpty && Queue(e) == Queue(s))
            && (!NothingThere(s) ==> Queue(s) != [] && e.pcs[t] == Popped(s.back, Queue(s)[0]) && Queue(e) == Queue(s)[1..])
  {
    TaskShows(s, t);
    EndStates(s);
    PopLooks(s, t);
    var state := s.slots[Slot(s.back, s.cap)].state;
    var s3 := At(s, t, PopCas(s.back, state));
    if NothingThere(s) {
      CasGivesUp(s3, t, state);
    } else {
      CasTakes(s3, t);
      TakeAlone(Apply(s3, t, Run), t, s.back);
    }
  }

  /** A pop that owns its slot returns what the push of that position stored. */
  lemma TakeAlone(s: State, t: nat, pos: nat)
    requires Inv(s) && t < |s.pcs| && s.pcs[t] == PopTake(pos)
    ensures var e := Alone(s, t, 2);
            Inv(e) && t < |e.pcs| && pos < |s.pushed| && e.pcs[t] == Popped(pos, s.pushed[pos]) && Queue(e) == Queue(s)
  {
    assert AgentAt(s, t);
    AloneStep(s, t, 2);
    StepRefinesFifo(s, t, Run);
    var s' := Apply(s, t, Run);
    AloneStep(s', t, 1);
    StepRefinesFifo(s', t, Run);
  }

  lemma SizeLooks(s: State, t: nat)
    requires Inv(s) && t < |s.pcs| && s.pcs[t].Idle?
    ensures var s' := At(s, t, SizeFront(s.front, s.back, s.front));
            Inv(s') && Alone(Apply(s, t, CallSize), t, 3) == Alone(s', t, 1)
  {
    var s1 := Apply(s, t, CallSize);
    assert Next(s, s1);
    NextInv(s, s1);
    AloneStep(s1, t, 3);
    var s2 := Apply(s1, t, Run);
    AloneStep(s2, t, 2);
    assert Apply(s2, t, Run) == At(s, t, SizeFront(s.front, s.back, s.front));
  }

  lemma SizeAnswers(s: State, t: nat)
    requires Inv(s) && t < |s.pcs| && s.pcs[t] == SizeFront(s.front, s.back, s.front)
    ensures var e := Alone(s, t, 1);
            Inv(e) && t < |e.pcs| && e.pcs[t].Sized? && e.pcs[t].size == |Queue(s)| && Queue(e) == Queue(s)
  {
    AloneStep(s, t, 1);
    StepRefinesFifo(s, t, Run);
  }

  /** Size, running alone, answers with the length of the queue. */
  lemma SizeAlone(s: State, t: nat)
    requires Inv(s) && t < |s.pcs| && s.pcs[t].Idle?
    ensures var e := Alone(Apply(s, t, CallSize), t, 3);
            Inv(e) && t < |e.pcs| && e.pcs[t].Sized? && e.pcs[t].size == |Queue(s)| && Queue(e) == Queue(s)
  {
    SizeLooks(s, t);
    SizeAnswers(At(s, t, SizeFront(s.front, s.back, s.front)), t);
  }

  /** A caller that has its answer is free to call again; returning changes nothing else. */
  lemma CallerIsFree(s: State, t: nat)
    requires Sane(s) && t < |s.pcs| && Returned(s.pcs[t])
    ensures Enabled(s, t, Return) && Apply(s, t, Return) == s.(pcs := s.pcs[t := Idle])
  {
  }
}
