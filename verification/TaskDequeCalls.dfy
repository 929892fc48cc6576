/**
 What each call of TaskDeque promises its caller: a refused push hands back the very task it was called
 with, a push that returns nothing has put it into the deque, a pop returns what it took from its end
 inside this call, and a call that runs alone gives the answer of a sequential deque.
 */
module TaskDequeCalls {
  import opened Ring
  import opened TaskDeque

  predicate TurnAt(run: seq<State>, acts: seq<Action>, i: nat)
    requires i < |acts| && i + 1 < |run|
  {
    Enabled(run[i], acts[i]) && run[i + 1] == Apply(run[i], acts[i])
  }

  /** A run together with what was done. */
  predicate IsHistory(run: seq<State>, acts: seq<Action>) {
    |run| == |acts| + 1 && Init(run[0]) && forall i :: 0 <= i < |acts| ==> TurnAt(run, acts, i)
  }

  lemma HistoryIsRun(run: seq<State>, acts: seq<Action>)
    requires IsHistory(run, acts)
    ensures IsRun(run)
  {
    forall i | 0 <= i < |run| - 1 ensures StepAt(run, i) { assert TurnAt(run, acts, i); }
  }

  // ------------------------------------------------------------ what a call carries

  /** The push at work has task x in hand: it may still store it, or hands it back. */
  predicate Carries(p: Pc, x: Task) {
    match p
    case PushLoad(task) => task == x
    case PushCheck(task, _) => task == x
    case PushCas(task, _) => task == x
    case Returned(r) => r == Refused(x)
    case _ => false
  }

  /** The push at work has put task x into the deque. */
  predicate HasStored(p: Pc, x: Task) {
    match p
    case PushStore(task, _) => task == x
    case PushWrite(task, _) => task == x
    case PushPublish(task, _) => task == x
    case _ => false
  }

  predicate Storing(p: Pc) { p.PushStore? || p.PushWrite? || p.PushPublish? || p == Returned(Stored) }

  /** The pop at work has claimed task x. */
  predicate HasClaimed(p: Pc, x: Task) {
    match p
    case PopTake(_, claimed) => claimed == x
    case PopClear(_, _, claimed) => claimed == x
    case PopStore(_, _, claimed) => claimed == x
    case Returned(r) => r == Got(x)
    case _ => false
  }

  predicate Begins(act: Action, end: End) { (act.CallPush? && act.end == end) || (act.CallPop? && act.end == end) }

  /** No call began at this end from moment i up to, but not at, moment j. */
  predicate OneCall(acts: seq<Action>, i: nat, j: nat, end: End)
    requires j <= |acts|
  {
    forall k :: i <= k < j ==> !Begins(acts[k], end)
  }

  lemma CarriesStep(s: State, act: Action, end: End, x: Task)
    requires Enabled(s, act) && Carries(PcOf(Apply(s, act), end), x)
    ensures act == CallPush(end, x) || (Carries(PcOf(s, end), x) && !Begins(act, end))
  {
  }

  /** The task that a push hands back, or is about to store, is the one it was called with. */
  lemma {:induction false} CarriesItsTask(run: seq<State>, acts: seq<Action>, i: nat, end: End, x: Task) returns (c: nat)
    requires IsHistory(run, acts) && i < |run| && Carries(PcOf(run[i], end), x)
    ensures c < i && acts[c] == CallPush(end, x) && OneCall(acts, c + 1, i, end)
  {
    assert i > 0;
    assert TurnAt(run, acts, i - 1);
    CarriesStep(run[i - 1], acts[i - 1], end, x);
    if acts[i - 1] == CallPush(end, x) {
      c := i - 1;
    } else {
      c := CarriesItsTask(run, acts, i - 1, end, x);
    }
  }

  /** A refused push is handed its own task back, and inside this call every slot was held. */
  lemma RefusedPush(run: seq<State>, acts: seq<Action>, i: nat, end: End, x: Task) returns (c: nat, j: nat)
    requires IsHistory(run, acts) && i < |run| && PcOf(run[i], end) == Returned(Refused(x))
    ensures c < j < i && acts[c] == CallPush(end, x) && OneCall(acts, c + 1, i, end)
    ensures |run[j].held| == run[j].cap
  {
    c := CarriesItsTask(run, acts, i, end, x);
    j := RefusedSince(run, acts, i, end, x);
    assert TurnAt(run, acts, c);
    assert PcOf(run[c], end).Idle?;
  }

  lemma {:induction false} RefusedSince(run: seq<State>, acts: seq<Action>, i: nat, end: End, x: Task) returns (j: nat)
    requires IsHistory(run, acts) && i < |run| && PcOf(run[i], end) == Returned(Refused(x))
    ensures j < i && |run[j].held| == run[j].cap
    ensures forall k :: j <= k < i ==> !PcOf(run[k], end).Idle?
  {
    assert i > 0;
    assert TurnAt(run, acts, i - 1);
    if PcOf(run[i - 1], end) == Returned(Refused(x)) {
      j := RefusedSince(run, acts, i - 1, end, x);
    } else {
      HistoryIsRun(run, acts);
      RefusedMeansFull(run, i - 1, end);
      j := i - 1;
    }
  }

  lemma StoringStep(s: State, act: Action, end: End)
    requires Enabled(s, act) && Storing(PcOf(Apply(s, act), end))
    ensures || (Storing(PcOf(s, end)) && !Begins(act, end)
                && forall x :: HasStored(PcOf(Apply(s, act), end), x) ==> HasStored(PcOf(s, end), x))
            || (act == Run(end) && WinsPush(s, end)
                && forall x :: HasStored(PcOf(Apply(s, act), end), x) ==> PcOf(s, end).task == x)
  {
  }

  /** A push that returns nothing has put the task it was called with at its end of the deque, by one step
      inside this call. */
  lemma {:induction false} StoredPush(run: seq<State>, acts: seq<Action>, i: nat, end: End) returns (c: nat, j: nat, x: Task)
    requires IsHistory(run, acts) && i < |run| && Storing(PcOf(run[i], end))
    ensures c < j < i && acts[c] == CallPush(end, x) && OneCall(acts, c + 1, i, end)
    ensures acts[j] == Run(end) && |Items(run[j])| < run[j].cap && Items(run[j + 1]) == Grown(Items(run[j]), end, x)
    ensures forall y :: HasStored(PcOf(run[i], end), y) ==> y == x
  {
    assert i > 0;
    assert TurnAt(run, acts, i - 1);
    var s, act := run[i - 1], acts[i - 1];
    StoringStep(s, act, end);
    if act == Run(end) && WinsPush(s, end) {
      j, x := i - 1, PcOf(s, end).task;
      c := CarriesItsTask(run, acts, i - 1, end, x);
      HistoryIsRun(run, acts);
      StepRefinesDeque(run, i - 1, act);
    } else {
      c, j, x := StoredPush(run, acts, i - 1, end);
    }
  }

  predicate InPop(p: Pc) {
    p.PopLoad? || p.PopCheck? || p.PopCas? || p.PopTake? || p.PopClear? || p.PopStore? || (p.Returned? && (p.r.Got? || p.r.Nothing?))
  }

  lemma InPopStep(s: State, act: Action, end: End)
    requires Enabled(s, act) && InPop(PcOf(Apply(s, act), end))
    ensures act == CallPop(end) || (InPop(PcOf(s, end)) && !Begins(act, end))
  {
  }

  lemma {:induction false} PopBegan(run: seq<State>, acts: seq<Action>, i: nat, end: End) returns (c: nat)
    requires IsHistory(run, acts) && i < |run| && InPop(PcOf(run[i], end))
    ensures c < i && acts[c] == CallPop(end) && OneCall(acts, c + 1, i, end)
    ensures forall k :: c < k <= i ==> InPop(PcOf(run[k], end))
  {
    assert i > 0;
    assert TurnAt(run, acts, i - 1);
    InPopStep(run[i - 1], acts[i - 1], end);
    if acts[i - 1] == CallPop(end) {
      c := i - 1;
    } else {
      c := PopBegan(run, acts, i - 1, end);
    }
  }

  lemma ClaimedStep(s: State, act: Action, end: End, x: Task)
    requires Inv(s) && Enabled(s, act) && HasClaimed(PcOf(Apply(s, act), end), x)
    ensures (HasClaimed(PcOf(s, end), x) && !Begins(act, end)) || (act == Run(end) && WinsPop(s, end))
  {
  }

  /** A pop that returns a task took it from its end of the deque, by one step inside this call. */
  lemma {:induction false} TakenByPop(run: seq<State>, acts: seq<Action>, i: nat, end: End, x: Task) returns (c: nat, j: nat)
    requires IsHistory(run, acts) && i < |run| && HasClaimed(PcOf(run[i], end), x)
    ensures c < j < i && acts[c] == CallPop(end) && OneCall(acts, c + 1, i, end)
    ensures acts[j] == Run(end) && Items(run[j]) != [] && x == EndItem(Items(run[j]), end)
    ensures Items(run[j + 1]) == Shrunk(Items(run[j]), end)
  {
    HistoryIsRun(run, acts);
    assert i > 0;
    assert TurnAt(run, acts, i - 1);
    var s, act := run[i - 1], acts[i - 1];
    RunInv(run, i - 1);
    ClaimedStep(s, act, end, x);
    if act == Run(end) && WinsPop(s, end) {
      j := i - 1;
      c := PopBegan(run, acts, i - 1, end);
      StepRefinesDeque(run, i - 1, act);
    } else {
      c, j := TakenByPop(run, acts, i - 1, end, x);
    }
  }

  /** Nothing is held, or only what the operation at the other end has in hand. */
  predicate NothingFor(s: State, end: End) {
    s.held == [] || (|s.held| == 1 && Claims(if end.Front? then s.bpc else s.fpc))
  }

  /** A pop that returns nothing found, inside this call, nothing to take; or its emptiness test said so. */
  lemma {:induction false} NothingPopped(run: seq<State>, acts: seq<Action>, i: nat, end: End) returns (j: nat)
    requires IsHistory(run, acts) && i < |run| && PcOf(run[i], end) == Returned(Nothing)
    ensures j < i && OneCall(acts, j, i, end) && InPop(PcOf(run[j], end))
    ensures (acts[j] == SeeEmpty && end == Back) || NothingFor(run[j], end)
  {
    assert i > 0;
    assert TurnAt(run, acts, i - 1);
    InPopStep(run[i - 1], acts[i - 1], end);
    if PcOf(run[i - 1], end) == Returned(Nothing) {
      j := NothingPopped(run, acts, i - 1, end);
    } else {
      j := i - 1;
      HistoryIsRun(run, acts);
      if acts[i - 1] == Run(end) { NothingMeansEmpty(run, i - 1, end); }
    }
  }

  // ------------------------------------------------------------ a call that runs alone

  /** The state after at most n steps at this end alone, stopping when the call has returned. */
  function Alone(s: State, end: End, n: nat): State
    decreases n
  {
    if n == 0 || !Enabled(s, Run(end)) then s else Alone(Apply(s, Run(end)), end, n - 1)
  }

  lemma AloneStep(s: State, end: End, n: nat)
    requires n > 0 && Inv(s) && Enabled(s, Run(end))
    ensures Inv(Apply(s, Run(end))) && Alone(s, end, n) == Alone(Apply(s, Run(end)), end, n - 1)
    ensures DequeStep(s, Run(end), Apply(s, Run(end)))
  {
    ApplyInv(s, Run(end));
    StateRefinesDeque(s, Run(end));
  }

  lemma AloneStops(s: State, end: End, n: nat)
    requires PcOf(s, end).Returned?
    ensures Alone(s, end, n) == s
  {
  }

  /** A push whose slot is its own finishes and has stored its task. */
  lemma StoreAlone(s: State, end: End, task: Task, pos: int)
    requires Inv(s) && PcOf(s, end) == PushStore(task, pos)
    ensures var e := Alone(s, end, 3); Inv(e) && PcOf(e, end) == Returned(Stored) && Items(e) == Items(s)
  {
    AloneStep(s, end, 3);
    WriteAlone(Apply(s, Run(end)), end);
  }

  lemma WriteAlone(s: State, end: End)
    requires Inv(s) && PcOf(s, end).PushWrite?
    ensures var e := Alone(s, end, 2); Inv(e) && PcOf(e, end) == Returned(Stored) && Items(e) == Items(s)
  {
    AloneStep(s, end, 2);
    var s' := Apply(s, Run(end));
    AloneStep(s', end, 1);
  }

  lemma SlotForPush(s: State, end: End)
    requires Inv(s) && PcOf(s, end).Idle?
    ensures s.slots[Slot(PushPos(s, end), s.cap)].mark.Empty? <==> |s.held| < s.cap
  {
    if end.Front? { FrontPushes(s); } else { BackPushes(s); }
  }

  /** A call reads its word first: one step, and nothing shared changes. */
  lemma PushLooks(s: State, end: End, task: Task)
    requires Inv(s) && PcOf(s, end).Idle?
    ensures var s' := At(s, end, PushCheck(task, PushPos(s, end)));
            Inv(s') && Items(s') == Items(s) && Alone(Apply(s, CallPush(end, task)), end, 6) == Alone(s', end, 5)
  {
    ApplyInv(s, CallPush(end, task));
    StateRefinesDeque(s, CallPush(end, task));
    var s1 := Apply(s, CallPush(end, task));
    AloneStep(s1, end, 6);
    assert Apply(s1, Run(end)) == At(s, end, PushCheck(task, PushPos(s, end)));
  }

  lemma PopLooks(s: State, end: End)
    requires Inv(s) && PcOf(s, end).Idle?
    ensures var s' := At(s, end, PopCheck(PopPos(s, end)));
            Inv(s') && Items(s') == Items(s) && Alone(Apply(s, CallPop(end)), end, 6) == Alone(s', end, 5)
  {
    ApplyInv(s, CallPop(end));
    StateRefinesDeque(s, CallPop(end));
    var s1 := Apply(s, CallPop(end));
    AloneStep(s1, end, 6);
    assert Apply(s1, Run(end)) == At(s, end, PopCheck(PopPos(s, end)));
  }

  lemma PushRefused(s: State, end: End, task: Task, pos: int)
    requires Inv(s) && PcOf(s, end) == PushCheck(task, pos) && !s.slots[Slot(pos, s.cap)].mark.Empty?
    ensures var e := Alone(s, end, 5); Inv(e) && PcOf(e, end) == Returned(Refused(task)) && Items(e) == Items(s)
  {
    AloneStep(s, end, 5);
    AloneStops(Apply(s, Run(end)), end, 4);
  }

  lemma PushStores(s: State, end: End, task: Task, pos: int)
    requires Inv(s) && PcOf(s, end) == PushCheck(task, pos) && s.slots[Slot(pos, s.cap)].mark.Empty?
    ensures var e := Alone(s, end, 5); Inv(e) && PcOf(e, end) == Returned(Stored) && Items(e) == Grown(Items(s), end, task)
  {
    AloneStep(s, end, 5);
    var s1 := Apply(s, Run(end));
    assert s1 == At(s, end, PushCas(task, pos));
    AloneStep(s1, end, 4);
    assert WinsPush(s1, end);
    StoreAlone(Apply(s1, Run(end)), end, task, pos);
  }

  lemma PopGivesUp(s: State, end: End, pos: int)
    requires Inv(s) && PcOf(s, end) == PopCheck(pos) && !s.slots[Slot(pos, s.cap)].mark.Ready?
    ensures var e := Alone(s, end, 5); Inv(e) && PcOf(e, end) == Returned(Nothing) && Items(e) == Items(s)
  {
    AloneStep(s, end, 5);
    AloneStops(Apply(s, Run(end)), end, 4);
  }

  lemma PopTakes(s: State, end: End, pos: int)
    requires Inv(s) && PcOf(s, end) == PopCheck(pos) && s.slots[Slot(pos, s.cap)].mark.Ready?
    ensures var e := Alone(s, end, 5);
            && Inv(e) && Items(s) != [] && PcOf(e, end) == Returned(Got(EndItem(Items(s), end)))
            && Items(e) == Shrunk(Items(s), end)
  {
    AloneStep(s, end, 5);
    var s1 := Apply(s, Run(end));
    assert s1 == At(s, end, PopCas(pos));
    AloneStep(s1, end, 4);
    assert WinsPop(s1, end);
    TakeAlone(Apply(s1, Run(end)), end, pos, EndItem(Items(s), end));
  }

  /** A push that runs alone, whatever the operation at the other end is in the middle of, stores its task at
      its end if and only if some slot is free; otherwise it hands it back and changes nothing. */
  lemma PushAlone(s: State, end: End, task: Task)
    requires Inv(s) && PcOf(s, end).Idle?
    ensures var e := Alone(Apply(s, CallPush(end, task)), end, 6);
            && Inv(e) && PcOf(e, end) == Returned(if |s.held| < s.cap then Stored else Refused(task))
            && Items(e) == if |s.held| < s.cap then Grown(Items(s), end, task) else Items(s)
  {
    SlotForPush(s, end);
    PushLooks(s, end, task);
    var s' := At(s, end, PushCheck(task, PushPos(s, end)));
    if |s.held| < s.cap { PushStores(s', end, task, PushPos(s, end)); } else { PushRefused(s', end, task, PushPos(s, end)); }
  }

  /** A pop that has claimed its task finishes and returns it. */
  lemma TakeAlone(s: State, end: End, pos: int, claimed: Task)
    requires Inv(s) && PcOf(s, end) == PopTake(pos, claimed)
    ensures var e := Alone(s, end, 3); Inv(e) && PcOf(e, end) == Returned(Got(claimed)) && Items(e) == Items(s)
  {
    AloneStep(s, end, 3);
    ClearAlone(Apply(s, Run(end)), end, claimed);
  }

  lemma ClearAlone(s: State, end: End, claimed: Task)
    requires Inv(s) && PcOf(s, end).PopClear? && PcOf(s, end).claimed == claimed
    ensures var e := Alone(s, end, 2); Inv(e) && PcOf(e, end) == Returned(Got(claimed)) && Items(e) == Items(s)
  {
    AloneStep(s, end, 2);
    var s' := Apply(s, Run(end));
    AloneStep(s', end, 1);
  }

  lemma SlotForPop(s: State, end: End)
    requires Inv(s) && PcOf(s, end).Idle?
    ensures s.slots[Slot(PopPos(s, end), s.cap)].mark.Ready? <==> !NothingFor(s, end)
  {
    FrontCell(s);
    BackCell(s);
  }

  /** A pop that runs alone takes and returns the task at its end, unless there is nothing for it. */
  lemma PopAlone(s: State, end: End)
    requires Inv(s) && PcOf(s, end).Idle?
    ensures var e := Alone(Apply(s, CallPop(end)), end, 6);
            && Inv(e)
            && (NothingFor(s, end) ==> PcOf(e, end) == Returned(Nothing) && Items(e) == Items(s))
            && (!NothingFor(s, end) ==>
                  Items(s) != [] && PcOf(e, end) == Returned(Got(EndItem(Items(s), end))) && Items(e) == Shrunk(Items(s), end))
  {
    SlotForPop(s, end);
    PopLooks(s, end);
    var s' := At(s, end, PopCheck(PopPos(s, end)));
    if NothingFor(s, end) { PopGivesUp(s', end, PopPos(s, end)); } else { PopTakes(s', end, PopPos(s, end)); }
  }

  /** The steps an operation has before it; no branch of it leads back. */
  function StepsLeft(p: Pc): nat {
    match p
    case Idle => 0
    case PushLoad(_) => 6
    case PushCheck(_, _) => 5
    case PushCas(_, _) => 4
    case PushStore(_, _) => 3
    case PushWrite(_, _) => 2
    case PushPublish(_, _) => 1
    case PopLoad => 6
    case PopCheck(_) => 5
    case PopCas(_) => 4
    case PopTake(_, _) => 3
    case PopClear(_, _, _) => 2
    case PopStore(_, _, _) => 1
    case Returned(_) => 0
  }

  /** In every reachable state the operation at either end can go on, and its own next step brings it closer
      to its return, whatever the other end does in between. */
  lemma CallsReturn(run: seq<State>, i: nat, end: End)
    requires IsRun(run) && i < |run| && !PcOf(run[i], end).Idle? && !PcOf(run[i], end).Returned?
    ensures Enabled(run[i], Run(end))
    ensures StepsLeft(PcOf(Apply(run[i], Run(end)), end)) < StepsLeft(PcOf(run[i], end))
    ensures PcOf(Apply(run[i], Run(end)), if end.Front? then Back else Front) == PcOf(run[i], if end.Front? then Back else Front)
    ensures !PcOf(Apply(run[i], Run(end)), end).Idle?
  {
    RunInv(run, i);
  }

  /** A pop at the back whose emptiness test says yes returns nothing and changes nothing. */
  lemma EmptyTestReturns(s: State)
    requires Enabled(s, SeeEmpty)
    ensures Apply(s, SeeEmpty) == s.(bpc := Returned(Nothing)) && InPop(s.bpc)
  {
  }

  /** A caller that has its answer is free to call again; returning changes nothing else. */
  lemma CallerIsFree(s: State, end: End)
    requires Sane(s) && PcOf(s, end).Returned?
    ensures Enabled(s, Return(end)) && Apply(s, Return(end)) == if end.Front? then s.(fpc := Idle) else s.(bpc := Idle)
  {
  }
}
