/**
 The slot of one register (async/runtime/graph.cpp): any number of threads read it with
 GetOrCreateAsyncValuePtr while one thread fills it with SetAsyncValuePtr.  A reader that finds
 it empty races to install a placeholder; if a placeholder is there first, the result is forwarded
 through it.  Every load, reference count update and compare-exchange is one step.
 */
module RegisterSlot {
  import opened Counting

  datatype Ptr = Null | Result | Placeholder(owner: nat)

  datatype Getter =
    | Load
    | Create              // found the slot empty
    | Cas                 // made a placeholder with uses + 1 references
    | Discard(p: Ptr)     // lost the race to p
    | Got(p: Ptr)

  datatype Setter =
    | AddRefs
    | Install
    | DropExtra(p: nat)   // lost to the placeholder of p
    | Forward(p: nat)
    | Finished

  /** resultRefs: references this register accounts for on the result, one of them handed in.
      refs[t], forwards[t]: of the placeholder of thread t. */
  datatype State = State(slot: Ptr, resultRefs: int, refs: seq<int>, forwards: seq<nat>,
                         getters: seq<Getter>, setter: Setter)

  datatype Action = Get(t: nat) | Set

  /** Extra references taken on the result: one per use, less the one handed in. */
  function Extra(uses: nat): nat { if uses != 0 then uses - 1 else 0 }

  predicate Sized(s: State) { |s.refs| == |s.forwards| == |s.getters| }

  predicate Enabled(s: State, act: Action) {
    && Sized(s)
    && match act
       case Get(t) => t < |s.getters| && !s.getters[t].Got?
       case Set => !s.setter.Finished? && (s.setter.Forward? ==> s.setter.p < |s.forwards|)
  }

  function RunGet(uses: nat, s: State, t: nat): State
    requires Enabled(s, Get(t))
  {
    match s.getters[t]
    case Load => if s.slot != Null then s.(getters := s.getters[t := Got(s.slot)]) else s.(getters := s.getters[t := Create])
    case Create => s.(getters := s.getters[t := Cas], refs := s.refs[t := 1 + uses])
    case Cas =>
      if s.slot == Null then s.(getters := s.getters[t := Got(Placeholder(t))], slot := Placeholder(t))
      else s.(getters := s.getters[t := Discard(s.slot)])
    case Discard(p) => s.(getters := s.getters[t := Got(p)], refs := s.refs[t := s.refs[t] - (uses + 1)])
  }

  function RunSet(uses: nat, s: State): State
    requires Enabled(s, Set)
  {
    match s.setter
    case AddRefs => s.(setter := Install, resultRefs := s.resultRefs + Extra(uses))
    case Install =>
      if s.slot == Null then s.(setter := Finished, slot := Result)
      else s.(setter := if s.slot.Placeholder? then DropExtra(s.slot.owner) else Finished)
    case DropExtra(p) => s.(setter := Forward(p), resultRefs := s.resultRefs - Extra(uses))
    case Forward(p) => s.(setter := Finished, forwards := s.forwards[p := s.forwards[p] + 1])
  }

  ghost predicate Next(uses: nat, s: State, s': State) {
    || (Enabled(s, Set) && s' == RunSet(uses, s))
    || exists t :: Enabled(s, Get(t)) && s' == RunGet(uses, s, t)
  }

  predicate Init(s: State) {
    && Sized(s) && s.slot == Null && s.resultRefs == 1 && s.setter == AddRefs
    && forall t :: 0 <= t < |s.getters| ==> s.getters[t] == Load && s.refs[t] == 0 && s.forwards[t] == 0
  }

  // ------------------------------------------------------------ what every step keeps

  /** The placeholder of t is in the slot with uses + 1 references, or nobody else has seen it. */
  predicate GetterFits(uses: nat, slot: Ptr, t: nat, g: Getter, refs: int) {
    && (g.Load? || g.Create? ==> refs == 0)
    && (g.Cas? || g.Discard? ==> refs == uses + 1)
    && (!g.Got? ==> slot != Placeholder(t))
    && (g.Discard? || g.Got? ==> g.p == slot && slot != Null)
    && (g.Got? ==> refs == if slot == Placeholder(t) then uses + 1 else 0)
  }

  /** Only the placeholder in the slot is ever forwarded, once. */
  predicate ForwardsFit(slot: Ptr, setter: Setter, t: nat, forwards: nat) {
    forwards == if slot == Placeholder(t) && setter.Finished? then 1 else 0
  }

  predicate SetterFits(uses: nat, slot: Ptr, setter: Setter, refs: int, n: nat) {
    && (slot.Placeholder? ==> slot.owner < n)
    && (setter.AddRefs? ==> refs == 1)
    && (setter.Install? || setter.DropExtra? ==> refs == 1 + Extra(uses))
    && (setter.AddRefs? || setter.Install? ==> slot != Result)
    && (setter.DropExtra? || setter.Forward? ==> slot == Placeholder(setter.p))
    && (setter.Forward? ==> refs == 1)
    && (setter.Finished? ==> slot != Null && refs == if slot == Result then 1 + Extra(uses) else 1)
  }

  predicate SlotAt(uses: nat, s: State, t: nat)
    requires Sized(s) && t < |s.getters|
  {
    GetterFits(uses, s.slot, t, s.getters[t], s.refs[t]) && ForwardsFit(s.slot, s.setter, t, s.forwards[t])
  }

  predicate Inv(uses: nat, s: State) {
    && Sized(s) && SetterFits(uses, s.slot, s.setter, s.resultRefs, |s.getters|)
    && forall t :: 0 <= t < |s.getters| ==> SlotAt(uses, s, t)
  }

  lemma GetInv(uses: nat, s: State, t: nat)
    requires Inv(uses, s) && Enabled(s, Get(t))
    ensures Inv(uses, RunGet(uses, s, t))
    ensures s.slot != Null ==> RunGet(uses, s, t).slot == s.slot
  {
    var s' := RunGet(uses, s, t);
    assert SlotAt(uses, s, t);
    forall u | 0 <= u < |s'.getters| ensures SlotAt(uses, s', u) {
      assert SlotAt(uses, s, u);
    }
  }

  lemma SetInv(uses: nat, s: State)
    requires Inv(uses, s) && Enabled(s, Set)
    ensures Inv(uses, RunSet(uses, s))
    ensures s.slot != Null ==> RunSet(uses, s).slot == s.slot
  {
    var s' := RunSet(uses, s);
    forall u | 0 <= u < |s'.getters| ensures SlotAt(uses, s', u) {
      assert SlotAt(uses, s, u);
    }
  }

  ghost predicate StepAt(uses: nat, run: seq<State>, i: nat)
    requires i + 1 < |run|
  {
    Next(uses, run[i], run[i + 1])
  }

  ghost predicate IsRun(uses: nat, run: seq<State>) {
    |run| > 0 && Init(run[0]) && forall i :: 0 <= i < |run| - 1 ==> StepAt(uses, run, i)
  }

  lemma {:induction false} RunInv(uses: nat, run: seq<State>, i: nat, j: nat)
    requires IsRun(uses, run) && i <= j < |run|
    ensures Inv(uses, run[j]) && (run[i].slot != Null ==> run[j].slot == run[i].slot)
    decreases j
  {
    if j > 0 {
      assert StepAt(uses, run, j - 1);
      RunInv(uses, run, if i < j then i else j - 1, j - 1);
      var s := run[j - 1];
      if Enabled(s, Set) && run[j] == RunSet(uses, s) {
        SetInv(uses, s);
      } else {
        var t :| Enabled(s, Get(t)) && run[j] == RunGet(uses, s, t);
        GetInv(uses, s, t);
      }
    } else {
      forall t | 0 <= t < |run[0].getters| ensures SlotAt(uses, run[0], t) {}
    }
  }

  // ------------------------------------------------------------ what readers and owners can rely on

  /** Whoever reads the slot, whenever they are done, gets the one pointer that stays in it. */
  lemma ReadersAgree(uses: nat, run: seq<State>, i: nat, j: nat, t: nat, u: nat)
    requires IsRun(uses, run) && i <= j < |run|
    requires t < |run[i].getters| && u < |run[j].getters| && run[i].getters[t].Got? && run[j].getters[u].Got?
    ensures run[i].getters[t].p == run[j].getters[u].p == run[j].slot != Null
  {
    RunInv(uses, run, i, j);
    RunInv(uses, run, i, i);
    assert SlotAt(uses, run[i], t) && SlotAt(uses, run[j], u);
  }

  /** A reader that comes when the slot is filled takes what it finds and makes no placeholder. */
  lemma {:induction false} LateReadersTake(uses: nat, run: seq<State>, i: nat, j: nat, t: nat)
    requires IsRun(uses, run) && i <= j < |run| && t < |run[i].getters| && run[i].slot != Null && run[i].getters[t].Load?
    ensures Sized(run[j]) && t < |run[j].getters| && run[j].refs[t] == 0
    ensures run[j].getters[t] == Load || run[j].getters[t] == Got(run[i].slot)
  {
    RunInv(uses, run, i, i);
    if i < j {
      LateReadersTake(uses, run, i, j - 1, t);
      RunInv(uses, run, i, j - 1);
      assert StepAt(uses, run, j - 1);
    } else {
      assert SlotAt(uses, run[i], t);
    }
  }

  /** What the register owns when everybody is done: if the result went in directly, a reference on
      it per use, or one when nobody uses it; if it went through a placeholder, uses + 1 on the
      placeholder, which alone was forwarded, once, and holds one on the result.  Losing
      placeholders are gone. */
  lemma SlotOwnership(uses: nat, run: seq<State>, i: nat)
    requires IsRun(uses, run) && i < |run| && run[i].setter.Finished?
    requires forall t :: 0 <= t < |run[i].getters| ==> run[i].getters[t].Got?
    ensures Sized(run[i])
    ensures run[i].slot.Result? || (run[i].slot.Placeholder? && run[i].slot.owner < |run[i].getters|)
    ensures run[i].slot.Result? ==> run[i].resultRefs == if uses == 0 then 1 else uses
    ensures run[i].slot.Placeholder? ==> run[i].resultRefs == 1
    ensures forall t :: 0 <= t < |run[i].getters| ==>
              if run[i].slot == Placeholder(t) then run[i].refs[t] == uses + 1 && run[i].forwards[t] == 1
              else run[i].refs[t] == 0 && run[i].forwards[t] == 0
  {
    RunInv(uses, run, i, i);
    forall t | 0 <= t < |run[i].getters|
      ensures if run[i].slot == Placeholder(t) then run[i].refs[t] == uses + 1 && run[i].forwards[t] == 1
              else run[i].refs[t] == 0 && run[i].forwards[t] == 0
    {
      assert SlotAt(uses, run[i], t);
    }
  }

  /** References on what the slot holds. */
  function Owned(s: State): int {
    match s.slot
    case Null => 0
    case Result => s.resultRefs
    case Placeholder(t) => if t < |s.refs| then s.refs[t] else 0
  }

  /** What the uses of the register and the caller will drop. */
  function Due(uses: nat): nat { if uses == 0 then 1 else uses }

  /** Step k of the run is the compare-exchange of reader t on the empty slot, which succeeds. */
  predicate PlaceholderWins(uses: nat, run: seq<State>, k: nat, t: nat)
    requires k + 1 < |run|
  {
    && Enabled(run[k], Get(t)) && run[k].getters[t].Cas? && run[k].slot == Null
    && run[k + 1] == RunGet(uses, run[k], t)
  }

  ghost predicate PlaceholderWon(uses: nat, run: seq<State>, i: nat)
    requires i < |run|
  {
    exists k: nat, t: nat :: k < i && PlaceholderWins(uses, run, k, t)
  }

  lemma PlaceholderStep(uses: nat, run: seq<State>, k: nat)
    requires k + 1 < |run| && Next(uses, run[k], run[k + 1]) && run[k].slot == Null && run[k + 1].slot.Placeholder?
    ensures exists t: nat :: PlaceholderWins(uses, run, k, t)
  {
    if !(Enabled(run[k], Set) && run[k + 1] == RunSet(uses, run[k])) {
      var t: nat :| Enabled(run[k], Get(t)) && run[k + 1] == RunGet(uses, run[k], t);
      assert PlaceholderWins(uses, run, k, t);
    }
  }

  /** A placeholder is in the slot exactly if some reader won the race for it. */
  lemma {:induction false} PlaceholderFromRace(uses: nat, run: seq<State>, i: nat)
    requires IsRun(uses, run) && i < |run|
    ensures run[i].slot.Placeholder? <==> PlaceholderWon(uses, run, i)
  {
    if run[i].slot.Placeholder? && i > 0 {
      assert StepAt(uses, run, i - 1);
      RunInv(uses, run, i - 1, i);
      if run[i - 1].slot == Null { PlaceholderStep(uses, run, i - 1); } else { PlaceholderFromRace(uses, run, i - 1); }
    }
    if PlaceholderWon(uses, run, i) {
      var k: nat, t: nat :| k < i && PlaceholderWins(uses, run, k, t);
      RunInv(uses, run, k + 1, i);
    }
  }

  /** Once the register is filled it owns exactly what is due, whoever is still reading, if and only
      if nobody uses it or no reader's compare-exchange succeeded on the empty slot.  Otherwise the
      placeholder keeps one reference too many. */
  lemma OwnershipExact(uses: nat, run: seq<State>, i: nat)
    requires IsRun(uses, run) && i < |run| && run[i].setter.Finished?
    ensures Owned(run[i]) == Due(uses) <==> uses == 0 || !PlaceholderWon(uses, run, i)
    ensures Owned(run[i]) == Due(uses) || Owned(run[i]) == Due(uses) + 1
  {
    PlaceholderFromRace(uses, run, i);
    RunInv(uses, run, i, i);
    if run[i].slot.Placeholder? { assert SlotAt(uses, run[i], run[i].slot.owner); }
  }

  /** If no reader looks at the register before it is filled, its count is exact ever after: the
      executor reads a register with uses only then. */
  lemma FilledBeforeRead(uses: nat, run: seq<State>, i: nat)
    requires IsRun(uses, run) && i < |run| && run[i].setter.Finished?
    requires forall k, t :: 0 <= k <= i && !run[k].setter.Finished? && 0 <= t < |run[k].getters| ==> run[k].getters[t].Load?
    ensures run[i].slot == Result && Owned(run[i]) == Due(uses)
  {
    OwnershipExact(uses, run, i);
    if PlaceholderWon(uses, run, i) {
      var k: nat, t: nat :| k < i && PlaceholderWins(uses, run, k, t);
      RunInv(uses, run, k, k);
    }
    PlaceholderFromRace(uses, run, i);
    RunInv(uses, run, i, i);
  }

  /** The race can be lost: one use, one reader that is faster than the setter, and in the end two
      references where one will be dropped. */
  lemma EarlyReaderLeaks() returns (run: seq<State>)
    ensures IsRun(1, run) && run[|run| - 1].setter.Finished? && run[|run| - 1].getters == [Got(Placeholder(0))]
    ensures Owned(run[|run| - 1]) == 2 && Due(1) == 1
  {
    var s0 := State(Null, 1, [0], [0], [Load], AddRefs);
    var s1 := RunGet(1, s0, 0);
    var s2 := RunGet(1, s1, 0);
    var s3 := RunGet(1, s2, 0);
    var s4 := RunSet(1, s3);
    var s5 := RunSet(1, s4);
    var s6 := RunSet(1, s5);
    var s7 := RunSet(1, s6);
    run := [s0, s1, s2, s3, s4, s5, s6, s7];
    assert Enabled(s0, Get(0)) && Enabled(s1, Get(0)) && Enabled(s2, Get(0));
    forall i | 0 <= i < |run| - 1 ensures StepAt(1, run, i) {
      assert Next(1, s0, s1) && Next(1, s1, s2) && Next(1, s2, s3) && Next(1, s3, s4);
      assert Next(1, s4, s5) && Next(1, s5, s6) && Next(1, s6, s7);
    }
  }

  // ------------------------------------------------------------ everybody finishes

  function GetterWork(g: Getter): nat {
    match g
    case Load => 4
    case Create => 3
    case Cas => 2
    case Discard(_) => 1
    case Got(_) => 0
  }

  function SetterWork(p: Setter): nat {
    match p
    case AddRefs => 4
    case Install => 3
    case DropExtra(_) => 2
    case Forward(_) => 1
    case Finished => 0
  }

  function GettersWork(getters: seq<Getter>): seq<nat> {
    seq(|getters|, t requires 0 <= t < |getters| => GetterWork(getters[t]))
  }

  function Work(s: State): nat { Total(GettersWork(s.getters)) + SetterWork(s.setter) }

  lemma StepWorks(uses: nat, s: State, s': State)
    requires Next(uses, s, s')
    ensures Work(s') < Work(s)
  {
    if !(Enabled(s, Set) && s' == RunSet(uses, s)) {
      var t: nat :| Enabled(s, Get(t)) && s' == RunGet(uses, s, t);
      GetWorks(uses, s, t);
    }
  }

  lemma GetWorks(uses: nat, s: State, t: nat)
    requires Enabled(s, Get(t))
    ensures Work(RunGet(uses, s, t)) < Work(s)
  {
    var s' := RunGet(uses, s, t);
    TotalUpdate(GettersWork(s.getters), t, GetterWork(s'.getters[t]));
    assert GettersWork(s'.getters) == GettersWork(s.getters)[t := GetterWork(s'.getters[t])];
  }

  ghost predicate AllDone(s: State) {
    s.setter.Finished? && forall t :: 0 <= t < |s.getters| ==> s.getters[t].Got?
  }

  lemma OneMore(uses: nat, run: seq<State>) returns (more: bool, longer: seq<State>)
    requires IsRun(uses, run)
    ensures more ==> IsRun(uses, longer) && run <= longer && |longer| == |run| + 1 && Work(longer[|run|]) < Work(run[|run| - 1])
    ensures !more ==> AllDone(run[|run| - 1])
  {
    var s, s' := run[|run| - 1], run[|run| - 1];
    RunInv(uses, run, |run| - 1, |run| - 1);
    more := true;
    if !s.setter.Finished? {
      assert Enabled(s, Set);
      s' := RunSet(uses, s);
    } else if t :| 0 <= t < |s.getters| && !s.getters[t].Got? {
      assert Enabled(s, Get(t));
      s' := RunGet(uses, s, t);
    } else {
      more := false;
    }
    longer := run + [s'];
    if more {
      StepWorks(uses, s, s');
      forall i | 0 <= i < |longer| - 1 ensures StepAt(uses, longer, i) {
        if i < |run| - 1 { assert StepAt(uses, run, i); }
      }
    }
  }

  /** Every step brings its run closer to its end: every run can be continued until the register is filled
      and every reader has its pointer, all of them the same one. */
  lemma {:induction false} EverybodyFinishes(uses: nat, run: seq<State>) returns (full: seq<State>)
    requires IsRun(uses, run)
    ensures IsRun(uses, full) && run <= full && AllDone(full[|full| - 1])
    ensures var e := full[|full| - 1]; forall t :: 0 <= t < |e.getters| ==> e.getters[t] == Got(e.slot)
    decreases Work(run[|run| - 1])
  {
    var more, longer := OneMore(uses, run);
    if more {
      full := EverybodyFinishes(uses, longer);
    } else {
      full := run;
      var s := run[|run| - 1];
      forall t | 0 <= t < |s.getters| ensures s.getters[t] == Got(s.slot) {
        ReadersAgree(uses, run, |run| - 1, |run| - 1, t, t);
      }
    }
  }
}
