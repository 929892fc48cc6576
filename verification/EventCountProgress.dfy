/**
 Every call on an EventCount finishes when its thread runs alone, unless it is parked and nobody has
 signalled it: there is no reachable state in which a compare-exchange can only be retried.
 */
module EventCountProgress {
  import opened EventCount
  import opened EventCountInvariant

  /** Nothing to do before somebody else acts or the thread itself calls. */
  predicate Rests(p: Pc) { p.Idle? || p.Prewaiting? || p.Asleep? }

  /** A bound on the steps t takes alone before it rests; a stale word costs one more round of the loop. */
  function StepsAlone(p: Pc, word: Word, stack: nat, owed: nat): nat {
    match p
    case Idle => 0
    case Prewaiting => 0
    case Asleep => 0
    case Parking => 1
    case PrewaitStart => 2
    case PrewaitCas(w) => if w == word then 1 else 2
    case CancelStart => 2
    case CancelCas(w) => if w == word then 1 else 2
    case CommitStart => 5
    case CommitLoad => 4
    case CommitStore(w) => if w == word then 3 else 5
    case CommitCas(w) => if w == word then 2 else 4
    case NotifyStart(_, _) => 3 * stack + 7
    case NotifyDecide(_, _, w) => if w == word then 3 * stack + 6 else 3 * stack + 8
    case NotifyCas(_, _, w, _) => if w == word then 3 * stack + 5 else 3 * stack + 7
    case Detached(_) => 4
    case Unpark(_) => 3 * owed
    case UnparkLock(_, _) => 3 * owed - if owed > 0 then 1 else 0
    case UnparkWake(_, _) => 3 * owed + 1
  }

  function StepsLeft(s: State, t: nat): nat
    requires t < |s.pcs| == |s.owed|
  {
    StepsAlone(s.pcs[t], s.word, |s.stack|, |s.owed[t]|)
  }

  lemma CommitProgress(s: State, t: nat, s': State)
    requires t < |s.pcs| && (Committing(s.pcs[t]) || s.pcs[t].Parking?)
    requires Enabled(s, t, Run(false)) && s' == Apply(s, t, Run(false)) && t < |s'.pcs| == |s'.owed|
    ensures StepsLeft(s', t) < StepsLeft(s, t)
  {
  }

  lemma WorkerProgress(s: State, t: nat, s': State)
    requires t < |s.pcs| && !Rests(s.pcs[t]) && !Notifying(s.pcs[t])
    requires !Committing(s.pcs[t]) && !s.pcs[t].Parking?
    requires Enabled(s, t, Run(false)) && s' == Apply(s, t, Run(false)) && t < |s'.pcs| == |s'.owed|
    ensures StepsLeft(s', t) < StepsLeft(s, t)
  {
  }

  lemma NotifierProgress(s: State, t: nat, s': State)
    requires t < |s.pcs| && Trying(s.pcs[t]) && !s.pcs[t].NotifyCas?
    requires Enabled(s, t, Run(false)) && s' == Apply(s, t, Run(false)) && t < |s'.pcs| == |s'.owed|
    ensures StepsLeft(s', t) < StepsLeft(s, t)
  {
  }

  lemma CasProgress(s: State, t: nat, s': State)
    requires t < |s.pcs| && s.pcs[t].NotifyCas? && Enabled(s, t, Run(false))
    requires s' == RunNotifyCas(s, t, s.pcs[t].all, s.pcs[t].armed, s.pcs[t].s, s.pcs[t].next, false)
    requires t < |s'.pcs| == |s'.owed|
    ensures StepsLeft(s', t) < StepsLeft(s, t)
  {
  }

  lemma UnparkProgress(s: State, t: nat, s': State)
    requires Inv(s) && t < |s.pcs| && (s.pcs[t].Unpark? || s.pcs[t].Detached?)
    requires Enabled(s, t, Run(false)) && s' == Apply(s, t, Run(false)) && Shape(s')
    ensures StepsLeft(s', t) < StepsLeft(s, t)
  {
    assert AgentAt(s, t);
  }

  lemma LockProgress(s: State, t: nat, s': State)
    requires t < |s.pcs| && s.pcs[t].UnparkLock? && Enabled(s, t, Run(false)) && s.owed[t] != []
    requires s' == RunUnparkLock(s, t, s.pcs[t].w, s.pcs[t].after) && t < |s'.pcs| == |s'.owed|
    ensures StepsLeft(s', t) < StepsLeft(s, t)
  {
    assert |s'.owed[t]| == |s.owed[t]| - 1;
  }

  lemma WakeProgress(s: State, t: nat, s': State)
    requires Inv(s) && t < |s.pcs| && s.pcs[t].UnparkWake? && Enabled(s, t, Run(false))
    requires s' == RunUnparkWake(s, t, s.pcs[t].w, s.pcs[t].after) && Shape(s')
    ensures StepsLeft(s', t) < StepsLeft(s, t)
  {
    assert AgentAt(s, t);
  }

  /** In every reachable state a thread that does not rest has a step, and it brings it closer to its rest. */
  lemma StepProgress(s: State, t: nat)
    requires Inv(s) && t < |s.pcs| && !Rests(s.pcs[t])
    ensures Enabled(s, t, Run(false)) && Inv(Apply(s, t, Run(false)))
    ensures |Apply(s, t, Run(false)).pcs| == |s.pcs|
    ensures StepsLeft(Apply(s, t, Run(false)), t) < StepsLeft(s, t)
  {
    OperationsCanRun(s, t, false);
    var s' := Apply(s, t, Run(false));
    RunStep(s, t, false);
    assert |s'.pcs| == |s.pcs|;
    if s.pcs[t].NotifyCas? {
      CasProgress(s, t, s');
    } else if Trying(s.pcs[t]) {
      NotifierProgress(s, t, s');
    } else if s.pcs[t].UnparkLock? {
      assert s.owed[t] != [] by { assert AgentAt(s, t); }
      LockProgress(s, t, s');
    } else if s.pcs[t].UnparkWake? {
      WakeProgress(s, t, s');
    } else if Notifying(s.pcs[t]) {
      UnparkProgress(s, t, s');
    } else if Committing(s.pcs[t]) || s.pcs[t].Parking? {
      CommitProgress(s, t, s');
    } else {
      WorkerProgress(s, t, s');
    }
  }

  predicate TurnOf(run: seq<State>, i: nat, t: nat)
    requires i + 1 < |run|
  {
    Enabled(run[i], t, Run(false)) && run[i + 1] == Apply(run[i], t, Run(false))
  }

  lemma Appended(run: seq<State>, t: nat) returns (longer: seq<State>)
    requires IsRun(run) && Enabled(run[|run| - 1], t, Run(false))
    ensures longer == run + [Apply(run[|run| - 1], t, Run(false))] && IsRun(longer) && TurnOf(longer, |run| - 1, t)
  {
    longer := run + [Apply(run[|run| - 1], t, Run(false))];
    forall i | 0 <= i < |longer| - 1 ensures StepAt(longer, i) {
      if i < |run| - 1 { assert StepAt(run, i); }
    }
  }

  /** Every run, wherever it stands, can be continued by steps of thread t alone until t has returned, waits
      in prewait for its caller, or sleeps. */
  lemma {:induction false} FinishesAlone(run: seq<State>, t: nat) returns (full: seq<State>)
    requires IsRun(run) && t < |run[|run| - 1].pcs| == |run[|run| - 1].owed|
    ensures IsRun(full) && run <= full && |full| <= |run| + StepsLeft(run[|run| - 1], t)
    ensures forall i :: |run| - 1 <= i < |full| - 1 ==> TurnOf(full, i, t)
    ensures t < |full[|full| - 1].pcs| && Rests(full[|full| - 1].pcs[t])
    decreases StepsLeft(run[|run| - 1], t)
  {
    var s := run[|run| - 1];
    if Rests(s.pcs[t]) {
      full := run;
    } else {
      RunInv(run, |run| - 1);
      StepProgress(s, t);
      var longer := Appended(run, t);
      full := FinishesAlone(longer, t);
      assert full[|run| - 1] == longer[|run| - 1] && full[|run|] == longer[|run|];
      assert TurnOf(full, |run| - 1, t);
    }
  }
}
