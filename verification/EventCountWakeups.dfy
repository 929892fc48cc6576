/**
 No lost wakeup: once the wait predicate is set for good and a Notify(true) called afterwards
 has taken effect, no thread ever parks again, and every thread that was parked is signalled
 exactly once.
 */
module EventCountWakeups {
  import opened Counting
  import opened EventCount
  import opened EventCountInvariant

  /** The pending signals cover every thread that can still commit, and nobody is on the stack. */
  predicate Covered(s: State) {
    s.cond && s.stack == [] && Count(s.pcs, Committing) <= s.word.signals
  }

  /** An armed notifier runs under the predicate, and one that found nothing to do has taken effect. */
  predicate ArmedOk(p: Pc, cond: bool, notified: bool) {
    && ((p.NotifyStart? || p.NotifyDecide? || p.NotifyCas?) && p.armed ==> cond && p.all)
    && (p.NotifyDecide? && p.armed && NothingToNotify(p.s) ==> notified)
  }

  predicate Safe(s: State) {
    (s.notified ==> Covered(s)) && forall a :: 0 <= a < |s.pcs| ==> ArmedOk(s.pcs[a], s.cond, s.notified)
  }

  lemma WorkersDoNotTry(s: State, t: nat, spurious: bool)
    requires Enabled(s, t, Run(spurious)) && !Notifying(s.pcs[t])
    ensures !Trying(Apply(s, t, Run(spurious)).pcs[t])
  {
    match s.pcs[t]
    case PrewaitCas(w) => assert !Trying(RunPrewaitCas(s, t, w, spurious).pcs[t]);
    case CancelCas(w) => assert !Trying(RunCancelCas(s, t, w, spurious).pcs[t]);
    case CommitStore(w) => assert !Trying(RunCommitStore(s, t, w).pcs[t]);
    case CommitCas(w) => assert !Trying(RunCommitCas(s, t, w, spurious).pcs[t]);
    case Parking => assert !Trying(RunPark(s, t).pcs[t]);
    case _ =>
  }

  lemma UnparkersDoNotTry(s: State, t: nat, spurious: bool)
    requires Enabled(s, t, Run(spurious)) && Notifying(s.pcs[t]) && !Trying(s.pcs[t])
    ensures !Trying(Apply(s, t, Run(spurious)).pcs[t])
  {
    match s.pcs[t]
    case Detached(w) => assert !Trying(RunDetach(s, t, w).pcs[t]);
    case UnparkLock(w, after) => assert !Trying(RunUnparkLock(s, t, w, after).pcs[t]);
    case UnparkWake(w, after) => assert !Trying(RunUnparkWake(s, t, w, after).pcs[t]);
    case Unpark(_) =>
  }

  lemma ArmedAt(s: State, t: nat, act: Action)
    requires Enabled(s, t, act) && ArmedOk(s.pcs[t], s.cond, s.notified)
    ensures ArmedOk(Apply(s, t, act).pcs[t], Apply(s, t, act).cond, Apply(s, t, act).notified)
  {
    if act.Run? && !Trying(s.pcs[t]) {
      if Notifying(s.pcs[t]) { UnparkersDoNotTry(s, t, act.spurious); } else { WorkersDoNotTry(s, t, act.spurious); }
    }
  }

  lemma ArmedStep(s: State, s': State, t: nat, act: Action)
    requires Safe(s) && Enabled(s, t, act) && s' == Apply(s, t, act)
    ensures forall a :: 0 <= a < |s'.pcs| ==> ArmedOk(s'.pcs[a], s'.cond, s'.notified)
  {
    ArmedAt(s, t, act);
    if act.Run? && s.pcs[t].UnparkWake? {
      var w := s.pcs[t].w;
      assert s'.pcs == s.pcs[t := s'.pcs[t]][w := s'.pcs[w]];
    }
  }

  lemma CommittingAt(pcs: seq<Pc>, t: nat, pc: Pc)
    requires t < |pcs|
    ensures Count(pcs[t := pc], Committing) + (if Committing(pcs[t]) then 1 else 0)
            == Count(pcs, Committing) + (if Committing(pc) then 1 else 0)
  {
    CountUpdate(pcs, t, pc, Committing);
  }

  /** The committing threads are among those in prewait, and thread t is not one of them. */
  lemma CommittersLeaveRoom(pcs: seq<Pc>, t: nat)
    requires t < |pcs| && InPrewait(pcs[t]) && !Committing(pcs[t])
    ensures Count(pcs, Committing) + 1 <= Count(pcs, InPrewait)
  {
    CommittingAt(pcs, t, Idle);
    CountsAt(pcs, t, Idle);
    CountImplies(pcs[t := Idle], Committing, InPrewait);
  }

  /** The worker operations keep the cover: a canceller only takes a signal nobody needs, a
      committer takes its own, and nobody finds the signals exhausted. */
  lemma WorkerCovered(s: State, t: nat, spurious: bool)
    requires Inv(s) && Covered(s) && Enabled(s, t, Run(spurious)) && !Notifying(s.pcs[t])
    ensures Covered(Apply(s, t, Run(spurious)))
  {
    var s' := Apply(s, t, Run(spurious));
    CommittingAt(s.pcs, t, s'.pcs[t]);
    if s.pcs[t].CancelCas? { CommittersLeaveRoom(s.pcs, t); }
    if s.pcs[t].CommitCas? { CountHit(s.pcs, t, Committing); }
  }

  lemma UnparkCovered(s: State, t: nat, spurious: bool)
    requires Inv(s) && Covered(s) && Enabled(s, t, Run(spurious)) && s.pcs[t].UnparkWake?
    ensures Covered(Apply(s, t, Run(spurious)))
  {
    var s', w := Apply(s, t, Run(spurious)), s.pcs[t].w;
    CommittingAt(s.pcs, t, s'.pcs[t]);
    CommittingAt(s.pcs[t := s'.pcs[t]], w, s'.pcs[w]);
  }

  lemma NotifierCovered(s: State, t: nat, spurious: bool)
    requires Inv(s) && Covered(s) && Enabled(s, t, Run(spurious)) && Notifying(s.pcs[t]) && !s.pcs[t].UnparkWake?
    ensures Covered(Apply(s, t, Run(spurious)))
  {
    CommittingAt(s.pcs, t, Apply(s, t, Run(spurious)).pcs[t]);
    CountImplies(s.pcs, Committing, InPrewait);
    assert AgentAt(s, t);
    assert s.pcs[t].NotifyCas? && s.word == s.pcs[t].s ==> s.word.signals < s.word.waiters;
  }

  /** An armed Notify(true) takes effect at its compare-exchange, or at a load that finds nothing to do. */
  lemma TakesEffect(s: State, t: nat, spurious: bool)
    requires Inv(s) && Safe(s) && Enabled(s, t, Run(spurious)) && !s.notified && Apply(s, t, Run(spurious)).notified
    ensures Covered(Apply(s, t, Run(spurious)))
  {
    CommittingAt(s.pcs, t, Apply(s, t, Run(spurious)).pcs[t]);
    CountImplies(s.pcs, Committing, InPrewait);
    assert ArmedOk(s.pcs[t], s.cond, s.notified);
    if NothingToNotify(s.word) { EmptyStack(s); }
  }

  lemma CallCovered(s: State, t: nat, act: Action)
    requires Covered(s) && Enabled(s, t, act) && !act.Run?
    ensures Covered(Apply(s, t, act))
  {
    CommittingAt(s.pcs, t, Apply(s, t, act).pcs[t]);
  }

  lemma CoveredStep(s: State, t: nat, act: Action)
    requires Inv(s) && Safe(s) && Enabled(s, t, act) && Apply(s, t, act).notified
    ensures Covered(Apply(s, t, act))
  {
    if !act.Run? {
      CallCovered(s, t, act);
    } else if !s.notified {
      TakesEffect(s, t, act.spurious);
    } else if !Notifying(s.pcs[t]) {
      WorkerCovered(s, t, act.spurious);
    } else if s.pcs[t].UnparkWake? {
      UnparkCovered(s, t, act.spurious);
    } else {
      NotifierCovered(s, t, act.spurious);
    }
  }

  lemma SafeNext(s: State, s': State)
    requires Inv(s) && Safe(s) && Next(s, s')
    ensures Safe(s')
  {
    var t: nat, act :| Enabled(s, t, act) && s' == Apply(s, t, act);
    ArmedStep(s, s', t, act);
    if s'.notified { CoveredStep(s, t, act); }
  }

  /** Nobody parks in a step taken after the notification: the push count of every waiter stays. */
  lemma NobodyParks(s: State, s': State)
    requires Inv(s) && Safe(s) && s.notified && Next(s, s')
    ensures s'.notified && SamePushes(s, s')
  {
    var t: nat, act :| Enabled(s, t, act) && s' == Apply(s, t, act);
    if act.Run? && s.pcs[t].CommitCas? { NobodyCommits(s, t, act.spurious); }
  }

  lemma NobodyCommits(s: State, t: nat, spurious: bool)
    requires Inv(s) && Covered(s) && Enabled(s, t, Run(spurious)) && s.pcs[t].CommitCas?
    ensures SamePushes(s, Apply(s, t, Run(spurious)))
  {
    CountHit(s.pcs, t, Committing);
  }

  lemma {:induction false} RunSafe(run: seq<State>, i: nat)
    requires IsRun(run) && i < |run|
    ensures Safe(run[i])
  {
    if i > 0 {
      RunSafe(run, i - 1);
      RunInv(run, i - 1);
      assert StepAt(run, i - 1);
      SafeNext(run[i - 1], run[i]);
    }
  }

  lemma {:induction false} PushCountsFrozen(run: seq<State>, i: nat, j: nat)
    requires IsRun(run) && i <= j < |run| && run[i].notified
    ensures run[j].notified && SamePushes(run[i], run[j])
  {
    if i < j {
      PushCountsFrozen(run, i, j - 1);
      RunSafe(run, j - 1);
      RunInv(run, j - 1);
      assert StepAt(run, j - 1);
      NobodyParks(run[j - 1], run[j]);
    }
  }

  /** Main theorem.  From the moment an armed Notify(true) takes effect, in every continuation of
      every run: nobody parks again; and whenever all notifiers have returned, nobody is asleep,
      every parked thread is signalled, and a thread was signalled once more if and only if its
      push was still open at that moment. */
  lemma NoLostWakeups(run: seq<State>, i: nat, j: nat)
    requires IsRun(run) && i <= j < |run| && run[i].notified
    ensures Shape(run[i]) && Shape(run[j]) && SamePushes(run[i], run[j]) && run[j].stack == []
    ensures (forall a :: 0 <= a < |run[j].pcs| ==> !Notifying(run[j].pcs[a])) ==>
              forall w :: 0 <= w < |run[j].waiters| ==>
                && !run[j].pcs[w].Asleep?
                && (run[j].pcs[w].Parking? ==> run[j].waiters[w].signal == Signaled)
                && run[j].wakes[w] == run[i].wakes[w] + (if Open(run[i].home[w]) then 1 else 0)
  {
    PushCountsFrozen(run, i, j);
    RunInv(run, i);
    RunInv(run, j);
    RunSafe(run, j);
    var s := run[j];
    if forall a :: 0 <= a < |s.pcs| ==> !Notifying(s.pcs[a]) {
      forall w | 0 <= w < |s.waiters|
        ensures !s.pcs[w].Asleep? && (s.pcs[w].Parking? ==> s.waiters[w].signal == Signaled)
        ensures s.wakes[w] == run[i].wakes[w] + (if Open(run[i].home[w]) then 1 else 0)
      {
        assert WaiterOk(s, w) && WaiterOk(run[i], w);
        NothingOwed(s, w);
      }
    }
  }

  /** With no notifier at work and an empty stack, no waiter is owed anything. */
  lemma NothingOwed(s: State, w: nat)
    requires Inv(s) && s.stack == [] && w < |s.waiters|
    requires forall a :: 0 <= a < |s.pcs| ==> !Notifying(s.pcs[a])
    ensures s.home[w] == Away
  {
    assert WaiterOk(s, w);
    assert Listed(w, s.home[w], s.stack);
    forall a | 0 <= a < |s.pcs| ensures s.owed[a] == [] { assert AgentAt(s, a); }
  }

  /** A Notify(true) called after the predicate was set has taken effect when it stops trying. */
  lemma ArmedNotifyTakesEffect(s: State, t: nat, spurious: bool)
    requires Inv(s) && Safe(s) && Enabled(s, t, Run(spurious))
    requires (s.pcs[t].NotifyDecide? || s.pcs[t].NotifyCas?) && s.pcs[t].armed
    requires !Apply(s, t, Run(spurious)).pcs[t].NotifyDecide? && !Apply(s, t, Run(spurious)).pcs[t].NotifyCas?
    ensures Apply(s, t, Run(spurious)).notified
  {
    assert ArmedOk(s.pcs[t], s.cond, s.notified);
  }
}
