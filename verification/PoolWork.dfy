/**
 What the pool is for: no submitted task is left behind.  A task in a queue always has a worker that will
 look at the queue, a signal that will keep some worker from sleeping, or a submitter about to notify; so
 whenever nobody has a step left, every task has run, and every run gets there.
 */
module PoolWork {
  import opened Counting
  import opened PoolShutdown
  import opened PoolTermination

  /** The pending signals are for threads in prewait, and submitters are not overtaken by the destructor. */
  predicate SignalsFit(s: State) { s.signals <= Prewaiting(s) && (s.pending > 0 ==> !s.done) }

  lemma StepSignals(s: State, w: nat)
    requires Enabled(s, Step(w)) && SignalsFit(s)
    ensures SignalsFit(RunStep(s, w))
  {
    var p := s.workers[w];
    if p.FinalScan? {
      assert RunStep(s, w) == NotifyAll(s.(workers := s.workers[w := Exited(p.era)]));
    } else {
      StaySignals(s, w, RunStep(s, w));
    }
  }

  lemma StaySignals(s: State, w: nat, s': State)
    requires Enabled(s, Step(w)) && !s.workers[w].FinalScan? && SignalsFit(s) && s' == RunStep(s, w)
    ensures SignalsFit(s')
  {
    StepKeeps(s, w, s');
    CountUpdate(s.workers, w, s'.workers[w], Prewaits());
  }

  /** Within prewait no signal is used; leaving it uses one, unless there is none, or fewer than threads there. */
  lemma StepKeeps(s: State, w: nat, s': State)
    requires Enabled(s, Step(w)) && !s.workers[w].FinalScan? && s' == RunStep(s, w)
    ensures |s'.workers| == |s.workers| && s'.workers == s.workers[w := s'.workers[w]]
    ensures s'.pending == s.pending && s'.done == s.done && (IsPrewait(s'.workers[w]) ==> IsPrewait(s.workers[w]))
    ensures IsPrewait(s'.workers[w]) == IsPrewait(s.workers[w]) ==> s'.signals == s.signals
    ensures IsPrewait(s'.workers[w]) != IsPrewait(s.workers[w]) ==>
              s'.signals == if s.signals > 0 && (s.workers[w].Committing? || s.signals == Prewaiting(s)) then s.signals - 1 else s.signals
  {
  }

  lemma LookSignals(s: State, w: nat, q: nat)
    requires Enabled(s, Look(w, q)) && SignalsFit(s)
    ensures SignalsFit(RunLook(s, w, q))
  {
    CountUpdate(s.workers, w, RunLook(s, w, q).workers[w], Prewaits());
    if IsPrewait(s.workers[w]) { CountHit(s.workers, w, Prewaits()); }
  }

  /** Taking, finishing and giving up: worker w joins those in prewait, or none does. */
  lemma WorkerSignals(s: State, act: Action, w: nat)
    requires Enabled(s, act) && SignalsFit(s)
    requires act == Finish(w) || act == GiveUp(w) || act == TakeFront(w) || (act.TakeBack? && act.w == w)
    ensures SignalsFit(Apply(s, act))
  {
    var s' := Apply(s, act);
    assert s'.workers == s.workers[w := s'.workers[w]];
    CountUpdate(s.workers, w, s'.workers[w], Prewaits());
  }

  lemma SignalsStep(s: State, act: Action)
    requires Sized(s) && SignalsFit(s) && Enabled(s, act)
    ensures SignalsFit(Apply(s, act))
  {
    match act
    case Step(w) => StepSignals(s, w);
    case Look(w, q) => LookSignals(s, w, q);
    case GiveUp(w) => WorkerSignals(s, act, w);
    case Finish(w) => WorkerSignals(s, act, w);
    case TakeFront(w) => WorkerSignals(s, act, w);
    case TakeBack(w, _) => WorkerSignals(s, act, w);
    case _ =>
  }

  /** The event count as the pool sees it: a notification gives a signal to somebody in prewait who has none,
      or else wakes one sleeper, if there is any; a worker that commits sleeps exactly if no signal is left,
      and uses one up if there is; and a sleeper that was woken goes back to its work.  Each notification that follows a
      submission settles one of those due; a submitter goes without only if it leaves a worker awake. */
  lemma NotificationsArrive(s: State, w: nat, after: bool)
    requires Sized(s)
    ensures Enabled(s, Notify(w, after)) ==>
              var s' := Apply(s, Notify(w, after));
              if s.signals < Prewaiting(s) then s'.signals == s.signals + 1 && s'.woken == s.woken
              else s'.signals == s.signals && (Sleeps(s, w) || forall u :: 0 <= u < |s.workers| ==> !Sleeps(s, u))
                   && forall u :: 0 <= u < |s.workers| ==> (Sleeps(s', u) <==> Sleeps(s, u) && u != w)
    ensures w < |s.workers| && s.workers[w].Committing? ==>
              var s' := Apply(s, Step(w));
              (Sleeps(s', w) <==> s.signals == 0) && s'.signals == s.signals - (if s.signals > 0 then 1 else 0)
              && s'.workers[w].Parked?
    ensures w < |s.workers| && s.workers[w].Parked? && s.woken[w] ==> Apply(s, Step(w)).workers[w].Idle?
    ensures Enabled(s, Notify(w, after)) ==> Apply(s, Notify(w, after)).pending == s.pending - (if after then 1 else 0)
    ensures Enabled(s, SkipNotify(w)) ==> !Blind(s.workers[w], s.woken[w], 0) && Apply(s, SkipNotify(w)) == s.(pending := s.pending - 1)
  {
  }

  /** Worker p will not look at queue q again unless something happens to it: it has seen it empty and is on
      its way to sleep, asleep, or gone. */
  predicate Blind(p: Worker, woken: bool, q: nat) {
    match p
    case Scan(seen) => q in seen
    case NothingFound => true
    case CheckDone => true
    case CheckBlocked => true
    case Committing => true
    case Parked => !woken
    case FinalScan(seen, _) => q in seen
    case Exited(_) => true
    case _ => false
  }

  /** Somebody will look at queue q: a worker, a thread in prewait that will find a signal and not sleep, or
      one that a submitter is about to notify. */
  predicate Watched(s: State, q: nat)
    requires Sized(s)
  {
    s.pending > 0 || s.signals > 0 || exists w :: 0 <= w < |s.workers| && !Blind(s.workers[w], s.woken[w], q)
  }

  predicate NoneForgotten(s: State)
    requires Sized(s)
  {
    forall q :: 0 <= q < |s.queues| && s.queues[q] != [] ==> Watched(s, q)
  }

  /** The worker that moves will look at q itself. */
  lemma MoverWatches(s: State, act: Action, q: nat)
    requires Enabled(s, act) && q < |s.queues|
    requires act.SubmitFront? || act.RunInside? || act.Finish? || act.TakeFront? || act.TakeBack? || act.GiveUp? || act.SkipNotify?
    requires act.Finish? || act.RunInside? || act.SubmitFront? ==> s.workers[act.w].Running?
    ensures Watched(Apply(s, act), q)
  {
    var s' := Apply(s, act);
    assert !Blind(s'.workers[act.w], s'.woken[act.w], q);
  }

  lemma LookWatches(s: State, w: nat, q': nat, q: nat)
    requires Enabled(s, Look(w, q')) && q < |s.queues| && s.queues[q] != [] && Watched(s, q)
    ensures Watched(RunLook(s, w, q'), q)
  {
    var s' := RunLook(s, w, q');
    if s.queues[q'] != [] {
      assert !Blind(s'.workers[w], s'.woken[w], q);
    } else if s.pending == 0 && s.signals == 0 {
      var u :| 0 <= u < |s.workers| && !Blind(s.workers[u], s.woken[u], q);
      assert !Blind(s'.workers[u], s'.woken[u], q);
    }
  }

  lemma StepWatches(s: State, w: nat, q: nat)
    requires Enabled(s, Step(w)) && SignalsFit(s) && q < |s.queues| && s.queues[q] != [] && Watched(s, q)
    ensures Watched(RunStep(s, w), q)
  {
    var p, s' := s.workers[w], RunStep(s, w);
    if p.Found? || p.Parked? || p.FinalFound? || (p.CheckBlocked? && s.blocked == |s.workers|) || (p.Committing? && s.signals > 0) {
      assert !Blind(s'.workers[w], s'.woken[w], q);
    } else if s.pending == 0 {
      BlindStep(s, w, q);
    }
  }

  lemma BlindStep(s: State, w: nat, q: nat)
    requires Enabled(s, Step(w)) && SignalsFit(s) && q < |s.queues| && s.pending == 0 && Watched(s, q)
    requires var p := s.workers[w];
             p.Scan? || p.NothingFound? || p.CheckDone? || (p.CheckBlocked? && s.blocked != |s.workers|)
             || (p.Committing? && s.signals == 0) || p.FinalScan?
    ensures Watched(RunStep(s, w), q)
  {
    var s' := RunStep(s, w);
    if s.signals > 0 {
      if s.workers[w].FinalScan? { CountUpdate(s.workers, w, s'.workers[w], Prewaits()); }
    } else {
      var u :| 0 <= u < |s.workers| && !Blind(s.workers[u], s.woken[u], q);
      assert u != w && !Blind(s'.workers[u], s'.woken[u], q);
    }
  }

  lemma NotifyWatches(s: State, act: Action, q: nat)
    requires Inv(s) && Enabled(s, act) && act.Notify? && SignalsFit(s) && q < |s.queues| && Watched(s, q)
    ensures Watched(Apply(s, act), q)
  {
    var s' := Apply(s, act);
    if s.signals < Prewaiting(s) || s.signals > 0 {
      assert s'.signals > 0;
    } else if Sleeps(s, act.w) {
      assert !Blind(s'.workers[act.w], s'.woken[act.w], q);
    } else if act.after {
      NobodyIsBlind(s, q);
      assert !Blind(s'.workers[0], s'.woken[0], q);
    } else if s.pending == 0 {
      var u :| 0 <= u < |s.workers| && !Blind(s.workers[u], s.woken[u], q);
      assert !Blind(s'.workers[u], s'.woken[u], q);
    }
  }

  /** With nobody in prewait or asleep, before the end, everybody will look at every queue. */
  lemma NobodyIsBlind(s: State, q: nat)
    requires Inv(s) && Prewaiting(s) == 0 && !s.done && forall u :: 0 <= u < |s.workers| ==> !Sleeps(s, u)
    ensures !Blind(s.workers[0], s.woken[0], q)
  {
    assert WorkerAt(s, 0) && !Sleeps(s, 0);
    if IsPrewait(s.workers[0]) { CountHit(s.workers, 0, Prewaits()); }
  }

  lemma OutsideWatches(s: State, act: Action, q: nat)
    requires Sized(s) && Enabled(s, act) && SignalsFit(s) && q < |s.queues|
    requires act.SubmitBack? || (Watched(s, q) && (act.RunOutside? || act.SetDone? || act.Announce?))
    ensures Watched(Apply(s, act), q)
  {
    var s' := Apply(s, act);
    if !act.SubmitBack? && s.pending == 0 && s.signals == 0 {
      var u :| 0 <= u < |s.workers| && !Blind(s.workers[u], s.woken[u], q);
      assert !Blind(s'.workers[u], s'.woken[u], q);
    }
  }

  lemma WatchedStep(s: State, act: Action, q: nat)
    requires Inv(s) && SignalsFit(s) && NoneForgotten(s) && Enabled(s, act)
    requires q < |Apply(s, act).queues| == |s.queues| && Apply(s, act).queues[q] != []
    ensures Watched(Apply(s, act), q)
  {
    match act
    case SubmitBack(_) => OutsideWatches(s, act, q);
    case RunOutside => OutsideWatches(s, act, q);
    case SetDone => OutsideWatches(s, act, q);
    case Announce => OutsideWatches(s, act, q);
    case Notify(_, _) => NotifyWatches(s, act, q);
    case Look(w, q') => LookWatches(s, w, q', q);
    case Step(w) => StepWatches(s, w, q);
    case _ => MoverWatches(s, act, q);
  }

  lemma SameQueues(s: State, act: Action)
    requires Enabled(s, act)
    ensures |Apply(s, act).queues| == |s.queues|
  {
  }

  lemma {:induction false} RunWatched(run: seq<State>, i: nat)
    requires IsRun(run) && i < |run|
    ensures Inv(run[i]) && SignalsFit(run[i]) && NoneForgotten(run[i])
  {
    RunInv(run, i, 0);
    if i > 0 {
      RunWatched(run, i - 1);
      assert StepAt(run, i - 1);
      var act :| Enabled(run[i - 1], act) && run[i] == Apply(run[i - 1], act);
      SignalsStep(run[i - 1], act);
      SameQueues(run[i - 1], act);
      forall q | 0 <= q < |run[i].queues| && run[i].queues[q] != [] ensures Watched(run[i], q) {
        WatchedStep(run[i - 1], act, q);
      }
    }
  }

  /** No task is left behind: in every reachable state in which no worker has a step left and no submitter is
      about to notify, whether or not the pool is being shut down, every queue is empty and every submitted
      task has run exactly once. */
  lemma RestMeansDone(run: seq<State>, i: nat)
    requires IsRun(run) && i < |run| && AtRest(run[i]) && run[i].pending == 0
    ensures AllEmpty(run[i].queues)
    ensures var s := run[i]; forall t: nat :: t < s.submitted ==> Times(s.ran, t) == 1
  {
    RunWatched(run, i);
    RunAwake(run, i);
    var s := run[i];
    forall w | 0 <= w < |s.workers| ensures s.workers[w].Exited? || Sleeps(s, w) {
      if !s.workers[w].Exited? && !Sleeps(s, w) { var act := MoverHasStep(s, w); }
    }
    CountNone(s.workers, Prewaits());
    forall q | 0 <= q < |s.queues| ensures s.queues[q] == [] {
      assert !Watched(s, q);
    }
    forall t: nat | t < s.submitted ensures Times(s.ran, t) == 1 { AllRan(run, i, t); }
  }

  lemma AllRan(run: seq<State>, i: nat, t: nat)
    requires IsRun(run) && i < |run| && AllEmpty(run[i].queues) && t < run[i].submitted
    requires forall w :: 0 <= w < |run[i].workers| ==> !run[i].workers[w].Running?
    ensures Times(run[i].ran, t) == 1
  {
    var s := run[i];
    RunInv(run, i, t);
    PooledEmpty(s.queues, t);
    forall u | 0 <= u < |s.stacks| ensures s.stacks[u] == [] { assert WorkerAt(s, u); }
    PooledEmpty(s.stacks, t);
  }

  /** What the pool is for: every run, wherever it stands, can be continued, without a further submission and
      without shutting anything down, until every submitted task has run exactly once; after the submitters'
      notifications it takes only steps of the workers' own, in whatever order, and these come to an end. */
  lemma WorkCompletes(run: seq<State>) returns (settled: seq<State>, full: seq<State>)
    requires IsRun(run)
    ensures IsRun(full) && run <= settled <= full && OwnTurns(full, |settled| - 1) && AtRest(full[|full| - 1])
    ensures full[|full| - 1].submitted == run[|run| - 1].submitted && AllEmpty(full[|full| - 1].queues)
    ensures var s := full[|full| - 1]; forall t: nat :: t < s.submitted ==> Times(s.ran, t) == 1
  {
    RunAwake(run, |run| - 1);
    settled := Settled(run);
    full := Exhaust(settled);
    OwnKeeps(full, |settled| - 1, |full| - 1);
    RestMeansDone(full, |full| - 1);
  }
}
