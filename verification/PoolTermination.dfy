/**
 The end of the work-stealing pool: no worker is left asleep once the destructor has announced itself, a
 worker leaves the blocked state only when notified or when its final scan found work, and once nobody
 submits any more the workers come to an end, every one of them exited and every task run.
 */
module PoolTermination {
  import opened Counting
  import opened PoolShutdown

  // ------------------------------------------------------------ who is unblocked, and who exits

  /** mBlocked is decremented only by a worker that was notified, or whose final scan found a queue that is
      not empty. */
  lemma UnblockedReason(s: State, act: Action)
    requires Enabled(s, act) && Apply(s, act).blocked < s.blocked
    ensures act.Step? && ((s.workers[act.w].Parked? && s.woken[act.w]) || s.workers[act.w].FinalFound?)
  {
  }

  /** Only a look at a queue that is not empty makes a worker find one. */
  lemma OnlyLooksFind(s: State, act: Action, w: nat)
    requires Enabled(s, act) && !act.Look? && w < |s.workers|
    ensures |Apply(s, act).workers| == |s.workers| && |Apply(s, act).queues| == |s.queues|
    ensures Apply(s, act).workers[w].FinalFound? ==> s.workers[w].FinalFound?
    ensures Apply(s, act).workers[w].Found? ==> s.workers[w] == Apply(s, act).workers[w]
  {
    if act.Step? { StepsDoNotFind(s, act.w, w); }
  }

  lemma StepsDoNotFind(s: State, u: nat, w: nat)
    requires Enabled(s, Step(u)) && w < |s.workers|
    ensures |RunStep(s, u).workers| == |s.workers| && RunStep(s, u).queues == s.queues
    ensures RunStep(s, u).workers[w].FinalFound? || RunStep(s, u).workers[w].Found? ==> RunStep(s, u).workers[w] == s.workers[w]
  {
  }

  lemma FinalFoundStep(s: State, act: Action, w: nat)
    requires Enabled(s, act) && w < |s.workers| && Apply(s, act).workers[w].FinalFound?
    ensures s.workers[w].FinalFound? || exists q: nat :: q < |s.queues| && act == Look(w, q) && s.workers[w].FinalScan? && s.queues[q] != []
  {
    if act.Look? { assert Apply(s, act) == RunLook(s, act.w, act.q); } else { OnlyLooksFind(s, act, w); }
  }

  lemma SameWorkers(s: State, act: Action)
    requires Enabled(s, act)
    ensures |Apply(s, act).workers| == |s.workers|
  {
  }

  lemma FinalFoundNext(run: seq<State>, i: nat, w: nat) returns (q: nat)
    requires i + 1 < |run| && StepAt(run, i) && w < |run[i + 1].workers| && run[i + 1].workers[w].FinalFound?
    ensures w < |run[i].workers|
    ensures run[i].workers[w].FinalFound? || (run[i].workers[w].FinalScan? && q < |run[i].queues| && run[i].queues[q] != [])
  {
    var act :| Enabled(run[i], act) && run[i + 1] == Apply(run[i], act);
    SameWorkers(run[i], act);
    FinalFoundStep(run[i], act, w);
    q := if act.Look? then act.q else 0;
  }

  /** A worker that found work in its final scan looked, in this scan, at a queue that was not empty. */
  lemma {:induction false} FinalFoundReason(run: seq<State>, i: nat, w: nat) returns (j: nat, q: nat)
    requires IsRun(run) && i < |run| && w < |run[i].workers| && run[i].workers[w].FinalFound?
    ensures j < i && w < |run[j].workers| && run[j].workers[w].FinalScan?
    ensures q < |run[j].queues| && run[j].queues[q] != []
    ensures forall k :: j < k <= i ==> w < |run[k].workers| && run[k].workers[w].FinalFound?
  {
    assert i > 0;
    assert StepAt(run, i - 1);
    q := FinalFoundNext(run, i - 1, w);
    if run[i - 1].workers[w].FinalFound? {
      j, q := FinalFoundReason(run, i - 1, w);
    } else {
      j := i - 1;
    }
  }

  /** A worker whose final scan found every queue empty exits at its next step, and notifies the others. */
  lemma ExitsNext(s: State, w: nat)
    requires Enabled(s, Step(w)) && s.workers[w].FinalScan?
    ensures Apply(s, Step(w)).workers[w].Exited? && Apply(s, Step(w)).blocked == s.blocked
    ensures forall u :: 0 <= u < |s.workers| ==> Apply(s, Step(w)).woken[u]
    ensures Apply(s, Step(w)).signals == Count(Apply(s, Step(w)).workers, Prewaits())
  {
  }

  // ------------------------------------------------------------ nobody is left asleep

  /** Gone, asleep, or about to fall asleep: there is no signal left for it. */
  predicate Rests(p: Worker, signals: nat, woken: bool) {
    p.Exited? || (p.Parked? && !woken) || (p.Committing? && signals == 0)
  }

  predicate FoundFits(p: Worker, n: nat) { p.Found? ==> p.q < n }

  /** Once the destructor has announced itself, everybody is gone or somebody is about to do something. */
  predicate Awake(s: State)
    requires Sized(s)
  {
    && (forall w :: 0 <= w < |s.workers| ==> FoundFits(s.workers[w], |s.queues|))
    && (s.announced ==> s.done && (AllExited(s) || exists w :: 0 <= w < |s.workers| && !Rests(s.workers[w], s.signals, s.woken[w])))
  }

  lemma FoundStep(s: State, act: Action, w: nat)
    requires Enabled(s, act) && w < |s.workers| && FoundFits(s.workers[w], |s.queues|)
    ensures |Apply(s, act).workers| == |s.workers| && FoundFits(Apply(s, act).workers[w], |Apply(s, act).queues|)
  {
    if act.Look? { assert Apply(s, act) == RunLook(s, act.w, act.q); } else { OnlyLooksFind(s, act, w); }
  }

  /** A worker that sees less than everybody blocked does not fall asleep as the last one. */
  lemma NotTheLast(s: State, w: nat) returns (u: nat)
    requires Inv(s) && w < |s.workers| && IsBlocked(s.workers[w]) && s.blocked != |s.workers|
    ensures u < |s.workers| && u != w && !IsBlocked(s.workers[u])
  {
    if AllBlocked(s.workers) {
      CountAll(s.workers, Blocked());
      u := w;
    } else {
      u :| 0 <= u < |s.workers| && !IsBlocked(s.workers[u]);
    }
  }

  lemma AwakeStep(s: State, act: Action)
    requires Inv(s) && Awake(s) && Enabled(s, act)
    ensures Awake(Apply(s, act))
  {
    var s' := Apply(s, act);
    forall w | 0 <= w < |s'.workers| ensures FoundFits(s'.workers[w], |s'.queues|) { FoundStep(s, act, w); }
    if s'.announced && !AllExited(s') { SomebodyMoves(s, act, s'); }
  }

  lemma SomebodyMoves(s: State, act: Action, s': State)
    requires Inv(s) && Awake(s) && Enabled(s, act) && s' == Apply(s, act) && s'.announced && !AllExited(s')
    ensures s'.done && exists w :: 0 <= w < |s'.workers| && !Rests(s'.workers[w], s'.signals, s'.woken[w])
  {
    if act.Announce? || (act.Step? && s.workers[act.w].FinalScan?) {
      var x :| 0 <= x < |s'.workers| && !s'.workers[x].Exited?;
      NotifiedMove(s, act, s', x);
    } else if act.Step? && s.workers[act.w].CheckBlocked? && s.blocked != |s.workers| {
      var u := NotTheLast(s, act.w);
      assert !Rests(s'.workers[u], s'.signals, s'.woken[u]);
    } else if act.SetDone? || act.Notify? || act.SkipNotify? || act.SubmitBack? || act.RunOutside?
              || (act.Step? && s.workers[act.w].Committing? && s.signals == 0) {
      var w := OthersMove(s, act, s');
    } else {
      MoverMoves(s, act, s');
    }
  }

  lemma NotifiedMove(s: State, act: Action, s': State, x: nat)
    requires Sized(s) && Enabled(s, act) && s' == Apply(s, act) && (act.Announce? || (act.Step? && s.workers[act.w].FinalScan?))
    requires Awake(s) && s'.announced && x < |s'.workers| && !s'.workers[x].Exited?
    ensures s'.done && !Rests(s'.workers[x], s'.signals, s'.woken[x])
  {
    if s'.workers[x].Committing? { CountHit(s'.workers, x, Prewaits()); }
  }

  lemma OthersMove(s: State, act: Action, s': State) returns (w: nat)
    requires Sized(s) && Awake(s) && Enabled(s, act) && s' == Apply(s, act) && s'.announced && !AllExited(s')
    requires act.SetDone? || act.Notify? || act.SkipNotify? || act.SubmitBack? || act.RunOutside?
             || (act.Step? && s.workers[act.w].Committing? && s.signals == 0)
    ensures s'.done && w < |s'.workers| && !Rests(s'.workers[w], s'.signals, s'.woken[w])
  {
    var x :| 0 <= x < |s'.workers| && !s'.workers[x].Exited?;
    assert !s.workers[if act.Step? then act.w else x].Exited?;
    w :| 0 <= w < |s.workers| && !Rests(s.workers[w], s.signals, s.woken[w]);
  }

  lemma MoverMoves(s: State, act: Action, s': State)
    requires Inv(s) && Awake(s) && Enabled(s, act) && s' == Apply(s, act) && s'.announced
    requires !act.SetDone? && !act.Notify? && !act.SkipNotify? && !act.SubmitBack? && !act.RunOutside? && !act.Announce?
    requires act.Step? ==>
               && !s.workers[act.w].FinalScan? && (s.workers[act.w].CheckBlocked? ==> s.blocked == |s.workers|)
               && (s.workers[act.w].Committing? ==> s.signals > 0)
    ensures s'.done && act.w < |s'.workers| && !Rests(s'.workers[act.w], s'.signals, s'.woken[act.w])
  {
  }

  lemma {:induction false} RunAwake(run: seq<State>, i: nat)
    requires IsRun(run) && i < |run|
    ensures Inv(run[i]) && Awake(run[i])
  {
    RunInv(run, i, 0);
    if i > 0 {
      RunAwake(run, i - 1);
      assert StepAt(run, i - 1);
      var act :| Enabled(run[i - 1], act) && run[i] == Apply(run[i - 1], act);
      AwakeStep(run[i - 1], act);
    }
  }

  /** The workers' own steps: no submissions, and no notifications that come with them. */
  predicate Own(act: Action) {
    act.Finish? || act.TakeFront? || act.TakeBack? || act.GiveUp? || act.Look? || act.Step?
  }

  ghost predicate AtRest(s: State) { forall act :: Own(act) ==> !Enabled(s, act) }

  /** A worker that is neither gone nor asleep has a step of its own. */
  lemma MoverHasStep(s: State, w: nat) returns (act: Action)
    requires Inv(s) && Awake(s) && w < |s.workers| && !s.workers[w].Exited? && !Sleeps(s, w)
    ensures Own(act) && Enabled(s, act)
  {
    assert WorkerAt(s, w);
    match s.workers[w]
    case Idle => act := GiveUp(w);
    case Running => act := Finish(w);
    case Found(q) => act := if s.queues[q] != [] then TakeBack(w, q) else Step(w);
    case Scan(seen) => act := ScanStep(s, w);
    case FinalScan(seen, _) => act := ScanStep(s, w);
    case _ => act := Step(w);
  }

  lemma ScanStep(s: State, w: nat) returns (act: Action)
    requires Sized(s) && w < |s.workers| && IsScan(s.workers[w])
    ensures Own(act) && Enabled(s, act)
  {
    if forall q :: 0 <= q < |s.queues| ==> q in s.workers[w].seen {
      act := Step(w);
    } else {
      var q :| 0 <= q < |s.queues| && q !in s.workers[w].seen;
      act := Look(w, q);
    }
  }

  /** No deadlock at the end: if the destructor has announced itself and no worker has a step left, all
      workers have exited. */
  lemma NobodyLeftAsleep(run: seq<State>, i: nat)
    requires IsRun(run) && i < |run| && run[i].announced
    requires AtRest(run[i])
    ensures AllExited(run[i])
  {
    RunAwake(run, i);
    var s := run[i];
    if w :| 0 <= w < |s.workers| && !Rests(s.workers[w], s.signals, s.woken[w]) {
      var act := MoverHasStep(s, w);
    }
  }

  // ------------------------------------------------------------ the workers come to an end

  function Pile(piles: seq<seq<nat>>): seq<nat> { seq(|piles|, i requires 0 <= i < |piles| => |piles[i]|) }

  function Tasks(piles: seq<seq<nat>>): nat { Total(Pile(piles)) }

  lemma TasksUpdate(piles: seq<seq<nat>>, i: nat, v: seq<nat>)
    requires i < |piles|
    ensures Tasks(piles[i := v]) == Tasks(piles) - |piles[i]| + |v|
  {
    TotalUpdate(Pile(piles), i, |v|);
    assert Pile(piles[i := v]) == Pile(piles)[i := |v|];
  }

  /** Queues below n not yet looked at. */
  function Unseen(seen: set<nat>, n: nat): (r: nat)
    ensures r <= n
  {
    if n == 0 then 0 else Unseen(seen, n - 1) + (if n - 1 in seen then 0 else 1)
  }

  lemma {:induction false} UnseenSame(seen: set<nat>, n: nat, q: nat)
    requires q >= n
    ensures Unseen(seen + {q}, n) == Unseen(seen, n)
  {
    if n > 0 { UnseenSame(seen, n - 1, q); }
  }

  lemma {:induction false} UnseenDrops(seen: set<nat>, n: nat, q: nat)
    requires q < n && q !in seen
    ensures Unseen(seen + {q}, n) == Unseen(seen, n) - 1
  {
    if q == n - 1 { UnseenSame(seen, n - 1, q); } else { UnseenDrops(seen, n - 1, q); }
  }

  function Working(): Worker -> bool { (p: Worker) => !p.Exited? }

  /** How far a worker is from rest if no queue changes.  With tasks in the queues a scan that has seen only
      empty queues will find one; a scan that missed a task submitted behind its back goes the long way. */
  function Distance(p: Worker, queues: seq<seq<nat>>): nat {
    var n := |queues|;
    match p
    case Running => 0
    case Exited(_) => 0
    case Committing => 1
    case Parked => 0
    case Idle => if AllEmpty(queues) then 2 * n + 7 else n + 2
    case Found(q) => if AllEmpty(queues) then 2 * n + 8 else if q < n && queues[q] != [] then 0 else n + 3
    case FinalFound => if AllEmpty(queues) then 2 * n + 8 else n + 3
    case Scan(seen) =>
      if AllEmpty(queues) then n + 6 + Unseen(seen, n)
      else if SeenEmpty(queues, seen) then 1 + Unseen(seen, n) else 2 * n + 8 + Unseen(seen, n)
    case NothingFound => if AllEmpty(queues) then n + 5 else 2 * n + 7
    case CheckDone => if AllEmpty(queues) then n + 4 else 2 * n + 6
    case CheckBlocked => if AllEmpty(queues) then n + 3 else 2 * n + 5
    case FinalScan(seen, _) => if AllEmpty(queues) then 1 + Unseen(seen, n) else n + 4 + Unseen(seen, n)
  }

  function Distances(workers: seq<Worker>, queues: seq<seq<nat>>): seq<nat> {
    seq(|workers|, w requires 0 <= w < |workers| => Distance(workers[w], queues))
  }

  function Rounds(s: State): nat { Total(Distances(s.workers, s.queues)) }

  /** Notifications that will each send a worker round once more: pending signals, and parked workers that may
      go on. */
  function Calls(s: State): nat
    requires Sized(s)
  {
    s.signals + Count(Risen(s.workers, s.woken), Holds)
  }

  predicate Holds(b: bool) { b }

  function Risen(workers: seq<Worker>, woken: seq<bool>): seq<bool>
    requires |workers| == |woken|
  {
    seq(|workers|, w requires 0 <= w < |workers| => workers[w].Parked? && woken[w])
  }

  lemma RisenUpdate(s: State, w: nat, s': State)
    requires Sized(s) && Sized(s') && w < |s.workers| == |s'.workers|
    requires s'.workers == s.workers[w := s'.workers[w]] && s'.woken == s.woken[w := s'.woken[w]]
    ensures Count(Risen(s'.workers, s'.woken), Holds) + One(s.workers[w].Parked? && s.woken[w]) ==
            Count(Risen(s.workers, s.woken), Holds) + One(s'.workers[w].Parked? && s'.woken[w])
  {
    var b := s'.workers[w].Parked? && s'.woken[w];
    CountUpdate(Risen(s.workers, s.woken), w, b, Holds);
    assert Risen(s'.workers, s'.woken) == Risen(s.workers, s.woken)[w := b];
  }

  function One(b: bool): nat { if b then 1 else 0 }

  lemma RoundsUpdate(s: State, w: nat, s': State)
    requires w < |s.workers| == |s'.workers| && s'.queues == s.queues && s'.workers == s.workers[w := s'.workers[w]]
    ensures Rounds(s') + Distance(s.workers[w], s.queues) == Rounds(s) + Distance(s'.workers[w], s.queues)
  {
    var d := Distance(s'.workers[w], s.queues);
    TotalUpdate(Distances(s.workers, s.queues), w, d);
    assert Distances(s'.workers, s.queues) == Distances(s.workers, s.queues)[w := d];
  }

  /** Fewer calls, or as many and shorter rounds. */
  predicate Closer(s': State, s: State)
    requires Sized(s) && Sized(s')
  {
    Calls(s') < Calls(s) || (Calls(s') == Calls(s) && Rounds(s') < Rounds(s))
  }

  /** Only worker w changed: it came closer to its rest, or answered a call. */
  lemma OneCloser(s: State, s': State, w: nat)
    requires Sized(s) && Sized(s') && w < |s.workers| == |s'.workers| && s'.queues == s.queues
    requires s'.workers == s.workers[w := s'.workers[w]] && s'.woken == s.woken[w := s'.woken[w]]
    requires s'.signals + One(s'.workers[w].Parked? && s'.woken[w]) <= s.signals + One(s.workers[w].Parked? && s.woken[w])
    requires Distance(s'.workers[w], s.queues) < Distance(s.workers[w], s.queues)
             || (s.workers[w].Parked? && s.woken[w] && !s'.workers[w].Parked? && s'.signals == s.signals)
    ensures Closer(s', s)
  {
    RisenUpdate(s, w, s');
    RoundsUpdate(s, w, s');
  }

  lemma GiveUpCloser(s: State, w: nat)
    requires Enabled(s, GiveUp(w))
    ensures Closer(Apply(s, GiveUp(w)), s)
  {
    OneCloser(s, Apply(s, GiveUp(w)), w);
  }

  lemma LookCloser(s: State, w: nat, q: nat)
    requires Enabled(s, Look(w, q))
    ensures Closer(RunLook(s, w, q), s)
  {
    UnseenDrops(s.workers[w].seen, |s.queues|, q);
    OneCloser(s, RunLook(s, w, q), w);
  }

  lemma StepCloser(s: State, w: nat)
    requires Enabled(s, Step(w)) && !s.workers[w].FinalScan?
    ensures Closer(RunStep(s, w), s)
  {
    if !s.workers[w].Parked? { StepCheaper(s, w); }
    OneCloser(s, RunStep(s, w), w);
  }

  lemma StepCheaper(s: State, w: nat)
    requires Enabled(s, Step(w)) && !s.workers[w].FinalScan? && !s.workers[w].Parked?
    ensures Distance(RunStep(s, w).workers[w], s.queues) < Distance(s.workers[w], s.queues)
  {
    if AllEmpty(s.queues) {
      StepCheaperEmpty(s, w);
    } else if s.workers[w].Scan? {
      assert !SeenEmpty(s.queues, s.workers[w].seen);
    }
  }

  lemma StepCheaperEmpty(s: State, w: nat)
    requires Enabled(s, Step(w)) && !s.workers[w].FinalScan? && !s.workers[w].Parked? && AllEmpty(s.queues)
    ensures Distance(RunStep(s, w).workers[w], s.queues) < Distance(s.workers[w], s.queues)
  {
  }

  /** First the tasks in the queues count, then those at work, then the workers, then calls and rounds. */
  predicate Less(s': State, s: State)
    requires Sized(s) && Sized(s')
  {
    var q, q', t, t' := Tasks(s.queues), Tasks(s'.queues), Tasks(s.stacks), Tasks(s'.stacks);
    var n, n' := Count(s.workers, Working()), Count(s'.workers, Working());
    || q' < q
    || (q' == q && t' < t)
    || (q' == q && t' == t && n' < n)
    || (q' == q && t' == t && n' == n && Closer(s', s))
  }

  lemma TakeLess(s: State, w: nat, q: nat, task: nat, rest: seq<nat>)
    requires Sized(s) && w < |s.workers| && q < |s.queues| && |rest| < |s.queues[q]|
    ensures Less(RunTake(s, w, q, task, rest), s)
  {
    TasksUpdate(s.queues, q, rest);
  }

  lemma FinishLess(s: State, w: nat)
    requires Enabled(s, Finish(w))
    ensures Less(Apply(s, Finish(w)), s)
  {
    TasksUpdate(s.stacks, w, s.stacks[w][..|s.stacks[w]| - 1]);
  }

  /** Steps of a worker within WaitForWork leave the tasks and, but for its exit, the workers. */
  lemma SameWorking(s: State, w: nat, s': State)
    requires Sized(s) && Sized(s') && w < |s.workers| == |s'.workers| && s'.workers == s.workers[w := s'.workers[w]]
    requires s'.queues == s.queues && s'.stacks == s.stacks && !s.workers[w].Exited?
    requires s'.workers[w].Exited? || Closer(s', s)
    ensures Less(s', s)
  {
    CountUpdate(s.workers, w, s'.workers[w], Working());
  }

  lemma GiveUpLess(s: State, w: nat)
    requires Enabled(s, GiveUp(w))
    ensures Less(Apply(s, GiveUp(w)), s)
  {
    GiveUpCloser(s, w);
    SameWorking(s, w, Apply(s, GiveUp(w)));
  }

  lemma LookLess(s: State, w: nat, q: nat)
    requires Enabled(s, Look(w, q))
    ensures Less(RunLook(s, w, q), s)
  {
    LookCloser(s, w, q);
    SameWorking(s, w, RunLook(s, w, q));
  }

  lemma StepLess(s: State, w: nat)
    requires Enabled(s, Step(w))
    ensures Less(RunStep(s, w), s)
  {
    if !s.workers[w].FinalScan? { StepCloser(s, w); }
    SameWorking(s, w, RunStep(s, w));
  }

  /** Every step of a worker's own brings the pool closer to its end. */
  lemma OwnStepLess(s: State, act: Action)
    requires Enabled(s, act) && Own(act)
    ensures Less(Apply(s, act), s)
  {
    match act
    case TakeFront(w) => TakeLess(s, w, w, s.queues[w][0], s.queues[w][1..]);
    case TakeBack(w, q) => TakeLess(s, w, q, s.queues[q][|s.queues[q]| - 1], s.queues[q][..|s.queues[q]| - 1]);
    case Finish(w) => FinishLess(s, w);
    case GiveUp(w) => GiveUpLess(s, w);
    case Look(w, q) => LookLess(s, w, q);
    case Step(w) => StepLess(s, w);
    case _ =>
  }

  ghost predicate OwnTurn(run: seq<State>, i: nat)
    requires i + 1 < |run|
  {
    exists act :: Enabled(run[i], act) && Own(act) && run[i + 1] == Apply(run[i], act)
  }

  ghost predicate OwnTurns(run: seq<State>, from: nat) {
    forall i :: from <= i < |run| - 1 ==> OwnTurn(run, i)
  }

  lemma Appended(run: seq<State>, act: Action)
    requires IsRun(run) && Enabled(run[|run| - 1], act)
    ensures IsRun(run + [Apply(run[|run| - 1], act)])
    ensures Own(act) ==> OwnTurn(run + [Apply(run[|run| - 1], act)], |run| - 1)
  {
    var longer := run + [Apply(run[|run| - 1], act)];
    forall i | 0 <= i < |longer| - 1 ensures StepAt(longer, i) {
      if i < |run| - 1 {
        assert StepAt(run, i) && longer[i] == run[i] && longer[i + 1] == run[i + 1];
      } else {
        assert Enabled(longer[i], act) && longer[i + 1] == Apply(longer[i], act);
      }
    }
    assert Enabled(longer[|run| - 1], act);
  }

  lemma OwnTurnStays(run: seq<State>, longer: seq<State>, full: seq<State>)
    requires |run| > 0 && run <= longer <= full && |longer| == |run| + 1 && OwnTurn(longer, |run| - 1) && OwnTurns(full, |run|)
    ensures run <= full && OwnTurns(full, |run| - 1)
  {
    assert full[|run| - 1] == longer[|run| - 1] && full[|run|] == longer[|run|];
    assert OwnTurn(full, |run| - 1);
  }

  lemma OneMore(run: seq<State>) returns (more: bool, longer: seq<State>)
    requires IsRun(run) && Sized(run[|run| - 1])
    ensures more ==>
              && IsRun(longer) && run <= longer && |longer| == |run| + 1 && OwnTurn(longer, |run| - 1)
              && Sized(longer[|run|]) && Less(longer[|run|], run[|run| - 1])
    ensures !more ==> AtRest(run[|run| - 1])
  {
    var s := run[|run| - 1];
    more, longer := false, run;
    if act :| Own(act) && Enabled(s, act) {
      more, longer := true, run + [Apply(s, act)];
      OwnStepLess(s, act);
      Appended(run, act);
    }
  }

  lemma {:induction false} Exhaust(run: seq<State>) returns (full: seq<State>)
    requires IsRun(run) && Sized(run[|run| - 1])
    ensures IsRun(full) && run <= full && OwnTurns(full, |run| - 1)
    ensures AtRest(full[|full| - 1])
    decreases Tasks(run[|run| - 1].queues), Tasks(run[|run| - 1].stacks), Count(run[|run| - 1].workers, Working()),
              Calls(run[|run| - 1]), Rounds(run[|run| - 1])
  {
    var more, longer := OneMore(run);
    if more {
      full := Exhaust(longer);
      OwnTurnStays(run, longer, full);
    } else {
      full := run;
    }
  }

  /** Shutdown completes: from every reachable state in which the destructor has announced itself, the
      workers come to an end by steps of their own, in whatever order they take them, and then all of them
      have exited, every queue is empty, and every task submitted has run exactly once. */
  lemma ShutdownCompletes(run: seq<State>) returns (full: seq<State>)
    requires IsRun(run) && run[|run| - 1].announced
    ensures IsRun(full) && run <= full && OwnTurns(full, |run| - 1)
    ensures AllExited(full[|full| - 1]) && AllEmpty(full[|full| - 1].queues)
    ensures full[|full| - 1].submitted == run[|run| - 1].submitted
    ensures var ran := full[|full| - 1].ran; forall t: nat :: t < full[|full| - 1].submitted ==> Times(ran, t) == 1
  {
    RunAwake(run, |run| - 1);
    full := Exhaust(run);
    OwnKeeps(full, |run| - 1, |full| - 1);
    NobodyLeftAsleep(full, |full| - 1);
    ShutdownLosesNothing(full, |full| - 1);
  }

  /** A submitter can always finish its notification. */
  lemma {:induction false} Settled(run: seq<State>) returns (longer: seq<State>)
    requires IsRun(run) && Sized(run[|run| - 1])
    ensures IsRun(longer) && run <= longer && longer[|longer| - 1].pending == 0
    ensures longer[|longer| - 1].submitted == run[|run| - 1].submitted
    ensures Sized(longer[|longer| - 1])
    decreases run[|run| - 1].pending
  {
    var s := run[|run| - 1];
    longer := run;
    if s.pending > 0 {
      var w: nat := 0;
      if u :| 0 <= u < |s.workers| && Sleeps(s, u) { w := u; }
      assert Enabled(s, Notify(w, true));
      Appended(run, Notify(w, true));
      longer := Settled(run + [Apply(s, Notify(w, true))]);
    }
  }

  /** So every run, wherever it stands, can be shut down: the destructor sets mDone and announces it. */
  lemma EveryRunCanBeShutDown(run: seq<State>) returns (full: seq<State>)
    requires IsRun(run)
    ensures IsRun(full) && run <= full && AllExited(full[|full| - 1])
  {
    RunAwake(run, |run| - 1);
    var longer := Settled(run);
    RunAwake(longer, |longer| - 1);
    if !longer[|longer| - 1].done {
      Appended(longer, SetDone);
      longer := longer + [Apply(longer[|longer| - 1], SetDone)];
    }
    if !longer[|longer| - 1].announced {
      Appended(longer, Announce);
      longer := longer + [Apply(longer[|longer| - 1], Announce)];
    }
    full := ShutdownCompletes(longer);
  }

  lemma {:induction false} OwnKeeps(run: seq<State>, i: nat, j: nat)
    requires IsRun(run) && i <= j < |run| && OwnTurns(run, i)
    ensures run[j].submitted == run[i].submitted && run[j].announced == run[i].announced && run[j].pending == run[i].pending
  {
    if i < j {
      OwnKeeps(run, i, j - 1);
      assert OwnTurn(run, j - 1);
      var act :| Enabled(run[j - 1], act) && Own(act) && run[j] == Apply(run[j - 1], act);
      OwnKeepsOne(run[j - 1], act);
    }
  }

  lemma OwnKeepsOne(s: State, act: Action)
    requires Enabled(s, act) && Own(act)
    ensures Apply(s, act).submitted == s.submitted && Apply(s, act).announced == s.announced && Apply(s, act).pending == s.pending
  {
  }
}
