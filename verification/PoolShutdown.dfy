/**
 Shutdown of the work-stealing pool (async/concurrent/work_queue_base.h, non_blocking_work_queue.h):
 workers take tasks, scan for work, count themselves blocked, and exit once they saw everybody
 blocked after mDone was set and then found every queue empty.

 Every atomic access is a step.  Looking for tasks (own queue, stealing, spinning) is one step that
 takes a task from some queue or gives up, so every schedule of the worker loop is covered.  The event
 count is what EventCountSignals proves of it: signals for threads in prewait, and threads parked until
 they are woken.  A task may submit tasks from its worker, into the worker's own queue or, when that
 is full, by running them on the spot; an external submitter pushes first and then notifies somebody
 unless it sees a spinning thread.
 */
module PoolShutdown {
  import opened Counting

  datatype Worker =
    | Idle
    | Running
    | Scan(seen: set<nat>)                // in NonEmptyQueueIndex after Prewait
    | Found(q: nat)
    | NothingFound                        // about to increment mBlocked
    | CheckDone
    | CheckBlocked
    | Committing                          // about to commit its wait
    | Parked                              // in CommitWait, until woken
    | FinalScan(seen: set<nat>, era: nat)
    | FinalFound
    | Exited(era: nat)

  /** stacks[w]: the tasks worker w is in the middle of, innermost last.  ran: tasks that finished.
      Tasks are numbered in order of submission.  signals: pending signals of the event count; woken[w]:
      parked worker w may go on.  pending: external submitters that have pushed and not yet notified.
      announced: the destructor has called Notify(true).  era counts the decrements of mBlocked; the eras in
      workers note its value when they saw everybody blocked.  last made the latest decrement. */
  datatype State = State(done: bool, blocked: int, queues: seq<seq<nat>>, stacks: seq<seq<nat>>, ran: seq<nat>,
                         submitted: nat, workers: seq<Worker>, signals: nat, woken: seq<bool>, pending: nat, announced: bool, era: nat, last: nat)

  datatype Action =
    | SubmitBack(q: nat)                  // an external thread, into a queue
    | RunOutside                          // an external thread whose queue was full
    | SetDone
    | Announce                            // the destructor's Notify(true)
    | Notify(w: nat, after: bool)         // Notify(false), to w if it wakes a parked worker; after a submission or not
    | SkipNotify(w: nat)                  // a submitter leaves its task to the spinning worker w
    | SubmitFront(w: nat)                 // the task that worker w is running
    | RunInside(w: nat)
    | Finish(w: nat)
    | TakeFront(w: nat)
    | TakeBack(w: nat, q: nat)
    | GiveUp(w: nat)                      // found no task: Prewait
    | Look(w: nat, q: nat)                // one queue of a scan
    | Step(w: nat)

  predicate Sized(s: State) { |s.queues| == |s.stacks| == |s.woken| == |s.workers| }

  predicate IsScan(p: Worker) { p.Scan? || p.FinalScan? }

  predicate Enabled(s: State, act: Action) {
    && Sized(s)
    && match act
       case SubmitBack(q) => !s.done && q < |s.queues|
       case RunOutside => !s.done
       case SetDone => !s.done && s.pending == 0
       case Announce => s.done && !s.announced
       case Notify(w, after) => (after ==> s.pending > 0) && (s.signals < Prewaiting(s) || Reaches(s, w))
       case SkipNotify(w) => s.pending > 0 && w < |s.workers| && s.workers[w].Idle?
       case SubmitFront(w) => w < |s.workers| && s.workers[w].Running?
       case RunInside(w) => w < |s.workers| && s.workers[w].Running?
       case Finish(w) => w < |s.workers| && s.workers[w].Running? && s.stacks[w] != []
       case TakeFront(w) => w < |s.workers| && s.workers[w].Idle? && s.queues[w] != []
       case TakeBack(w, q) => w < |s.workers| && q < |s.queues| && s.queues[q] != []
                              && (s.workers[w].Idle? || s.workers[w] == Found(q))
       case GiveUp(w) => w < |s.workers| && s.workers[w].Idle?
       case Look(w, q) => w < |s.workers| && IsScan(s.workers[w]) && q < |s.queues| && q !in s.workers[w].seen
       case Step(w) => w < |s.workers| && CanStep(s, w)
  }

  /** Between Prewait and the moment the wait is committed or cancelled. */
  predicate IsPrewait(p: Worker) { p.Scan? || p.NothingFound? || p.CheckDone? || p.CheckBlocked? || p.Committing? }

  function Prewaits(): Worker -> bool { (p: Worker) => IsPrewait(p) }

  function Prewaiting(s: State): nat { Count(s.workers, Prewaits()) }

  predicate Sleeps(s: State, w: nat)
    requires Sized(s)
  {
    w < |s.workers| && s.workers[w].Parked? && !s.woken[w]
  }

  /** A notification with a signal for everybody in prewait wakes a sleeper, if there is one. */
  predicate Reaches(s: State, w: nat)
    requires Sized(s)
  {
    Sleeps(s, w) || forall u :: 0 <= u < |s.workers| ==> !Sleeps(s, u)
  }

  /** A worker moves on by itself unless it runs, takes a task, scans, or is gone. */
  predicate CanStep(s: State, w: nat)
    requires Sized(s) && w < |s.workers|
  {
    var p := s.workers[w];
    && !p.Idle? && !p.Running? && !p.Exited?
    && (IsScan(p) ==> forall q :: 0 <= q < |s.queues| ==> q in p.seen)
    && (p.Found? ==> p.q < |s.queues| && s.queues[p.q] == [])
    && (p.Parked? ==> s.woken[w])
  }

  /** mBlocked counts a worker from its fetch_add to its fetch_sub. */
  predicate IsBlocked(p: Worker) {
    p.CheckDone? || p.CheckBlocked? || p.Committing? || p.Parked? || p.FinalScan? || p.FinalFound? || p.Exited?
  }

  function Blocked(): Worker -> bool { (p: Worker) => IsBlocked(p) }

  /** The innermost task of worker w returns. */
  function RunFinish(s: State, w: nat): (s': State)
    requires Sized(s) && w < |s.workers| && s.stacks[w] != []
    ensures Sized(s')
  {
    var n := |s.stacks[w]| - 1;
    s.(stacks := s.stacks[w := s.stacks[w][..n]], ran := s.ran + [s.stacks[w][n]],
       workers := if n == 0 then s.workers[w := Idle] else s.workers)
  }

  function RunTake(s: State, w: nat, q: nat, task: nat, rest: seq<nat>): (s': State)
    requires Sized(s) && w < |s.workers| && q < |s.queues|
    ensures Sized(s')
  {
    s.(queues := s.queues[q := rest], stacks := s.stacks[w := s.stacks[w] + [task]], workers := s.workers[w := Running])
  }

  function RunLook(s: State, w: nat, q: nat): (s': State)
    requires Enabled(s, Look(w, q))
    ensures Sized(s')
  {
    var p := s.workers[w];
    var to := if p.Scan? then (if s.queues[q] != [] then Found(q) else Scan(p.seen + {q}))
              else (if s.queues[q] != [] then FinalFound else FinalScan(p.seen + {q}, p.era));
    s.(workers := s.workers[w := to], signals := if to.Found? then AfterCancel(s) else s.signals)
  }

  /** CancelWait takes a signal away only if everybody in prewait has one. */
  function AfterCancel(s: State): nat { if s.signals == Prewaiting(s) && s.signals > 0 then s.signals - 1 else s.signals }

  /** WaitForWork between its scans. */
  function RunStep(s: State, w: nat): (s': State)
    requires Enabled(s, Step(w))
    ensures Sized(s')
  {
    match s.workers[w]
    case Scan(_) => s.(workers := s.workers[w := NothingFound])
    case Found(_) => s.(workers := s.workers[w := Idle])
    case NothingFound => s.(workers := s.workers[w := CheckDone], blocked := s.blocked + 1)
    case CheckDone => s.(workers := s.workers[w := if s.done then CheckBlocked else Committing])
    case CheckBlocked =>
      if s.blocked == |s.workers| then s.(workers := s.workers[w := FinalScan({}, s.era)], signals := AfterCancel(s))
      else s.(workers := s.workers[w := Committing])
    case Committing =>
      s.(workers := s.workers[w := Parked], woken := s.woken[w := s.signals > 0],
         signals := if s.signals > 0 then s.signals - 1 else 0)
    case Parked => Unblock(s, w)
    case FinalFound => Unblock(s, w)
    case FinalScan(_, era) => NotifyAll(s.(workers := s.workers[w := Exited(era)]))
    case _ => s
  }

  function NotifyAll(s: State): (s': State)
    ensures Sized(s) ==> Sized(s')
  {
    s.(signals := Prewaiting(s), woken := seq(|s.woken|, _ => true))
  }

  function RunNotify(s: State, w: nat): (s': State)
    requires Sized(s)
    ensures Sized(s')
  {
    if s.signals < Prewaiting(s) then s.(signals := s.signals + 1)
    else if Sleeps(s, w) then s.(woken := s.woken[w := true])
    else s
  }

  function Unblock(s: State, w: nat): (s': State)
    requires Sized(s) && w < |s.workers|
    ensures Sized(s')
  {
    s.(workers := s.workers[w := Idle], blocked := s.blocked - 1, era := s.era + 1, last := w)
  }

  function Apply(s: State, act: Action): (s': State)
    requires Enabled(s, act)
    ensures Sized(s')
  {
    match act
    case SubmitBack(q) => s.(queues := s.queues[q := s.queues[q] + [s.submitted]], submitted := s.submitted + 1, pending := s.pending + 1)
    case RunOutside => s.(ran := s.ran + [s.submitted], submitted := s.submitted + 1)
    case SetDone => s.(done := true)
    case Announce => NotifyAll(s).(announced := true)
    case Notify(w, after) => if after then RunNotify(s, w).(pending := s.pending - 1) else RunNotify(s, w)
    case SkipNotify(_) => s.(pending := s.pending - 1)
    case SubmitFront(w) => s.(queues := s.queues[w := [s.submitted] + s.queues[w]], submitted := s.submitted + 1)
    case RunInside(w) => s.(stacks := s.stacks[w := s.stacks[w] + [s.submitted]], submitted := s.submitted + 1)
    case Finish(w) => RunFinish(s, w)
    case TakeFront(w) => RunTake(s, w, w, s.queues[w][0], s.queues[w][1..])
    case TakeBack(w, q) => var n := |s.queues[q]| - 1; RunTake(s, w, q, s.queues[q][n], s.queues[q][..n])
    case GiveUp(w) => s.(workers := s.workers[w := Scan({})])
    case Look(w, q) => RunLook(s, w, q)
    case Step(w) => RunStep(s, w)
  }

  predicate Init(s: State) {
    && Sized(s) && |s.workers| > 0 && !s.done && !s.announced && s.blocked == 0 && s.signals == 0 && s.pending == 0 && s.ran == [] && s.submitted == 0 && s.era == 0
    && forall w :: 0 <= w < |s.workers| ==> s.queues[w] == [] && s.stacks[w] == [] && s.workers[w] == Idle
  }

  ghost predicate StepAt(run: seq<State>, i: nat)
    requires i + 1 < |run|
  {
    exists act :: Enabled(run[i], act) && run[i + 1] == Apply(run[i], act)
  }

  ghost predicate IsRun(run: seq<State>) {
    |run| > 0 && Init(run[0]) && forall i :: 0 <= i < |run| - 1 ==> StepAt(run, i)
  }

  // ------------------------------------------------------------ no task is lost or run twice

  /** How often t occurs in the piles. */
  function Pooled(piles: seq<seq<nat>>, t: nat): nat {
    if piles == [] then 0 else Pooled(piles[..|piles| - 1], t) + Times(piles[|piles| - 1], t)
  }

  lemma {:induction false} PooledUpdate(piles: seq<seq<nat>>, i: nat, v: seq<nat>, t: nat)
    requires i < |piles|
    ensures Pooled(piles[i := v], t) == Pooled(piles, t) + Times(v, t) - Times(piles[i], t)
  {
    var n := |piles| - 1;
    if i == n {
      assert piles[i := v][..n] == piles[..n];
    } else {
      PooledUpdate(piles[..n], i, v, t);
      assert piles[i := v][..n] == piles[..n][i := v];
    }
  }

  lemma {:induction false} PooledEmpty(piles: seq<seq<nat>>, t: nat)
    requires forall i :: 0 <= i < |piles| ==> piles[i] == []
    ensures Pooled(piles, t) == 0
  {
    if piles != [] { PooledEmpty(piles[..|piles| - 1], t); }
  }

  /** Task t, once submitted, is in one place: a queue, the stack of a worker, or among those that ran. */
  predicate Conserved(queues: seq<seq<nat>>, stacks: seq<seq<nat>>, ran: seq<nat>, submitted: nat, t: nat) {
    Pooled(queues, t) + Pooled(stacks, t) + Times(ran, t) == if t < submitted then 1 else 0
  }

  lemma TakeConserves(s: State, w: nat, q: nat, task: nat, rest: seq<nat>, t: nat)
    requires Sized(s) && w < |s.workers| && q < |s.queues|
    requires Times(s.queues[q], t) == Times(rest, t) + (if task == t then 1 else 0)
    requires Conserved(s.queues, s.stacks, s.ran, s.submitted, t)
    ensures var s' := RunTake(s, w, q, task, rest); Conserved(s'.queues, s'.stacks, s'.ran, s'.submitted, t)
  {
    PooledUpdate(s.queues, q, rest, t);
    PooledUpdate(s.stacks, w, s.stacks[w] + [task], t);
    TimesAppend(s.stacks[w], task, t);
  }

  lemma FinishConserves(s: State, w: nat, t: nat)
    requires Sized(s) && w < |s.workers| && s.stacks[w] != [] && Conserved(s.queues, s.stacks, s.ran, s.submitted, t)
    ensures var s' := RunFinish(s, w); Conserved(s'.queues, s'.stacks, s'.ran, s'.submitted, t)
  {
    var n := |s.stacks[w]| - 1;
    PooledUpdate(s.stacks, w, s.stacks[w][..n], t);
    TimesCut(s.stacks[w], t);
    TimesAppend(s.ran, s.stacks[w][n], t);
  }

  lemma SubmitConserves(s: State, act: Action, t: nat)
    requires Enabled(s, act) && (act.SubmitBack? || act.SubmitFront? || act.RunInside? || act.RunOutside?)
    requires Conserved(s.queues, s.stacks, s.ran, s.submitted, t)
    ensures var s' := Apply(s, act); Conserved(s'.queues, s'.stacks, s'.ran, s'.submitted, t)
  {
    var s', x := Apply(s, act), s.submitted;
    match act
    case SubmitBack(q) => PooledUpdate(s.queues, q, s.queues[q] + [x], t); TimesAppend(s.queues[q], x, t);
    case SubmitFront(w) => PooledUpdate(s.queues, w, [x] + s.queues[w], t); TimesAppend(s.queues[w], x, t);
    case RunInside(w) => PooledUpdate(s.stacks, w, s.stacks[w] + [x], t); TimesAppend(s.stacks[w], x, t);
    case RunOutside => TimesAppend(s.ran, x, t);
  }

  lemma ConservedStep(s: State, act: Action, t: nat)
    requires Enabled(s, act) && Conserved(s.queues, s.stacks, s.ran, s.submitted, t)
    ensures var s' := Apply(s, act); Conserved(s'.queues, s'.stacks, s'.ran, s'.submitted, t)
  {
    if act.SubmitBack? || act.SubmitFront? || act.RunInside? || act.RunOutside? {
      SubmitConserves(s, act, t);
    } else if act.Finish? {
      FinishConserves(s, act.w, t);
    } else if act.TakeFront? {
      TimesCut(s.queues[act.w], t);
      TakeConserves(s, act.w, act.w, s.queues[act.w][0], s.queues[act.w][1..], t);
    } else if act.TakeBack? {
      var n := |s.queues[act.q]| - 1;
      TimesCut(s.queues[act.q], t);
      TakeConserves(s, act.w, act.q, s.queues[act.q][n], s.queues[act.q][..n], t);
    } else {
      OthersKeepTasks(s, act);
    }
  }

  lemma OthersKeepTasks(s: State, act: Action)
    requires Enabled(s, act) && !act.SubmitBack? && !act.SubmitFront? && !act.RunInside? && !act.RunOutside?
    requires !act.Finish? && !act.TakeFront? && !act.TakeBack?
    ensures OnlyWorkers(s, Apply(s, act))
  {
  }

  /** Neither tasks nor the end of submissions are involved. */
  predicate OnlyWorkers(s: State, s': State) {
    s'.queues == s.queues && s'.stacks == s.stacks && s'.ran == s.ran && s'.submitted == s.submitted
  }

  /** A submitted task gets the next number and is, in the state after its submission, at the end of a queue
      that its submitter chose, on top of the submitting worker's stack, or has run; nothing else moves. */
  lemma SubmissionArrives(s: State, act: Action)
    requires Enabled(s, act) && (act.SubmitBack? || act.SubmitFront? || act.RunInside? || act.RunOutside?)
    ensures var s', x := Apply(s, act), s.submitted;
            && s'.submitted == x + 1 && s'.pending == s.pending + (if act.SubmitBack? then 1 else 0)
            && (act.SubmitBack? ==> s'.queues[act.q] == s.queues[act.q] + [x])
            && (act.SubmitFront? ==> s'.queues[act.w] == [x] + s.queues[act.w])
            && (act.RunInside? ==> s'.stacks[act.w] == s.stacks[act.w] + [x])
            && (act.RunOutside? ==> s'.ran == s.ran + [x])
            && (forall q :: 0 <= q < |s.queues| && !(act.SubmitBack? && q == act.q) && !(act.SubmitFront? && q == act.w) ==>
                  s'.queues[q] == s.queues[q])
            && (forall u :: 0 <= u < |s.stacks| && !(act.RunInside? && u == act.w) ==> s'.stacks[u] == s.stacks[u])
            && (!act.RunOutside? ==> s'.ran == s.ran) && s'.workers == s.workers
  {
  }

  /** A worker takes its own tasks from the end at which it submits, so the newest first, and those of others
      from the end at which outsiders submit; taking undoes submitting. */
  lemma TakingUndoesSubmitting(s: State, act: Action, w: nat, q: nat)
    requires Enabled(s, act) && w < |s.workers| && s.workers[w].Idle?
    ensures act == SubmitBack(q) ==>
              var s1 := Apply(s, act);
              Enabled(s1, TakeBack(w, q)) && Apply(s1, TakeBack(w, q)).queues == s.queues
              && Apply(s1, TakeBack(w, q)).stacks == s.stacks[w := s.stacks[w] + [s.submitted]]
    ensures act == TakeFront(w) ==>
              var s1 := Apply(s, act);
              && s.queues[w] == [s1.stacks[w][|s.stacks[w]|]] + s1.queues[w]
              && s1.stacks[w] == s.stacks[w] + [s.queues[w][0]]
  {
    if act == SubmitBack(q) {
      var n := |s.queues[q]|;
      assert (s.queues[q] + [s.submitted])[..n] == s.queues[q];
      assert s.queues[q := s.queues[q] + [s.submitted]][q := s.queues[q]] == s.queues;
    }
  }

  // ------------------------------------------------------------ who is blocked, and since when

  predicate AllBlocked(workers: seq<Worker>) { forall w :: 0 <= w < |workers| ==> IsBlocked(workers[w]) }

  predicate AllEmpty(queues: seq<seq<nat>>) { forall q :: 0 <= q < |queues| ==> queues[q] == [] }

  predicate SeenEmpty(queues: seq<seq<nat>>, seen: set<nat>) {
    forall q :: q in seen && q < |queues| ==> queues[q] == []
  }

  /** A worker in its final scan or gone, whose era is current: nobody has been unblocked since it saw
      everybody blocked, so the queues it has seen empty still are. */
  predicate EraFits(p: Worker, done: bool, era: nat, workers: seq<Worker>, queues: seq<seq<nat>>) {
    && (p.CheckBlocked? || p.FinalScan? || p.Exited? ==> done)
    && (p.FinalScan? || p.Exited? ==> p.era <= era)
    && (p.FinalScan? && p.era == era ==> AllBlocked(workers) && SeenEmpty(queues, p.seen))
    && (p.Exited? && p.era == era ==> AllBlocked(workers) && AllEmpty(queues))
  }

  predicate WorkerAt(s: State, w: nat)
    requires Sized(s) && w < |s.workers|
  {
    && EraFits(s.workers[w], s.done, s.era, s.workers, s.queues)
    && (s.stacks[w] != [] <==> s.workers[w].Running?)
  }

  /** The worker unblocked last can only be in a final scan that began after that. */
  predicate LastFits(s: State) {
    s.era > 0 ==>
      && s.last < |s.workers|
      && (s.workers[s.last].FinalScan? || s.workers[s.last].Exited? ==> s.workers[s.last].era == s.era)
  }

  predicate Inv(s: State) {
    && Sized(s) && |s.workers| > 0
    && s.blocked == Count(s.workers, Blocked())
    && (forall w :: 0 <= w < |s.workers| ==> WorkerAt(s, w))
    && LastFits(s)
  }

  /** While somebody is not blocked, no era in the workers is current. */
  lemma ActiveMeansStale(s: State, w: nat, u: nat)
    requires Inv(s) && w < |s.workers| && u < |s.workers| && !IsBlocked(s.workers[w])
    ensures s.workers[u].FinalScan? || s.workers[u].Exited? ==> s.workers[u].era < s.era
  {
    assert WorkerAt(s, u);
  }

  /** A step of a worker that is not blocked leaves the others as they were. */
  lemma ActiveStep(s: State, w: nat, s': State, p: Worker)
    requires Inv(s) && Sized(s') && w < |s.workers| && !IsBlocked(s.workers[w]) && !p.FinalScan? && !p.Exited? && !p.CheckBlocked?
    requires s'.workers == s.workers[w := p] && s'.done == s.done && s'.era == s.era && s'.last == s.last
    requires forall u :: 0 <= u < |s.workers| && u != w ==> s'.stacks[u] == s.stacks[u]
    requires s'.stacks[w] != [] <==> p.Running?
    requires s'.blocked == s.blocked + (if IsBlocked(p) then 1 else 0)
    ensures Inv(s')
  {
    CountUpdate(s.workers, w, p, Blocked());
    forall u | 0 <= u < |s'.workers| ensures WorkerAt(s', u) {
      assert WorkerAt(s, u);
      ActiveMeansStale(s, w, u);
    }
  }

  lemma EverybodyBlocked(workers: seq<Worker>)
    requires Count(workers, Blocked()) == |workers|
    ensures AllBlocked(workers)
  {
    forall w | 0 <= w < |workers| ensures IsBlocked(workers[w]) {
      if !IsBlocked(workers[w]) { CountMiss(workers, w, Blocked()); }
    }
  }

  /** A step of a blocked worker that stays blocked. */
  lemma BlockedStep(s: State, w: nat, s': State, p: Worker)
    requires Inv(s) && Sized(s') && w < |s.workers| && IsBlocked(s.workers[w]) && IsBlocked(p)
    requires s'.workers == s.workers[w := p] && s'.queues == s.queues && s'.stacks == s.stacks && s'.done == s.done
    requires s'.blocked == s.blocked && s'.era == s.era && s'.last == s.last
    requires EraFits(p, s.done, s.era, s'.workers, s.queues)
    requires s.workers[w].FinalScan? || s.workers[w].Exited? ==> (!p.FinalScan? && !p.Exited?) || p.era == s.workers[w].era
    requires !s.workers[w].FinalScan? && !s.workers[w].Exited? && (p.FinalScan? || p.Exited?) ==> p.era == s.era
    ensures Inv(s')
  {
    CountUpdate(s.workers, w, p, Blocked());
    forall u | 0 <= u < |s'.workers| ensures WorkerAt(s', u) {
      assert WorkerAt(s, u) && WorkerAt(s, w);
    }
  }

  lemma UnblockInv(s: State, w: nat)
    requires Inv(s) && w < |s.workers| && IsBlocked(s.workers[w])
    ensures Inv(Unblock(s, w))
  {
    var s' := Unblock(s, w);
    CountUpdate(s.workers, w, Idle, Blocked());
    forall u | 0 <= u < |s'.workers| ensures WorkerAt(s', u) {
      assert WorkerAt(s, u) && WorkerAt(s, w);
    }
  }

  lemma TakeInv(s: State, w: nat, q: nat, task: nat, rest: seq<nat>)
    requires Inv(s) && w < |s.workers| && q < |s.queues| && (s.workers[w].Idle? || s.workers[w].Found?)
    ensures Inv(RunTake(s, w, q, task, rest))
  {
    ActiveStep(s, w, RunTake(s, w, q, task, rest), Running);
  }

  lemma RunningInv(s: State, act: Action)
    requires Inv(s) && Enabled(s, act) && (act.SubmitFront? || act.RunInside? || act.Finish? || act.GiveUp?)
    ensures Inv(Apply(s, act))
  {
    assert WorkerAt(s, act.w);
    var s' := Apply(s, act);
    assert s'.workers == s.workers[act.w := s'.workers[act.w]];
    ActiveStep(s, act.w, s', s'.workers[act.w]);
  }

  lemma OutsideInv(s: State, act: Action)
    requires Inv(s) && Enabled(s, act) && (act.SubmitBack? || act.RunOutside? || act.SetDone? || act.Announce? || act.Notify? || act.SkipNotify?)
    ensures Inv(Apply(s, act))
  {
    var s' := Apply(s, act);
    forall u | 0 <= u < |s'.workers| ensures WorkerAt(s', u) {
      assert WorkerAt(s, u);
    }
  }

  lemma LookInv(s: State, w: nat, q: nat)
    requires Inv(s) && Enabled(s, Look(w, q))
    ensures Inv(RunLook(s, w, q))
  {
    var s' := RunLook(s, w, q);
    var p := s.workers[w];
    assert WorkerAt(s, w);
    if p.Scan? {
      ActiveStep(s, w, s', s'.workers[w]);
    } else {
      if p.era == s.era { StillBlocked(s.workers, w, s'.workers[w]); }
      BlockedStep(s, w, s', s'.workers[w]);
    }
  }

  lemma StillBlocked(workers: seq<Worker>, w: nat, p: Worker)
    requires AllBlocked(workers) && w < |workers| && IsBlocked(p)
    ensures AllBlocked(workers[w := p])
  {
  }

  lemma StepInv(s: State, w: nat)
    requires Inv(s) && Enabled(s, Step(w))
    ensures Inv(RunStep(s, w))
  {
    var p, s' := s.workers[w], RunStep(s, w);
    assert WorkerAt(s, w);
    if p.Parked? || p.FinalFound? {
      UnblockInv(s, w);
    } else if p.Scan? || p.Found? || p.NothingFound? {
      ActiveStep(s, w, s', s'.workers[w]);
    } else {
      BlockedMoves(s, w);
    }
  }

  lemma BlockedMoves(s: State, w: nat)
    requires Inv(s) && Enabled(s, Step(w))
    requires s.workers[w].CheckDone? || s.workers[w].CheckBlocked? || s.workers[w].Committing? || s.workers[w].FinalScan?
    ensures Inv(RunStep(s, w))
  {
    var p, s' := s.workers[w], RunStep(s, w);
    var p' := s'.workers[w];
    assert WorkerAt(s, w);
    if p'.FinalScan? {
      EverybodyBlocked(s.workers);
      StillBlocked(s.workers, w, p');
    }
    if p'.Exited? && p.era == s.era { StillBlocked(s.workers, w, p'); }
    BlockedStep(s, w, s', p');
  }

  lemma ApplyInv(s: State, act: Action)
    requires Inv(s) && Enabled(s, act)
    ensures Inv(Apply(s, act))
  {
    match act
    case SubmitBack(_) => OutsideInv(s, act);
    case RunOutside => OutsideInv(s, act);
    case SetDone => OutsideInv(s, act);
    case Announce => OutsideInv(s, act);
    case Notify(_, _) => OutsideInv(s, act);
    case SkipNotify(_) => OutsideInv(s, act);
    case SubmitFront(_) => RunningInv(s, act);
    case RunInside(_) => RunningInv(s, act);
    case Finish(_) => RunningInv(s, act);
    case GiveUp(_) => RunningInv(s, act);
    case TakeFront(w) => TakeInv(s, w, w, s.queues[w][0], s.queues[w][1..]);
    case TakeBack(w, q) => TakeInv(s, w, q, s.queues[q][|s.queues[q]| - 1], s.queues[q][..|s.queues[q]| - 1]);
    case Look(w, q) => LookInv(s, w, q);
    case Step(w) => StepInv(s, w);
  }

  lemma InitInv(s: State, t: nat)
    requires Init(s)
    ensures Inv(s) && Conserved(s.queues, s.stacks, s.ran, s.submitted, t)
  {
    CountNone(s.workers, Blocked());
    PooledEmpty(s.queues, t);
    PooledEmpty(s.stacks, t);
    forall w | 0 <= w < |s.workers| ensures WorkerAt(s, w) {}
  }

  lemma {:induction false} RunInv(run: seq<State>, i: nat, t: nat)
    requires IsRun(run) && i < |run|
    ensures Inv(run[i]) && Conserved(run[i].queues, run[i].stacks, run[i].ran, run[i].submitted, t)
  {
    if i == 0 {
      InitInv(run[0], t);
    } else {
      RunInv(run, i - 1, t);
      assert StepAt(run, i - 1);
      var act :| Enabled(run[i - 1], act) && run[i] == Apply(run[i - 1], act);
      ApplyInv(run[i - 1], act);
      ConservedStep(run[i - 1], act, t);
    }
  }

  // ------------------------------------------------------------ shutdown

  predicate AllExited(s: State) { forall w :: 0 <= w < |s.workers| ==> s.workers[w].Exited? }

  /** A task that was submitted has run at most once, wherever the pool is. */
  lemma AtMostOnce(run: seq<State>, i: nat, t: nat)
    requires IsRun(run) && i < |run|
    ensures Times(run[i].ran, t) <= if t < run[i].submitted then 1 else 0
  {
    RunInv(run, i, t);
  }

  /** When every worker has exited, every queue is empty and every submitted task ran exactly once. */
  lemma ShutdownLosesNothing(run: seq<State>, i: nat)
    requires IsRun(run) && i < |run| && AllExited(run[i])
    ensures AllEmpty(run[i].queues) && run[i].done
    ensures forall t: nat :: t < run[i].submitted ==> Times(run[i].ran, t) == 1
  {
    var s := run[i];
    RunInv(run, i, 0);
    var w := if s.era > 0 then s.last else 0;
    assert WorkerAt(s, w);
    forall t: nat | t < s.submitted ensures Times(s.ran, t) == 1 {
      RunInv(run, i, t);
      PooledEmpty(s.queues, t);
      forall u | 0 <= u < |s.stacks| ensures s.stacks[u] == [] { assert WorkerAt(s, u); }
      PooledEmpty(s.stacks, t);
    }
  }
}
