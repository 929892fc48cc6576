/**
 The dynamically started threads of the blocking pool (async/concurrent/blocking_work_queue.h).  All
 bookkeeping happens under one mutex, so a step is what a thread does between taking and releasing
 it; a waiting thread releases it, and may be woken or time out at any moment.  Tasks run without
 the mutex.  Accepted tasks are numbered in order.
 */
module DynamicThreads {
  import opened Counting

  datatype Thread =
    | Running(task: nat)
    | Between           // the task is done, the mutex is not yet taken
    | Waiting           // in WaitNextTask
    | Exited

  /** dynamic, idle, queue, stop: mNumDynamicThreads, mNumIdleDynamicThreads, mIdleTaskQueue, mStopWaiting.
      accepted: how many tasks were taken; ran: those that finished; refused: how many went back. */
  datatype State = State(max: nat, dynamic: int, idle: int, queue: seq<nat>, stop: bool, threads: seq<Thread>,
                         accepted: nat, ran: seq<nat>, refused: nat)

  datatype Action =
    | Submit            // RunBlockingTask
    | Finish(t: nat)
    | Lock(t: nat)      // WaitNextTask up to its wait
    | Wake(t: nat)      // the wait ends
    | Quiesce           // ask the waiting threads to stop
    | Quiesced          // all threads are gone

  predicate Enabled(s: State, act: Action) {
    match act
    case Submit => true
    case Finish(t) => t < |s.threads| && s.threads[t].Running?
    case Lock(t) => t < |s.threads| && s.threads[t].Between?
    case Wake(t) => t < |s.threads| && s.threads[t].Waiting?
    case Quiesce => true
    case Quiesced => s.stop && s.dynamic == 0
  }

  function RunSubmit(s: State): State {
    if |s.queue| < s.idle then s.(queue := s.queue + [s.accepted], accepted := s.accepted + 1)
    else if s.dynamic < s.max then
      s.(threads := s.threads + [Running(s.accepted)], dynamic := s.dynamic + 1, accepted := s.accepted + 1)
    else s.(refused := s.refused + 1)
  }

  /** The rest of WaitNextTask: take a task, or leave. */
  function Leave(s: State, t: nat): State
    requires t < |s.threads|
  {
    if s.queue != [] then s.(idle := s.idle - 1, queue := s.queue[1..], threads := s.threads[t := Running(s.queue[0])])
    else s.(idle := s.idle - 1, dynamic := s.dynamic - 1, threads := s.threads[t := Exited])
  }

  function Apply(s: State, act: Action): State
    requires Enabled(s, act)
  {
    match act
    case Submit => RunSubmit(s)
    case Finish(t) => s.(threads := s.threads[t := Between], ran := s.ran + [s.threads[t].task])
    case Lock(t) =>
      var s1 := s.(idle := s.idle + 1, threads := s.threads[t := Waiting]);
      if s.queue != [] || s.stop then Leave(s1, t) else s1
    case Wake(t) => Leave(s, t)
    case Quiesce => s.(stop := true)
    case Quiesced => s.(stop := false)
  }

  predicate Init(s: State) {
    s.dynamic == 0 && s.idle == 0 && s.queue == [] && !s.stop && s.threads == [] && s.accepted == 0 && s.ran == [] && s.refused == 0
  }

  ghost predicate Next(s: State, s': State) { exists act :: Enabled(s, act) && s' == Apply(s, act) }

  ghost predicate StepAt(run: seq<State>, i: nat)
    requires i + 1 < |run|
  {
    Next(run[i], run[i + 1])
  }

  ghost predicate IsRun(run: seq<State>) {
    |run| > 0 && Init(run[0]) && forall i :: 0 <= i < |run| - 1 ==> StepAt(run, i)
  }

  function IsWaiting(): Thread -> bool { (x: Thread) => x.Waiting? }
  function IsAlive(): Thread -> bool { (x: Thread) => !x.Exited? }
  function Runs(t: nat): Thread -> bool { (x: Thread) => x == Running(t) }

  /** Task t, once accepted, is in the queue, with one thread, or done. */
  predicate Placed(s: State, t: nat) {
    Times(s.queue, t) + Count(s.threads, Runs(t)) + Times(s.ran, t) == if t < s.accepted then 1 else 0
  }

  predicate Inv(s: State) {
    && s.idle == Count(s.threads, IsWaiting())
    && s.dynamic == Count(s.threads, IsAlive())
    && |s.queue| <= s.idle && s.dynamic <= s.max
  }

  lemma CountAppend(s: seq<Thread>, x: Thread, f: Thread -> bool)
    ensures Count(s + [x], f) == Count(s, f) + (if f(x) then 1 else 0)
  {
    assert (s + [x])[..|s|] == s;
  }

  lemma LeaveInv(s: State, t: nat)
    requires s.idle == Count(s.threads, IsWaiting()) && s.dynamic == Count(s.threads, IsAlive())
    requires |s.queue| <= s.idle && s.dynamic <= s.max && t < |s.threads| && s.threads[t].Waiting?
    ensures Inv(Leave(s, t))
  {
    var x := Leave(s, t).threads[t];
    CountUpdate(s.threads, t, x, IsWaiting());
    CountUpdate(s.threads, t, x, IsAlive());
    CountHit(s.threads, t, IsWaiting());
  }

  lemma LeavePlaces(s: State, t: nat, task: nat)
    requires t < |s.threads| && s.threads[t].Waiting? && Placed(s, task)
    ensures Placed(Leave(s, t), task)
  {
    CountUpdate(s.threads, t, Leave(s, t).threads[t], Runs(task));
    if s.queue != [] { assert s.queue == [s.queue[0]] + s.queue[1..]; }
  }

  lemma NextInv(s: State, s': State)
    requires Inv(s) && Next(s, s')
    ensures Inv(s')
  {
    var act :| Enabled(s, act) && s' == Apply(s, act);
    match act
    case Submit => SubmitInv(s);
    case Finish(t) =>
      CountUpdate(s.threads, t, Between, IsWaiting());
      CountUpdate(s.threads, t, Between, IsAlive());
    case Lock(t) => LockInv(s, t);
    case Wake(t) => LeaveInv(s, t);
    case Quiesce =>
    case Quiesced =>
  }

  lemma SubmitPlaces(s: State, task: nat)
    requires Placed(s, task)
    ensures Placed(RunSubmit(s), task)
  {
    if |s.queue| < s.idle {
      TimesAppend(s.queue, s.accepted, task);
    } else {
      CountAppend(s.threads, Running(s.accepted), Runs(task));
    }
  }

  lemma SubmitInv(s: State)
    requires Inv(s)
    ensures Inv(RunSubmit(s))
  {
    CountAppend(s.threads, Running(s.accepted), IsWaiting());
    CountAppend(s.threads, Running(s.accepted), IsAlive());
  }

  lemma LockInv(s: State, t: nat)
    requires Inv(s) && t < |s.threads| && s.threads[t].Between?
    ensures Inv(Apply(s, Lock(t)))
  {
    var s1 := s.(idle := s.idle + 1, threads := s.threads[t := Waiting]);
    CountUpdate(s.threads, t, Waiting, IsWaiting());
    CountUpdate(s.threads, t, Waiting, IsAlive());
    if s.queue != [] || s.stop { LeaveInv(s1, t); }
  }

  lemma FinishPlaces(s: State, t: nat, task: nat)
    requires t < |s.threads| && s.threads[t].Running? && Placed(s, task)
    ensures Placed(Apply(s, Finish(t)), task)
  {
    CountUpdate(s.threads, t, Between, Runs(task));
    TimesAppend(s.ran, s.threads[t].task, task);
  }

  lemma LockPlaces(s: State, t: nat, task: nat)
    requires t < |s.threads| && s.threads[t].Between? && Placed(s, task)
    ensures Placed(Apply(s, Lock(t)), task)
  {
    CountUpdate(s.threads, t, Waiting, Runs(task));
    if s.queue != [] || s.stop { LeavePlaces(s.(idle := s.idle + 1, threads := s.threads[t := Waiting]), t, task); }
  }

  lemma ApplyPlaces(s: State, act: Action, task: nat)
    requires Placed(s, task) && Enabled(s, act)
    ensures Placed(Apply(s, act), task)
  {
    if act.Submit? {
      SubmitPlaces(s, task);
    } else if act.Finish? {
      FinishPlaces(s, act.t, task);
    } else if act.Lock? {
      LockPlaces(s, act.t, task);
    } else if act.Wake? {
      LeavePlaces(s, act.t, task);
    }
  }

  lemma NextPlaces(s: State, s': State, task: nat)
    requires Placed(s, task) && Next(s, s')
    ensures Placed(s', task)
  {
    var act :| Enabled(s, act) && s' == Apply(s, act);
    ApplyPlaces(s, act, task);
  }

  lemma {:induction false} RunInv(run: seq<State>, i: nat, task: nat)
    requires IsRun(run) && i < |run|
    ensures Inv(run[i]) && Placed(run[i], task)
  {
    if i > 0 {
      RunInv(run, i - 1, task);
      assert StepAt(run, i - 1);
      NextInv(run[i - 1], run[i]);
      NextPlaces(run[i - 1], run[i], task);
    }
  }

  // ------------------------------------------------------------ what it is for

  /** Whenever the mutex is free there are no more queued tasks than idle threads, no more idle than
      started threads, and no more than the maximum of those. */
  lemma CountersOrdered(run: seq<State>, i: nat)
    requires IsRun(run) && i < |run|
    ensures |run[i].queue| <= run[i].idle <= run[i].dynamic <= run[i].max
  {
    RunInv(run, i, 0);
    CountImplies(run[i].threads, IsWaiting(), IsAlive());
  }

  /** An accepted task runs at most once, and until it has run it is queued or with a thread. */
  lemma AcceptedOnce(run: seq<State>, i: nat, task: nat)
    requires IsRun(run) && i < |run| && task < run[i].accepted
    ensures Times(run[i].ran, task) <= 1
    ensures Times(run[i].ran, task) == 0 ==> task in run[i].queue || Count(run[i].threads, Runs(task)) == 1
  {
    RunInv(run, i, task);
  }

  /** Without dynamic threads the idle queue is empty, as Quiesce asserts, and every task that was ever
      accepted has run exactly once. */
  lemma NoThreadsNoTasks(run: seq<State>, i: nat, task: nat)
    requires IsRun(run) && i < |run| && run[i].dynamic == 0
    ensures run[i].queue == []
    ensures task < run[i].accepted ==> Times(run[i].ran, task) == 1
  {
    CountersOrdered(run, i);
    RunInv(run, i, task);
    CountImplies(run[i].threads, Runs(task), IsAlive());
  }

  // ------------------------------------------------------------ which tasks are accepted

  /** A thread waits for which no task is queued. */
  predicate SpareThread(s: State) { |s.queue| < Count(s.threads, IsWaiting()) }

  /** A submitted task is refused exactly if no waiting thread is spare and as many threads as allowed have
      not exited.  Otherwise it goes to the end of the idle queue if a thread is spare, and to a thread of
      its own if none is; no other task moves. */
  lemma SubmitDecides(run: seq<State>, i: nat)
    requires IsRun(run) && i + 1 < |run| && run[i + 1] == Apply(run[i], Submit)
    ensures var s, s' := run[i], run[i + 1];
            && s'.ran == s.ran && s'.max == s.max
            && (if SpareThread(s) then
                  s'.accepted == s.accepted + 1 && s'.refused == s.refused
                  && s'.queue == s.queue + [s.accepted] && s'.threads == s.threads
                else if Count(s.threads, IsAlive()) < s.max then
                  s'.accepted == s.accepted + 1 && s'.refused == s.refused
                  && s'.queue == s.queue && s'.threads == s.threads + [Running(s.accepted)]
                else
                  s'.accepted == s.accepted && s'.refused == s.refused + 1
                  && s'.queue == s.queue && s'.threads == s.threads)
  {
    RunInv(run, i, 0);
  }

  predicate Ascending(q: seq<nat>, n: nat) {
    (forall i, j :: 0 <= i < j < |q| ==> q[i] < q[j]) && forall i :: 0 <= i < |q| ==> q[i] < n
  }

  lemma {:induction false} QueueAscends(run: seq<State>, i: nat)
    requires IsRun(run) && i < |run|
    ensures Ascending(run[i].queue, run[i].accepted)
  {
    if i > 0 {
      QueueAscends(run, i - 1);
      assert StepAt(run, i - 1);
      AscendsNext(run[i - 1], run[i]);
    }
  }

  lemma AscendsNext(s: State, s': State)
    requires Next(s, s') && Ascending(s.queue, s.accepted)
    ensures Ascending(s'.queue, s'.accepted)
  {
    var act :| Enabled(s, act) && s' == Apply(s, act);
    if act.Lock? || act.Wake? {
      assert s'.accepted == s.accepted && (s'.queue == s.queue || (s.queue != [] && s'.queue == s.queue[1..]));
    }
  }

  /** Waiting tasks are served in the order in which they came: a thread that ends its wait runs the oldest
      of them, and exits only if there is none. */
  lemma OldestFirst(run: seq<State>, i: nat, act: Action, task: nat)
    requires IsRun(run) && i + 1 < |run| && Enabled(run[i], act) && run[i + 1] == Apply(run[i], act)
    requires act.Lock? || act.Wake?
    ensures var p := run[i + 1].threads[act.t];
            && (p.Exited? ==> run[i].queue == [])
            && (p.Running? ==> p.task in run[i].queue && run[i + 1].queue == run[i].queue[1..])
            && (p.Running? && task in run[i].queue ==> p.task <= task)
  {
    QueueAscends(run, i);
  }

  /** A thread that is done with its task waits exactly if no task is queued and nobody asked the threads to
      stop, and a wait that ends does not start again. */
  lemma WaitsForWork(s: State, act: Action)
    requires Enabled(s, act) && (act.Lock? || act.Wake?)
    ensures Apply(s, act).threads[act.t].Waiting? <==> act.Lock? && s.queue == [] && !s.stop
  {
  }

  // ------------------------------------------------------------ the threads come to an end

  function ThreadWork(x: Thread): nat {
    match x
    case Running(_) => 3
    case Between => 2
    case Waiting => 1
    case Exited => 0
  }

  function ThreadsWork(threads: seq<Thread>): seq<nat> {
    seq(|threads|, t requires 0 <= t < |threads| => ThreadWork(threads[t]))
  }

  predicate OfThread(act: Action) { act.Finish? || act.Lock? || act.Wake? }

  lemma ThreadStepWorks(s: State, act: Action)
    requires Enabled(s, act) && OfThread(act)
    ensures var s' := Apply(s, act);
            && (|s'.queue| < |s.queue| || (s'.queue == s.queue && Total(ThreadsWork(s'.threads)) < Total(ThreadsWork(s.threads))))
            && s'.accepted == s.accepted && s'.stop == s.stop
  {
    var s' := Apply(s, act);
    TotalUpdate(ThreadsWork(s.threads), act.t, ThreadWork(s'.threads[act.t]));
    if s'.queue == s.queue {
      assert s'.threads == s.threads[act.t := s'.threads[act.t]];
      assert ThreadsWork(s'.threads) == ThreadsWork(s.threads)[act.t := ThreadWork(s'.threads[act.t])];
    }
  }

  lemma ThreadHasStep(s: State, t: nat) returns (act: Action)
    requires t < |s.threads| && !s.threads[t].Exited?
    ensures Enabled(s, act) && OfThread(act)
  {
    match s.threads[t]
    case Running(_) => act := Finish(t);
    case Between => act := Lock(t);
    case Waiting => act := Wake(t);
  }

  /** Every run can be continued by steps of its threads alone, each of which brings them closer to it, until
      no thread is left; then every task that was ever accepted has run exactly once. */
  lemma {:induction false} ThreadsFinish(run: seq<State>) returns (full: seq<State>)
    requires IsRun(run)
    ensures IsRun(full) && run <= full && full[|full| - 1].dynamic == 0
    ensures full[|full| - 1].stop == run[|run| - 1].stop
    ensures full[|full| - 1].accepted == run[|run| - 1].accepted
    ensures var last := full[|full| - 1]; forall task: nat :: task < last.accepted ==> Times(last.ran, task) == 1
    decreases |run[|run| - 1].queue|, Total(ThreadsWork(run[|run| - 1].threads))
  {
    var s := run[|run| - 1];
    if t :| 0 <= t < |s.threads| && !s.threads[t].Exited? {
      var act := ThreadHasStep(s, t);
      ThreadStepWorks(s, act);
      Appended(run, act);
      full := ThreadsFinish(run + [Apply(s, act)]);
    } else {
      full := run;
      RunInv(run, |run| - 1, 0);
      CountNone(s.threads, IsAlive());
      forall task: nat | task < s.accepted ensures Times(s.ran, task) == 1 { NoThreadsNoTasks(run, |run| - 1, task); }
    }
  }

  lemma Appended(run: seq<State>, act: Action)
    requires IsRun(run) && Enabled(run[|run| - 1], act)
    ensures IsRun(run + [Apply(run[|run| - 1], act)])
  {
    var longer := run + [Apply(run[|run| - 1], act)];
    forall i | 0 <= i < |longer| - 1 ensures StepAt(longer, i) {
      if i < |run| - 1 { assert StepAt(run, i) && longer[i] == run[i] && longer[i + 1] == run[i + 1]; }
    }
  }

  /** Quiesce: wherever the run stands, the threads can be asked to stop, they then finish what was accepted,
      and the caller comes back with no thread left and the pool ready to start threads that wait again. */
  lemma QuiesceReturns(run: seq<State>) returns (full: seq<State>)
    requires IsRun(run)
    ensures IsRun(full) && run <= full && |run| < |full| - 1
    ensures Enabled(full[|full| - 2], Quiesced) && full[|full| - 1] == Apply(full[|full| - 2], Quiesced)
    ensures var last := full[|full| - 1];
            && last.dynamic == 0 && !last.stop && last.queue == []
            && forall task: nat :: task < last.accepted ==> Times(last.ran, task) == 1
  {
    Appended(run, Quiesce);
    var stopped := ThreadsFinish(run + [Apply(run[|run| - 1], Quiesce)]);
    Appended(stopped, Quiesced);
    full := stopped + [Apply(stopped[|stopped| - 1], Quiesced)];
    CountersOrdered(stopped, |stopped| - 1);
  }
}
