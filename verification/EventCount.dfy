/**
 EventCount (async/concurrent/event_count.h) as a state machine over its atomic steps.

 Agents 0 .. |waiters| - 1 are worker threads, each with its own waiter; any agent may notify.
 Every load, store, compare-exchange and mutex section of the C++ code is one step, and a weak
 compare-exchange may fail spuriously.  Epochs are unbounded here; EventCountWord relates the
 record below to the packed 64-bit word.

 Workers follow the contract of Prewait: they recheck the wait predicate `cond` and must cancel
 when they see it true.  A notifier is `armed` when it called Notify(true) after the predicate
 was set.  `armed`, `stack`, `owed`, `home`, `wakes` and `notified` are history variables:
 no step reads them to decide what to do.
 */
module EventCount {
  /** kStackMask read as an index: the empty stack. */
  const NIL: nat := 16383

  datatype Ref = Ref(index: nat, epoch: int)

  const EMPTY := Ref(NIL, 0)

  /** The word mState: stack top with its ABA epoch, prewait count, pending signals. */
  datatype Word = Word(top: Ref, waiters: int, signals: int)

  datatype Signal = NotSignaled | Waiting | Signaled

  datatype Waiter = Waiter(next: Ref, epoch: int, signal: Signal)

  /** Where a waiter's last push stands: still on the stack, detached and owed a signal by an
      agent, signalled with the condition variable still to be notified, or nothing open. */
  datatype Home = Away | OnStack | OwedBy(agent: nat) | WokenBy(agent: nat)

  datatype Pc =
    | Idle
    | PrewaitStart | PrewaitCas(s: Word) | Prewaiting
    | CancelStart | CancelCas(s: Word)
    | CommitStart | CommitLoad | CommitStore(s: Word) | CommitCas(s: Word)
    | Parking | Asleep
    | NotifyStart(all: bool, armed: bool) | NotifyDecide(all: bool, armed: bool, s: Word)
    | NotifyCas(all: bool, armed: bool, s: Word, next: Ref)
    | Detached(w: nat) | Unpark(w: nat) | UnparkLock(w: nat, after: nat) | UnparkWake(w: nat, after: nat)

  datatype State = State(
    word: Word, waiters: seq<Waiter>, pcs: seq<Pc>, cond: bool,
    stack: seq<nat>, owed: seq<seq<nat>>, home: seq<Home>, wakes: seq<int>, notified: bool)

  datatype Action =
    | CallPrewait               // a worker calls Prewait
    | Recheck(commit: bool)     // a worker rechecks the predicate and chooses CommitWait or CancelWait
    | SetCondition              // the predicate becomes true, for good
    | CallNotify(all: bool)
    | Run(spurious: bool)       // the next atomic step of the operation in progress

  // ------------------------------------------------------------ the word operations

  function AfterPrewait(w: Word): Word { w.(waiters := w.waiters + 1) }

  function AfterConsume(w: Word): Word { w.(waiters := w.waiters - 1, signals := w.signals - 1) }

  function AfterPush(w: Word, me: Ref): Word { Word(me, w.waiters - 1, 0) }

  function AfterCancel(w: Word): Word {
    if w.waiters == w.signals then AfterConsume(w) else w.(waiters := w.waiters - 1)
  }

  predicate NothingToNotify(w: Word) { w.top.index == NIL && w.waiters == w.signals }

  function AfterNotifyAll(w: Word): Word { Word(EMPTY, w.waiters, w.waiters) }

  function AfterSignal(w: Word): Word { w.(signals := w.signals + 1) }

  function AfterPop(w: Word, next: Ref): Word { w.(top := next) }

  // ------------------------------------------------------------ steps

  function At(s: State, t: nat, pc: Pc): State
    requires t < |s.pcs|
  {
    s.(pcs := s.pcs[t := pc])
  }

  predicate Enabled(s: State, t: nat, act: Action) {
    && t < |s.pcs| == |s.owed|
    && |s.home| == |s.wakes| == |s.waiters|
    && match act
       case CallPrewait => s.pcs[t].Idle? && t < |s.waiters|
       case Recheck(commit) => s.pcs[t].Prewaiting? && (s.cond ==> !commit)
       case SetCondition => s.pcs[t].Idle?
       case CallNotify(_) => s.pcs[t].Idle?
       case Run(_) => CanRun(s, t)
  }

  /** The operation in progress has a next step, and that step stays inside mWaiters. */
  predicate CanRun(s: State, t: nat)
    requires t < |s.pcs|
  {
    match s.pcs[t]
    case Idle => false
    case Prewaiting => false
    case CommitStart => t < |s.waiters|
    case CommitStore(_) => t < |s.waiters|
    case CommitCas(_) => t < |s.waiters|
    case Parking => t < |s.waiters|
    case NotifyDecide(all, _, w) => Pops(all, w) ==> w.top.index < |s.waiters|
    case NotifyCas(_, _, w, _) => w.top.index == NIL || w.top.index < |s.waiters|
    case Detached(w) => w < |s.waiters|
    case Unpark(w) => w < |s.waiters|
    case UnparkLock(w, _) => w < |s.waiters|
    case UnparkWake(w, _) => w < |s.waiters| <= |s.pcs|
    case _ => true
  }

  predicate Pops(all: bool, w: Word) { !NothingToNotify(w) && !all && w.signals >= w.waiters }

  /** A step of t moves no other agent, and the flags only rise. */
  predicate OnlyMoves(s: State, t: nat, r: State)
    requires t < |s.pcs|
  {
    t < |r.pcs| && r.pcs == s.pcs[t := r.pcs[t]] && (s.cond ==> r.cond) && (s.notified ==> r.notified)
  }

  /** No waiter was pushed: every push counter is what it was. */
  predicate SamePushes(s: State, r: State) {
    |r.waiters| == |s.waiters| && forall w :: 0 <= w < |s.waiters| ==> r.waiters[w].epoch == s.waiters[w].epoch
  }

  function Apply(s: State, t: nat, act: Action): (r: State)
    requires Enabled(s, t, act)
    ensures !(act.Run? && s.pcs[t].UnparkWake?) ==> OnlyMoves(s, t, r)
    ensures !(act.Run? && s.pcs[t].CommitCas?) ==> SamePushes(s, r)
  {
    match act
    case CallPrewait => At(s, t, PrewaitStart)
    case Recheck(commit) => At(s, t, if commit then CommitStart else CancelStart)
    case SetCondition => s.(cond := true)
    case CallNotify(all) => At(s, t, NotifyStart(all, all && s.cond))
    case Run(spurious) =>
      match s.pcs[t]
      case PrewaitStart => At(s, t, PrewaitCas(s.word))
      case PrewaitCas(w) => RunPrewaitCas(s, t, w, spurious)
      case CancelStart => At(s, t, CancelCas(s.word))
      case CancelCas(w) => RunCancelCas(s, t, w, spurious)
      case CommitStart => RunCommitStart(s, t)
      case CommitLoad => At(s, t, CommitStore(s.word))
      case CommitStore(w) => RunCommitStore(s, t, w)
      case CommitCas(w) => RunCommitCas(s, t, w, spurious)
      case Parking => RunPark(s, t)
      case Asleep => At(s, t, Parking)   // spurious wakeup of the condition variable
      case NotifyStart(all, armed) => RunNotifyLoad(s, t, all, armed)
      case NotifyDecide(all, armed, w) => RunNotifyDecide(s, t, all, armed, w)
      case NotifyCas(all, armed, w, next) => RunNotifyCas(s, t, all, armed, w, next, spurious)
      case Detached(w) => RunDetach(s, t, w)
      case Unpark(w) => At(s, t, UnparkLock(w, s.waiters[w].next.index))
      case UnparkLock(w, after) => RunUnparkLock(s, t, w, after)
      case UnparkWake(w, after) => RunUnparkWake(s, t, w, after)
  }

  function RunPrewaitCas(s: State, t: nat, w: Word, spurious: bool): (r: State)
    requires t < |s.pcs|
    ensures OnlyMoves(s, t, r) && SamePushes(s, r)
  {
    if s.word == w && !spurious then At(s, t, Prewaiting).(word := AfterPrewait(w))
    else At(s, t, PrewaitCas(s.word))
  }

  function RunCancelCas(s: State, t: nat, w: Word, spurious: bool): (r: State)
    requires t < |s.pcs|
    ensures OnlyMoves(s, t, r) && SamePushes(s, r)
  {
    if s.word == w && !spurious then At(s, t, Idle).(word := AfterCancel(w))
    else At(s, t, CancelCas(s.word))
  }

  function RunCommitStart(s: State, t: nat): (r: State)
    requires t < |s.pcs| && t < |s.waiters|
    ensures OnlyMoves(s, t, r) && SamePushes(s, r)
  {
    At(s, t, CommitLoad).(waiters := s.waiters[t := s.waiters[t].(signal := NotSignaled)])
  }

  function RunCommitStore(s: State, t: nat, w: Word): (r: State)
    requires t < |s.pcs| && t < |s.waiters|
    ensures OnlyMoves(s, t, r) && SamePushes(s, r)
  {
    if w.signals != 0 then At(s, t, CommitCas(w))
    else At(s, t, CommitCas(w)).(waiters := s.waiters[t := s.waiters[t].(next := w.top)])
  }

  /** The compare-exchange of CommitWait; the owner's epoch increment is merged into the push,
      since only the owner touches its epoch. */
  function RunCommitCas(s: State, t: nat, w: Word, spurious: bool): (r: State)
    requires t < |s.pcs| && t < |s.waiters| == |s.home|
    ensures OnlyMoves(s, t, r)
  {
    if s.word != w || spurious then At(s, t, CommitStore(s.word))
    else if w.signals != 0 then At(s, t, Idle).(word := AfterConsume(w))
    else
      At(s, t, Parking).(
        word := AfterPush(w, Ref(t, s.waiters[t].epoch)),
        waiters := s.waiters[t := s.waiters[t].(epoch := s.waiters[t].epoch + 1)],
        stack := [t] + s.stack,
        home := s.home[t := OnStack])
  }

  /** Park holds the waiter's mutex while it tests the state and goes to sleep. */
  function RunPark(s: State, t: nat): (r: State)
    requires t < |s.pcs| && t < |s.waiters| == |s.home|
    ensures OnlyMoves(s, t, r) && SamePushes(s, r)
  {
    if s.waiters[t].signal == Signaled then At(s, t, Idle).(home := s.home[t := Away])
    else At(s, t, Asleep).(waiters := s.waiters[t := s.waiters[t].(signal := Waiting)])
  }

  function RunNotifyLoad(s: State, t: nat, all: bool, armed: bool): (r: State)
    requires t < |s.pcs|
    ensures OnlyMoves(s, t, r) && SamePushes(s, r)
  {
    At(s, t, NotifyDecide(all, armed, s.word)).(
      notified := s.notified || (armed && NothingToNotify(s.word)))
  }

  function RunNotifyDecide(s: State, t: nat, all: bool, armed: bool, w: Word): (r: State)
    requires t < |s.pcs| && (Pops(all, w) ==> w.top.index < |s.waiters|)
    ensures OnlyMoves(s, t, r) && SamePushes(s, r)
  {
    if NothingToNotify(w) then At(s, t, Idle)
    else At(s, t, NotifyCas(all, armed, w, if Pops(all, w) then s.waiters[w.top.index].next else EMPTY))
  }

  function RunNotifyCas(s: State, t: nat, all: bool, armed: bool, w: Word, next: Ref, spurious: bool): (r: State)
    requires t < |s.pcs| == |s.owed| && |s.home| == |s.waiters|
    requires w.top.index == NIL || w.top.index < |s.waiters|
    ensures OnlyMoves(s, t, r) && SamePushes(s, r)
  {
    if s.word != w || spurious then RunNotifyLoad(s, t, all, armed)
    else if all then
      At(s, t, if w.top.index == NIL then Idle else Unpark(w.top.index)).(
        word := AfterNotifyAll(w), stack := [], owed := s.owed[t := s.stack],
        home := Rehome(s.home, s.stack, OwedBy(t)), notified := s.notified || armed)
    else if w.signals < w.waiters then At(s, t, Idle).(word := AfterSignal(w))
    else if w.top.index == NIL then At(s, t, Idle).(word := AfterPop(w, next))
    else
      At(s, t, Detached(w.top.index)).(
        word := AfterPop(w, next), stack := if s.stack == [] then [] else s.stack[1..],
        owed := s.owed[t := [w.top.index]], home := s.home[w.top.index := OwedBy(t)])
  }

  /** The history map after every waiter listed in `moved` changed to `to`. */
  function Rehome(home: seq<Home>, moved: seq<nat>, to: Home): (r: seq<Home>)
    ensures |r| == |home|
    ensures forall i :: 0 <= i < |home| ==> r[i] == if i in moved then to else home[i]
  {
    seq(|home|, i requires 0 <= i < |home| => if i in moved then to else home[i])
  }

  /** w->next.store(kStackMask) after a single pop. */
  function RunDetach(s: State, t: nat, w: nat): (r: State)
    requires t < |s.pcs| && w < |s.waiters|
    ensures OnlyMoves(s, t, r) && SamePushes(s, r)
  {
    At(s, t, Unpark(w)).(waiters := s.waiters[w := s.waiters[w].(next := EMPTY)])
  }

  /** The mutex section of Unpark for one waiter. */
  function RunUnparkLock(s: State, t: nat, w: nat, after: nat): (r: State)
    requires t < |s.pcs| == |s.owed| && w < |s.waiters| == |s.home| == |s.wakes|
    ensures OnlyMoves(s, t, r) && SamePushes(s, r)
  {
    var wasWaiting := s.waiters[w].signal == Waiting;
    At(s, t, if wasWaiting then UnparkWake(w, after) else if after == NIL then Idle else Unpark(after)).(
      waiters := s.waiters[w := s.waiters[w].(signal := Signaled)],
      owed := s.owed[t := if s.owed[t] == [] then [] else s.owed[t][1..]],
      home := s.home[w := if wasWaiting then WokenBy(t) else Away],
      wakes := s.wakes[w := s.wakes[w] + 1])
  }

  /** cv.notify_one, after the mutex was released. */
  function RunUnparkWake(s: State, t: nat, w: nat, after: nat): State
    requires t < |s.pcs| && w < |s.waiters| == |s.home| && |s.waiters| <= |s.pcs|
  {
    var s1 := At(s, t, if after == NIL then Idle else Unpark(after));
    if s.pcs[w].Asleep? then
      s1.(pcs := s1.pcs[w := Parking], home := if s.home[w] == WokenBy(t) then s.home[w := Away] else s.home)
    else s1.(home := if s.home[w] == WokenBy(t) then s.home[w := Away] else s.home)
  }

  ghost predicate Next(s: State, s': State) {
    exists t: nat, act: Action :: Enabled(s, t, act) && s' == Apply(s, t, act)
  }

  predicate Init(s: State) {
    && |s.waiters| < NIL && |s.waiters| <= |s.pcs|
    && s.word == Word(EMPTY, 0, 0)
    && s.stack == [] && !s.notified && !s.cond
    && |s.owed| == |s.pcs| && |s.home| == |s.wakes| == |s.waiters|
    && (forall t :: 0 <= t < |s.pcs| ==> s.pcs[t] == Idle && s.owed[t] == [])
    && (forall w :: 0 <= w < |s.waiters| ==> s.waiters[w].epoch == 0 && s.home[w] == Away && s.wakes[w] == 0)
  }

  ghost predicate IsRun(run: seq<State>) {
    && |run| > 0 && Init(run[0])
    && forall i :: 0 <= i < |run| - 1 ==> StepAt(run, i)
  }

  ghost predicate StepAt(run: seq<State>, i: nat)
    requires i + 1 < |run|
  {
    Next(run[i], run[i + 1])
  }

  /** A run together with who did what. */
  datatype Turn = Turn(t: nat, act: Action)

  predicate TurnAt(run: seq<State>, turns: seq<Turn>, i: nat)
    requires i < |turns| && i + 1 < |run|
  {
    Enabled(run[i], turns[i].t, turns[i].act) && run[i + 1] == Apply(run[i], turns[i].t, turns[i].act)
  }

  predicate IsHistory(run: seq<State>, turns: seq<Turn>) {
    && |run| == |turns| + 1 && Init(run[0])
    && forall i :: 0 <= i < |turns| ==> TurnAt(run, turns, i)
  }

  lemma HistoryIsRun(run: seq<State>, turns: seq<Turn>)
    requires IsHistory(run, turns)
    ensures IsRun(run)
  {
    forall i | 0 <= i < |run| - 1 ensures StepAt(run, i) { assert TurnAt(run, turns, i); }
  }
}
