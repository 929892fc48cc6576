/**
 What becomes of every notification: one Notify(false) wakes exactly one thread, signals are neither
 lost nor made up over whole runs, a call that notifies nobody has seen that there was nobody to
 notify, and every call that is not parked finishes when it runs alone.
 */
module EventCountSignals {
  import opened EventCount
  import opened EventCountInvariant

  // ------------------------------------------------------------ one notification

  /** A Notify(false) whose compare-exchange succeeds while some thread in prewait has no signal adds one
      signal and touches nothing else; otherwise it takes the top waiter off the stack and owes it a
      signal, and every other waiter stays where it was. */
  lemma NotifyOneTakesEffect(s: State, t: nat)
    requires Inv(s) && Enabled(s, t, Run(false)) && s.pcs[t].NotifyCas? && !s.pcs[t].all && s.word == s.pcs[t].s
    ensures var s' := Apply(s, t, Run(false));
            if s.word.signals < s.word.waiters then
              && s'.word.signals == s.word.signals + 1 && s'.word.waiters == s.word.waiters && s'.word.top == s.word.top
              && s'.pcs[t] == Idle && s'.stack == s.stack && s'.home == s.home && s'.waiters == s.waiters && s'.owed == s.owed
            else
              && s.stack != [] && s'.stack == s.stack[1..] && s'.word.top == Link(s.stack, s.waiters, 1)
              && s'.word.signals == s.word.signals && s'.word.waiters == s.word.waiters
              && s'.pcs[t] == Detached(s.stack[0]) && s'.owed[t] == [s.stack[0]]
              && s'.home == s.home[s.stack[0] := OwedBy(t)] && s'.waiters == s.waiters
  {
    assert AgentAt(s, t);
    if s.word.signals >= s.word.waiters {
      PopStack(s, s.pcs[t].next, t, s.pcs[t].armed);
    }
  }

  // ------------------------------------------------------------ signals and waiters over a run

  /** granted, popped: notifications of one thread, in prewait or off the stack.  covered, detached: what
      notifications of all threads added in signals and took from the stack.  consumed, cancelled, parked:
      signals used by CommitWait, signals taken away by CancelWait, and threads put on the stack. */
  datatype Ledger = Ledger(granted: int, popped: int, covered: int, detached: int, consumed: int, cancelled: int, parked: int)

  /** What a step of t from s to s' adds, by where t was and where it went. */
  function Record(l: Ledger, s: State, t: nat, s': State): Ledger
    requires t < |s.pcs| && t < |s'.pcs|
  {
    match s.pcs[t]
    case CommitCas(_) =>
      if s'.pcs[t].Idle? then l.(consumed := l.consumed + 1)
      else if s'.pcs[t].Parking? then l.(parked := l.parked + 1) else l
    case CancelCas(_) =>
      if s'.pcs[t].Idle? && s.word.signals == s.word.waiters then l.(cancelled := l.cancelled + 1) else l
    case NotifyCas(all, _, _, _) =>
      if s'.pcs[t].NotifyDecide? then l
      else if all then l.(covered := l.covered + s.word.waiters - s.word.signals, detached := l.detached + |s.stack|)
      else if s'.pcs[t].Idle? then l.(granted := l.granted + 1)
      else l.(popped := l.popped + 1)
    case _ => l
  }

  function LedgerAt(run: seq<State>, turns: seq<Turn>, i: nat): Ledger
    requires i < |run| == |turns| + 1
    requires forall k :: 0 <= k < |turns| ==> TurnAt(run, turns, k)
  {
    if i == 0 then Ledger(0, 0, 0, 0, 0, 0, 0)
    else
      assert TurnAt(run, turns, i - 1);
      Moves(run[i - 1], turns[i - 1].t, turns[i - 1].act);
      Record(LedgerAt(run, turns, i - 1), run[i - 1], turns[i - 1].t, run[i])
  }

  lemma Moves(s: State, t: nat, act: Action)
    requires Enabled(s, t, act)
    ensures |Apply(s, t, act).pcs| == |s.pcs|
  {
  }

  /** Pending and used signals are the granted ones; threads on and off the stack are the parked ones. */
  predicate Balanced(l: Ledger, w: Word, stack: seq<nat>) {
    && w.signals + l.consumed + l.cancelled == l.granted + l.covered
    && |stack| + l.popped + l.detached == l.parked
  }

  lemma CommitBalanced(l: Ledger, s: State, t: nat, spurious: bool, s': State)
    requires Inv(s) && Enabled(s, t, Run(spurious)) && s.pcs[t].CommitCas? && Balanced(l, s.word, s.stack)
    requires s' == RunCommitCas(s, t, s.pcs[t].s, spurious)
    ensures Balanced(Record(l, s, t, s'), s'.word, s'.stack)
  {
    assert AgentAt(s, t);
  }

  lemma CancelBalanced(l: Ledger, s: State, t: nat, spurious: bool, s': State)
    requires Inv(s) && Enabled(s, t, Run(spurious)) && s.pcs[t].CancelCas? && Balanced(l, s.word, s.stack)
    requires s' == RunCancelCas(s, t, s.pcs[t].s, spurious)
    ensures Balanced(Record(l, s, t, s'), s'.word, s'.stack)
  {
    assert AgentAt(s, t);
  }

  lemma NotifyBalanced(l: Ledger, s: State, t: nat, spurious: bool, s': State)
    requires Inv(s) && Enabled(s, t, Run(spurious)) && s.pcs[t].NotifyCas? && Balanced(l, s.word, s.stack)
    requires s' == Apply(s, t, Run(spurious))
    ensures Balanced(Record(l, s, t, s'), s'.word, s'.stack)
  {
    assert AgentAt(s, t);
    var p := s.pcs[t];
    if s.word == p.s && !spurious && !p.all { NotifyOneTakesEffect(s, t); }
  }

  lemma OthersBalanced(s: State, t: nat, act: Action)
    requires Enabled(s, t, act) && !s.pcs[t].CommitCas? && !s.pcs[t].CancelCas? && !s.pcs[t].NotifyCas?
    ensures Apply(s, t, act).word.signals == s.word.signals && Apply(s, t, act).stack == s.stack
  {
  }

  lemma BalancedStep(l: Ledger, s: State, t: nat, act: Action)
    requires Inv(s) && Enabled(s, t, act) && Balanced(l, s.word, s.stack)
    ensures Balanced(Record(l, s, t, Apply(s, t, act)), Apply(s, t, act).word, Apply(s, t, act).stack)
  {
    var p, s' := s.pcs[t], Apply(s, t, act);
    if p.CommitCas? {
      CommitBalanced(l, s, t, act.spurious, s');
    } else if p.CancelCas? {
      CancelBalanced(l, s, t, act.spurious, s');
    } else if p.NotifyCas? {
      NotifyBalanced(l, s, t, act.spurious, s');
    } else {
      OthersBalanced(s, t, act);
    }
  }

  /** Conservation: at every moment of every run the pending signals are those granted less those used,
      and the threads on the stack are those parked less those taken off it. */
  lemma {:induction false} SignalsConserved(run: seq<State>, turns: seq<Turn>, i: nat)
    requires IsHistory(run, turns) && i < |run|
    ensures var l := LedgerAt(run, turns, i);
            && run[i].word.signals == l.granted + l.covered - l.consumed - l.cancelled
            && |run[i].stack| == l.parked - l.popped - l.detached
  {
    if i > 0 {
      SignalsConserved(run, turns, i - 1);
      HistoryIsRun(run, turns);
      RunInv(run, i - 1);
      assert TurnAt(run, turns, i - 1);
      BalancedStep(LedgerAt(run, turns, i - 1), run[i - 1], turns[i - 1].t, turns[i - 1].act);
    }
  }

  /** Once every call has returned: each signal was used by a thread that left prewait, and each parked
      thread was taken off the stack and signalled, as often as it parked. */
  lemma EverythingAnswered(run: seq<State>, turns: seq<Turn>, i: nat)
    requires IsHistory(run, turns) && i < |run| && forall t :: 0 <= t < |run[i].pcs| ==> run[i].pcs[t].Idle?
    ensures var l := LedgerAt(run, turns, i);
            l.granted + l.covered == l.consumed + l.cancelled && l.popped + l.detached == l.parked
    ensures |run[i].wakes| == |run[i].waiters|
    ensures forall w :: 0 <= w < |run[i].waiters| ==> run[i].wakes[w] == run[i].waiters[w].epoch
  {
    SignalsConserved(run, turns, i);
    HistoryIsRun(run, turns);
    RunInv(run, i);
    QuiescentWord(run[i]);
    var s := run[i];
    EmptyStack(s);
    forall w | 0 <= w < |s.waiters| ensures s.wakes[w] == s.waiters[w].epoch { assert WaiterOk(s, w); }
  }

  // ------------------------------------------------------------ what a call rests on

  /** The operation that the program point belongs to. */
  datatype Operation = NoCall | InPrewaitCall | InCancelCall | InCommitCall | InNotifyCall(all: bool)

  function OperationOf(p: Pc): Operation {
    match p
    case PrewaitStart => InPrewaitCall
    case PrewaitCas(_) => InPrewaitCall
    case CancelStart => InCancelCall
    case CancelCas(_) => InCancelCall
    case CommitStart => InCommitCall
    case CommitLoad => InCommitCall
    case CommitStore(_) => InCommitCall
    case CommitCas(_) => InCommitCall
    case NotifyStart(all, _) => InNotifyCall(all)
    case NotifyDecide(all, _, _) => InNotifyCall(all)
    case NotifyCas(all, _, _, _) => InNotifyCall(all)
    case _ => NoCall
  }

  /** The word the operation has loaded and not yet acted on. */
  predicate Loaded(p: Pc) {
    p.PrewaitCas? || p.CancelCas? || p.CommitStore? || p.CommitCas? || p.NotifyDecide? || p.NotifyCas?
  }

  /** From p to q: a word comes into the local variables only by reading the shared one, in the same operation. */
  predicate LoadsFrom(p: Pc, word: Word, q: Pc) {
    Loaded(q) ==> OperationOf(p) == OperationOf(q) && ((Loaded(p) && p.s == q.s) || q.s == word)
  }

  lemma WorkerLoads(s: State, t: nat, spurious: bool)
    requires Enabled(s, t, Run(spurious)) && !Notifying(s.pcs[t])
    ensures LoadsFrom(s.pcs[t], s.word, Apply(s, t, Run(spurious)).pcs[t])
  {
    match s.pcs[t]
    case PrewaitCas(w) => assert LoadsFrom(s.pcs[t], s.word, RunPrewaitCas(s, t, w, spurious).pcs[t]);
    case CancelCas(w) => assert LoadsFrom(s.pcs[t], s.word, RunCancelCas(s, t, w, spurious).pcs[t]);
    case CommitStart => assert !Loaded(RunCommitStart(s, t).pcs[t]);
    case CommitStore(w) => assert LoadsFrom(s.pcs[t], s.word, RunCommitStore(s, t, w).pcs[t]);
    case CommitCas(w) => assert LoadsFrom(s.pcs[t], s.word, RunCommitCas(s, t, w, spurious).pcs[t]);
    case Parking => assert !Loaded(RunPark(s, t).pcs[t]);
    case _ =>
  }

  lemma NotifierLoads(s: State, t: nat, spurious: bool)
    requires Enabled(s, t, Run(spurious)) && Trying(s.pcs[t])
    ensures LoadsFrom(s.pcs[t], s.word, Apply(s, t, Run(spurious)).pcs[t])
  {
    match s.pcs[t]
    case NotifyStart(all, armed) => assert LoadsFrom(s.pcs[t], s.word, RunNotifyLoad(s, t, all, armed).pcs[t]);
    case NotifyDecide(all, armed, w) => assert LoadsFrom(s.pcs[t], s.word, RunNotifyDecide(s, t, all, armed, w).pcs[t]);
    case NotifyCas(_, _, _, _) => NotifyCasLoads(s, t, spurious);
  }

  lemma NotifyCasLoads(s: State, t: nat, spurious: bool)
    requires Enabled(s, t, Run(spurious)) && s.pcs[t].NotifyCas?
    ensures LoadsFrom(s.pcs[t], s.word, Apply(s, t, Run(spurious)).pcs[t])
  {
    var NotifyCas(all, armed, w, next) := s.pcs[t];
    var s' := RunNotifyCas(s, t, all, armed, w, next, spurious);
    assert Apply(s, t, Run(spurious)) == s';
  }

  lemma UnparkerLoadsNothing(s: State, t: nat, spurious: bool)
    requires Enabled(s, t, Run(spurious)) && Notifying(s.pcs[t]) && !Trying(s.pcs[t])
    ensures !Loaded(Apply(s, t, Run(spurious)).pcs[t])
  {
    match s.pcs[t]
    case Detached(w) => assert !Loaded(RunDetach(s, t, w).pcs[t]);
    case UnparkLock(w, after) => assert !Loaded(RunUnparkLock(s, t, w, after).pcs[t]);
    case UnparkWake(w, after) => assert !Loaded(RunUnparkWake(s, t, w, after).pcs[t]);
    case Unpark(_) =>
  }

  /** A step of another thread moves t at most out of its sleep. */
  lemma OtherMoves(s: State, a: nat, act: Action, t: nat)
    requires Enabled(s, a, act) && t < |s.pcs| && a != t
    ensures Apply(s, a, act).pcs[t] == s.pcs[t] || (s.pcs[t].Asleep? && Apply(s, a, act).pcs[t].Parking?)
  {
    if act.Run? && s.pcs[a].UnparkWake? {
      assert Apply(s, a, act) == RunUnparkWake(s, a, s.pcs[a].w, s.pcs[a].after);
    }
  }

  lemma LoadedStep(s: State, s': State, t: nat)
    requires Next(s, s') && t < |s'.pcs|
    ensures t < |s.pcs| && LoadsFrom(s.pcs[t], s.word, s'.pcs[t])
  {
    var a: nat, act :| Enabled(s, a, act) && s' == Apply(s, a, act);
    Moves(s, a, act);
    if a != t {
      OtherMoves(s, a, act, t);
    } else if !act.Run? {
      assert !Loaded(Apply(s, a, act).pcs[t]);
    } else if Trying(s.pcs[t]) {
      NotifierLoads(s, t, act.spurious);
    } else if Notifying(s.pcs[t]) {
      UnparkerLoadsNothing(s, t, act.spurious);
    } else {
      WorkerLoads(s, t, act.spurious);
    }
  }

  /** From moment j to moment i thread t is in one and the same call. */
  predicate SameCall(run: seq<State>, j: nat, i: nat, t: nat)
    requires j <= i < |run| && t < |run[i].pcs|
  {
    forall k :: j <= k <= i ==> t < |run[k].pcs| && OperationOf(run[k].pcs[t]) == OperationOf(run[i].pcs[t])
  }

  /** The word an operation acts on was in mState at some moment inside this very call. */
  lemma {:induction false} LoadedInCall(run: seq<State>, i: nat, t: nat) returns (j: nat)
    requires IsRun(run) && i < |run| && t < |run[i].pcs| && Loaded(run[i].pcs[t])
    ensures j < i && run[j].word == run[i].pcs[t].s && SameCall(run, j, i, t)
  {
    assert i > 0;
    assert StepAt(run, i - 1);
    LoadedStep(run[i - 1], run[i], t);
    if run[i - 1].word == run[i].pcs[t].s {
      j := i - 1;
    } else {
      j := LoadedInCall(run, i - 1, t);
    }
  }

  /** A call of Notify stops trying in one of two ways: its compare-exchange has just succeeded, which the
      ledger records, or the word it had loaded had nobody to notify. */
  lemma StopsTrying(s: State, t: nat, act: Action)
    requires Enabled(s, t, act) && Trying(s.pcs[t]) && !Trying(Apply(s, t, act).pcs[t])
    ensures s.pcs[t].NotifyDecide? ==> NothingToNotify(s.pcs[t].s) && Apply(s, t, act).word == s.word
    ensures !s.pcs[t].NotifyDecide? ==> s.pcs[t].NotifyCas? && s.word == s.pcs[t].s && act == Run(false)
  {
    if s.pcs[t].NotifyCas? {
      var NotifyCas(all, armed, w, next) := s.pcs[t];
      assert Apply(s, t, act) == RunNotifyCas(s, t, all, armed, w, next, act.spurious);
    }
  }

  /** Whenever Notify stops without having just succeeded, there was a moment inside this call when nobody was
      on the stack and every thread in prewait had its signal. */
  lemma NotifyAnswered(run: seq<State>, turns: seq<Turn>, i: nat) returns (j: nat)
    requires IsHistory(run, turns) && i < |turns|
    requires Enabled(run[i], turns[i].t, turns[i].act) && turns[i].t < |run[i + 1].pcs|
    requires Trying(run[i].pcs[turns[i].t]) && !Trying(run[i + 1].pcs[turns[i].t])
    ensures j <= i && SameCall(run, j, i, turns[i].t)
    ensures || (run[i].pcs[turns[i].t].NotifyDecide? && run[j].stack == [] && run[j].word.signals == run[j].word.waiters)
            || (j == i && run[i].pcs[turns[i].t].NotifyCas? && !run[i + 1].pcs[turns[i].t].NotifyDecide?
                && LedgerAt(run, turns, i + 1) == Record(LedgerAt(run, turns, i), run[i], turns[i].t, run[i + 1]))
  {
    HistoryIsRun(run, turns);
    var t := turns[i].t;
    assert TurnAt(run, turns, i);
    StopsTrying(run[i], t, turns[i].act);
    if run[i].pcs[t].NotifyDecide? {
      j := LoadedInCall(run, i, t);
      RunInv(run, j);
      EmptyStack(run[j]);
    } else {
      j := i;
    }
  }
}
