/**
 HostContext::RunWhenReady (async/context/host_context.cpp): scan the values, and either call the
 callee at once, wait for the only unavailable value, or give every unavailable value a waiter that
 decrements a shared counter.  Values become available at any time, and a registered waiter runs
 once, at any time after its value is available.  The same value may be listed several times.
 */
module RunWhenReady {
  import opened Counting

  datatype Waiter = Unregistered | Registered | Ran

  datatype Phase =
    | Scanning(i: nat)      // values[..i] looked at
    | Registering(i: nat)   // waiters ..i given to their values
    | Returned

  /** unavailable: the values found unavailable, in order.  counter, freed: the shared record, made
      when there are at least two of them.  calls: how often the callee ran. */
  datatype State = State(phase: Phase, unavailable: seq<nat>, waiters: seq<Waiter>, counter: int, freed: bool,
                         calls: nat, available: seq<bool>)

  datatype Action =
    | Caller                    // the next step of RunWhenReady itself
    | BecomeAvailable(v: nat)
    | Wake(w: nat)              // waiter w runs

  predicate Listed(values: seq<nat>, n: nat) { forall i :: 0 <= i < |values| ==> values[i] < n }

  predicate Sized(values: seq<nat>, s: State) {
    Listed(values, |s.available|) && Listed(s.unavailable, |s.available|)
  }

  predicate Enabled(values: seq<nat>, s: State, act: Action) {
    && Sized(values, s)
    && match act
       case Caller => (s.phase.Scanning? && s.phase.i <= |values|)
                      || (s.phase.Registering? && s.phase.i <= |s.waiters| == |s.unavailable|)
       case BecomeAvailable(v) => v < |s.available| && !s.available[v]
       case Wake(w) => w < |s.waiters| == |s.unavailable| && s.waiters[w] == Registered && s.available[s.unavailable[w]]
  }

  function RunCaller(values: seq<nat>, s: State): State
    requires Enabled(values, s, Caller)
  {
    match s.phase
    case Scanning(i) =>
      if i < |values| then
        s.(phase := Scanning(i + 1),
           unavailable := if s.available[values[i]] then s.unavailable else s.unavailable + [values[i]])
      else if s.unavailable == [] then s.(phase := Returned, calls := s.calls + 1)
      else s.(phase := Registering(0), counter := |s.unavailable|,
              waiters := seq(|s.unavailable|, _ => Unregistered))
    case Registering(i) =>
      if i < |s.waiters| then s.(phase := Registering(i + 1), waiters := s.waiters[i := Registered])
      else s.(phase := Returned)
    case Returned => s
  }

  /** With a single unavailable value the waiter calls the callee; otherwise the waiter that brings
      the counter from one to zero does, and frees the record. */
  function RunWaiter(values: seq<nat>, s: State, w: nat): State
    requires Enabled(values, s, Wake(w))
  {
    var s1 := s.(waiters := s.waiters[w := Ran]);
    if |s.unavailable| == 1 then s1.(counter := 0, calls := s.calls + 1)
    else if s.counter == 1 then s1.(counter := 0, calls := s.calls + 1, freed := true)
    else s1.(counter := s.counter - 1)
  }

  function Apply(values: seq<nat>, s: State, act: Action): State
    requires Enabled(values, s, act)
  {
    match act
    case Caller => RunCaller(values, s)
    case BecomeAvailable(v) => s.(available := s.available[v := true])
    case Wake(w) => RunWaiter(values, s, w)
  }

  ghost predicate Next(values: seq<nat>, s: State, s': State) {
    exists act :: Enabled(values, s, act) && s' == Apply(values, s, act)
  }

  predicate Init(values: seq<nat>, s: State) {
    Listed(values, |s.available|) && s.phase == Scanning(0) && s.unavailable == [] && s.waiters == [] && s.counter == 0 && !s.freed && s.calls == 0
  }

  // ------------------------------------------------------------ the invariant

  function IsPending(): Waiter -> bool { w => w != Ran }

  predicate WaiterFits(s: State, w: nat)
    requires w < |s.waiters| == |s.unavailable| && Listed(s.unavailable, |s.available|)
  {
    && (s.waiters[w] == Ran ==> s.available[s.unavailable[w]])
    && (s.phase.Registering? ==> (s.waiters[w] == Unregistered <==> s.phase.i <= w))
    && (s.phase.Returned? ==> s.waiters[w] != Unregistered)
  }

  /** A value seen so far is available or was put on the list. */
  predicate SeenFits(values: seq<nat>, s: State, i: nat)
    requires i < |values| && values[i] < |s.available|
  {
    s.available[values[i]] || values[i] in s.unavailable
  }

  predicate PhaseFits(values: seq<nat>, s: State) {
    && (s.phase.Scanning? ==> s.phase.i <= |values| && s.waiters == [] && s.calls == 0 && s.counter == 0 && !s.freed)
    && (s.phase.Registering? ==> s.phase.i <= |s.waiters| && s.unavailable != [])
    && (!s.phase.Scanning? ==> |s.waiters| == |s.unavailable|)
    && (!s.phase.Scanning? && s.unavailable != [] ==>
          && s.counter == Count(s.waiters, IsPending())
          && s.calls == (if s.counter == 0 then 1 else 0)
          && (s.freed <==> s.counter == 0 && |s.unavailable| > 1))
    && (s.phase.Returned? && s.unavailable == [] ==> s.calls == 1 && !s.freed)
  }

  predicate Inv(values: seq<nat>, s: State) {
    && Sized(values, s) && PhaseFits(values, s)
    && (forall i :: 0 <= i < (if s.phase.Scanning? then s.phase.i else |values|) ==> SeenFits(values, s, i))
    && (!s.phase.Scanning? ==> forall w :: 0 <= w < |s.waiters| ==> WaiterFits(s, w))
  }

  lemma CallerInv(values: seq<nat>, s: State)
    requires Inv(values, s) && Enabled(values, s, Caller)
    ensures Inv(values, RunCaller(values, s))
  {
    var s' := RunCaller(values, s);
    forall i | 0 <= i < (if s'.phase.Scanning? then s'.phase.i else |values|) ensures SeenFits(values, s', i) {
      if s.phase.Scanning? && i < s.phase.i { assert SeenFits(values, s, i); }
      if !s.phase.Scanning? { assert SeenFits(values, s, i); }
    }
    if s.phase.Registering? && s.phase.i < |s.waiters| {
      CountUpdate(s.waiters, s.phase.i, Registered, IsPending());
      assert WaiterFits(s, s.phase.i);
      forall w | 0 <= w < |s.waiters| ensures WaiterFits(s', w) { assert WaiterFits(s, w); }
    }
    if s.phase.Registering? && s.phase.i == |s.waiters| {
      forall w | 0 <= w < |s.waiters| ensures WaiterFits(s', w) { assert WaiterFits(s, w); }
    }
    if s.phase.Scanning? && s'.phase.Registering? {
      CountAll(s'.waiters, IsPending());
    }
  }

  lemma WakeInv(values: seq<nat>, s: State, w: nat)
    requires Inv(values, s) && Enabled(values, s, Wake(w))
    ensures Inv(values, RunWaiter(values, s, w))
  {
    var s' := RunWaiter(values, s, w);
    CountUpdate(s.waiters, w, Ran, IsPending());
    CountHit(s.waiters, w, IsPending());
    CountAtMost(s.waiters, IsPending());
    forall i | 0 <= i < |values| ensures SeenFits(values, s', i) { assert SeenFits(values, s, i); }
    forall u | 0 <= u < |s'.waiters| ensures WaiterFits(s', u) {
      assert WaiterFits(s, u) && WaiterFits(s, w);
    }
  }

  lemma NextInv(values: seq<nat>, s: State, s': State)
    requires Inv(values, s) && Next(values, s, s')
    ensures Inv(values, s')
  {
    var act :| Enabled(values, s, act) && s' == Apply(values, s, act);
    match act
    case Caller => CallerInv(values, s);
    case Wake(w) => WakeInv(values, s, w);
    case BecomeAvailable(v) =>
      forall i | 0 <= i < (if s.phase.Scanning? then s.phase.i else |values|) ensures SeenFits(values, s', i) {
        assert SeenFits(values, s, i);
      }
      if !s.phase.Scanning? {
        forall w | 0 <= w < |s.waiters| ensures WaiterFits(s', w) { assert WaiterFits(s, w); }
      }
  }

  ghost predicate StepAt(values: seq<nat>, run: seq<State>, i: nat)
    requires i + 1 < |run|
  {
    Next(values, run[i], run[i + 1])
  }

  ghost predicate IsRun(values: seq<nat>, run: seq<State>) {
    |run| > 0 && Init(values, run[0]) && forall i :: 0 <= i < |run| - 1 ==> StepAt(values, run, i)
  }

  lemma {:induction false} RunInv(values: seq<nat>, run: seq<State>, i: nat)
    requires IsRun(values, run) && i < |run|
    ensures Inv(values, run[i])
  {
    if i > 0 {
      RunInv(values, run, i - 1);
      assert StepAt(values, run, i - 1);
      NextInv(values, run[i - 1], run[i]);
    }
  }

  /** In every reachable state the callee has run at most once, and only with every listed value
      available; a waiter that has yet to run finds the shared record still there. */
  lemma CalleeOnceAndNotEarly(values: seq<nat>, run: seq<State>, i: nat)
    requires IsRun(values, run) && i < |run|
    ensures run[i].calls <= 1
    ensures run[i].calls == 1 ==> forall j :: 0 <= j < |values| ==> values[j] < |run[i].available| && run[i].available[values[j]]
    ensures (exists w :: 0 <= w < |run[i].waiters| && run[i].waiters[w] != Ran) ==> !run[i].freed
  {
    RunInv(values, run, i);
    var s := run[i];
    forall j | s.calls == 1 && 0 <= j < |values| ensures s.available[values[j]] {
      assert SeenFits(values, s, j);
      if values[j] in s.unavailable {
        var w :| 0 <= w < |s.unavailable| && s.unavailable[w] == values[j];
        AllRan(s, w);
        assert WaiterFits(s, w);
      }
    }
    if w :| 0 <= w < |s.waiters| && s.waiters[w] != Ran {
      CountHit(s.waiters, w, IsPending());
    }
  }

  lemma AllRan(s: State, w: nat)
    requires w < |s.waiters| && Count(s.waiters, IsPending()) == 0
    ensures s.waiters[w] == Ran
  {
    if s.waiters[w] != Ran { CountHit(s.waiters, w, IsPending()); }
  }

  ghost predicate Quiescent(values: seq<nat>, s: State) { forall act :: !Enabled(values, s, act) }

  /** When nothing is left to do, the callee has run exactly once and a shared record was freed. */
  lemma CalleeRuns(values: seq<nat>, run: seq<State>, i: nat)
    requires IsRun(values, run) && i < |run| && Quiescent(values, run[i])
    ensures run[i].calls == 1 && (run[i].freed <==> |run[i].unavailable| > 1) && run[i].phase == Returned
  {
    RunInv(values, run, i);
    var s := run[i];
    assert !Enabled(values, s, Caller);
    forall w | 0 <= w < |s.waiters| ensures !IsPending()(s.waiters[w]) {
      assert WaiterFits(s, w);
      assert !Enabled(values, s, Wake(w)) && !Enabled(values, s, BecomeAvailable(s.unavailable[w]));
    }
    CountNone(s.waiters, IsPending());
  }

  // ------------------------------------------------------------ one undisturbed call

  /** The listed values that are not available, in order, as often as they are listed. */
  function NotYet(values: seq<nat>, available: seq<bool>): (u: seq<nat>)
    requires Listed(values, |available|)
  {
    if values == [] then []
    else
      var n := |values| - 1;
      NotYet(values[..n], available) + (if available[values[n]] then [] else [values[n]])
  }

  /** The state after n steps of the call itself. */
  function Undisturbed(values: seq<nat>, s: State, n: nat): State
    decreases n
  {
    if n == 0 || !Enabled(values, s, Caller) then s else Undisturbed(values, RunCaller(values, s), n - 1)
  }

  lemma {:induction false} UndisturbedMore(values: seq<nat>, s: State, n: nat)
    ensures var e := Undisturbed(values, s, n);
            Undisturbed(values, s, n + 1) == if Enabled(values, e, Caller) then RunCaller(values, e) else e
    decreases n
  {
    if n > 0 && Enabled(values, s, Caller) { UndisturbedMore(values, RunCaller(values, s), n - 1); }
  }

  lemma {:induction false} Scanned(values: seq<nat>, s: State, n: nat)
    requires Init(values, s) && n <= |values|
    ensures Undisturbed(values, s, n) == s.(phase := Scanning(n), unavailable := NotYet(values[..n], s.available))
    ensures Listed(NotYet(values[..n], s.available), |s.available|)
  {
    if n > 0 {
      Scanned(values, s, n - 1);
      UndisturbedMore(values, s, n - 1);
      assert values[..n][..n - 1] == values[..n - 1];
    }
  }

  lemma {:induction false} WaitersGiven(values: seq<nat>, s: State, n: nat)
    requires Init(values, s) && NotYet(values, s.available) != [] && n <= |NotYet(values, s.available)|
    ensures var u, e := NotYet(values, s.available), Undisturbed(values, s, |values| + 1 + n);
            && Listed(u, |s.available|) && e == s.(phase := Registering(n), unavailable := u, counter := |u|, waiters := e.waiters)
            && |e.waiters| == |u| && forall w :: 0 <= w < |u| ==> e.waiters[w] == if w < n then Registered else Unregistered
  {
    assert values[..|values|] == values;
    if n == 0 {
      Scanned(values, s, |values|);
      UndisturbedMore(values, s, |values|);
    } else {
      WaitersGiven(values, s, n - 1);
      UndisturbedMore(values, s, |values| + n);
    }
  }

  /** A call during which no value becomes available gives a waiter to exactly the listed values that are not
      available, one each time they are listed, and calls the callee at once if and only if there is none. */
  lemma CallUndisturbed(values: seq<nat>, s: State) returns (n: nat)
    requires Init(values, s)
    ensures var u, e := NotYet(values, s.available), Undisturbed(values, s, n);
            && e.phase == Returned && e.unavailable == u && e.available == s.available
            && |e.waiters| == |u| && (forall w :: 0 <= w < |u| ==> e.waiters[w] == Registered)
            && e.calls == (if u == [] then 1 else 0) && e.counter == |u|
  {
    var u := NotYet(values, s.available);
    assert values[..|values|] == values;
    if u == [] {
      n := |values| + 1;
      Scanned(values, s, |values|);
      UndisturbedMore(values, s, |values|);
    } else {
      n := |values| + 2 + |u|;
      WaitersGiven(values, s, |u|);
      UndisturbedMore(values, s, |values| + 1 + |u|);
    }
  }

  // ------------------------------------------------------------ every run can be completed

  function PhaseWork(values: seq<nat>, s: State): nat {
    match s.phase
    case Scanning(i) => if i <= |values| then |values| - i + 1 else 0
    case Registering(i) => if i <= |s.waiters| then |s.waiters| - i + 1 else 0
    case Returned => 0
  }

  function PhaseRank(s: State): nat {
    match s.phase
    case Scanning(_) => 2
    case Registering(_) => 1
    case Returned => 0
  }

  predicate Missing(a: bool) { !a }

  /** First the steps of the call count, then the values still to come, then the waiters still to run. */
  predicate Less(values: seq<nat>, s': State, s: State) {
    var v, v' := Count(s.available, Missing), Count(s'.available, Missing);
    || PhaseRank(s') < PhaseRank(s)
    || (PhaseRank(s') == PhaseRank(s) && PhaseWork(values, s') < PhaseWork(values, s))
    || (PhaseRank(s') == PhaseRank(s) && PhaseWork(values, s') == PhaseWork(values, s) && v' < v)
    || (PhaseRank(s') == PhaseRank(s) && PhaseWork(values, s') == PhaseWork(values, s) && v' == v
        && Count(s'.waiters, IsPending()) < Count(s.waiters, IsPending()))
  }

  lemma StepLess(values: seq<nat>, s: State, act: Action)
    requires Enabled(values, s, act)
    ensures Less(values, Apply(values, s, act), s)
  {
    match act
    case Caller =>
    case BecomeAvailable(v) => CountUpdate(s.available, v, true, Missing);
    case Wake(w) => CountUpdate(s.waiters, w, Ran, IsPending());
  }

  lemma OneMore(values: seq<nat>, run: seq<State>) returns (more: bool, longer: seq<State>)
    requires IsRun(values, run)
    ensures more ==> IsRun(values, longer) && run <= longer && |longer| == |run| + 1 && Less(values, longer[|run|], run[|run| - 1])
    ensures !more ==> Quiescent(values, run[|run| - 1])
  {
    var s := run[|run| - 1];
    more, longer := false, run;
    if act :| Enabled(values, s, act) {
      more, longer := true, run + [Apply(values, s, act)];
      StepLess(values, s, act);
      forall i | 0 <= i < |longer| - 1 ensures StepAt(values, longer, i) {
        if i < |run| - 1 { assert StepAt(values, run, i); }
      }
    }
  }

  /** Every step brings the run closer to its end, so every run can be continued, in whatever order, until
      nothing is left to do; then the callee has run exactly once. */
  lemma {:induction false} RunsComplete(values: seq<nat>, run: seq<State>) returns (full: seq<State>)
    requires IsRun(values, run)
    ensures IsRun(values, full) && run <= full && Quiescent(values, full[|full| - 1])
    ensures full[|full| - 1].calls == 1
    decreases PhaseRank(run[|run| - 1]), PhaseWork(values, run[|run| - 1]), Count(run[|run| - 1].available, Missing),
              Count(run[|run| - 1].waiters, IsPending())
  {
    var more, longer := OneMore(values, run);
    if more {
      full := RunsComplete(values, longer);
    } else {
      full := run;
      CalleeRuns(values, run, |run| - 1);
    }
  }
}
