/**
 AsyncValue (async/context/async_value.cpp, async_value.h): one word holds the waiter list and the
 state.  Any number of AndThen calls race with the single transition to an available state.  Each
 load, compare-exchange, exchange, link update and callback is one step; a weak compare-exchange
 may also fail for no reason.  Node t belongs to AndThen call t.
 */
module AsyncValues {
  import opened Counting

  datatype Ptr = Null | To(t: nat)
  datatype Avail = Unconstructed | Constructed | Concrete | Error

  predicate Available(a: Avail) { a.Concrete? || a.Error? }

  /** WaitersAndState. */
  datatype Word = Word(list: Ptr, state: Avail)

  datatype Adder =
    | Load
    | RunNow                          // found the value available
    | Link(seen: Word, state: Avail)   // about to set mNext; state is what new_value will carry
    | Cas(seen: Word, state: Avail)
    | RunList(list: Ptr)              // the value became available meanwhile: RunWaiters on its own node
    | Enqueued
    | Returned

  datatype Resolver = Exchange | Run(list: Ptr) | Resolved

  /** stack: nodes enqueued before the exchange, last one first.  done: how many of them the resolver ran.
      runs[t]: how often waiter t ran. */
  datatype State = State(word: Word, next: seq<Ptr>, adders: seq<Adder>, resolver: Resolver,
                         stack: seq<nat>, done: nat, runs: seq<nat>)

  datatype Action =
    | AndThen(t: nat, spurious: bool)   // spurious: a weak compare-exchange that fails for no reason
    | Resolve(to: Avail)

  predicate Sized(s: State) { |s.next| == |s.adders| == |s.runs| }

  predicate Enabled(s: State, act: Action) {
    && Sized(s)
    && match act
       case AndThen(t, _) => t < |s.adders| && !s.adders[t].Returned? && !s.adders[t].Enqueued?
                             && (s.adders[t].RunList? && s.adders[t].list.To? ==> s.adders[t].list.t < |s.next|)
       case Resolve(to) => !s.resolver.Resolved? && Available(to)
                           && (s.resolver.Run? && s.resolver.list.To? ==> s.resolver.list.t < |s.next|)
  }

  function RunAdder(s: State, t: nat, spurious: bool): (s': State)
    requires Enabled(s, AndThen(t, spurious))
    ensures Sized(s')
  {
    match s.adders[t]
    case Load =>
      s.(adders := s.adders[t := if Available(s.word.state) then RunNow else Link(s.word, s.word.state)])
    case RunNow => s.(adders := s.adders[t := Returned], runs := s.runs[t := s.runs[t] + 1])
    case Link(seen, state) => s.(adders := s.adders[t := Cas(seen, state)], next := s.next[t := seen.list])
    case Cas(seen, state) =>
      if s.word == seen && !spurious then
        s.(adders := s.adders[t := Enqueued], word := Word(To(t), state), stack := [t] + s.stack)
      else if Available(s.word.state) then s.(adders := s.adders[t := RunList(To(t))], next := s.next[t := Null])
      else s.(adders := s.adders[t := Link(s.word, state)])
    case RunList(list) =>
      if list == Null then s.(adders := s.adders[t := Returned])
      else s.(adders := s.adders[t := RunList(s.next[list.t])], runs := s.runs[list.t := s.runs[list.t] + 1])
    case _ => s
  }

  /** NotifyAvailable and RunWaiters. */
  function RunResolver(s: State, to: Avail): (s': State)
    requires Enabled(s, Resolve(to))
    ensures Sized(s')
  {
    match s.resolver
    case Exchange => s.(word := Word(Null, to), resolver := Run(s.word.list))
    case Run(list) =>
      if list == Null then s.(resolver := Resolved)
      else s.(resolver := Run(s.next[list.t]), runs := s.runs[list.t := s.runs[list.t] + 1], done := s.done + 1)
    case Resolved => s
  }

  function Apply(s: State, act: Action): State
    requires Enabled(s, act)
  {
    match act
    case AndThen(t, spurious) => RunAdder(s, t, spurious)
    case Resolve(to) => RunResolver(s, to)
  }

  ghost predicate Next(s: State, s': State) { exists act :: Enabled(s, act) && s' == Apply(s, act) }

  predicate Init(s: State) {
    && Sized(s) && s.word.list == Null && !Available(s.word.state) && s.resolver == Exchange
    && s.stack == [] && s.done == 0
    && forall t :: 0 <= t < |s.adders| ==> s.adders[t] == Load && s.runs[t] == 0
  }

  // ------------------------------------------------------------ the invariant

  function At(stack: seq<nat>, i: nat): Ptr { if i < |stack| then To(stack[i]) else Null }

  predicate Linked(next: seq<Ptr>, stack: seq<nat>, i: nat)
    requires i < |stack|
  {
    stack[i] < |next| && next[stack[i]] == At(stack, i + 1)
  }

  /** The list is the stack, each node once. */
  predicate Chain(next: seq<Ptr>, stack: seq<nat>) {
    && (forall i :: 0 <= i < |stack| ==> Linked(next, stack, i))
    && (forall i, j :: 0 <= i < j < |stack| ==> stack[i] != stack[j])
  }

  /** Before the exchange the word shows the stack; after it the list is empty for good and the
      resolver is about to run entry `done`. */
  predicate WordFits(word: Word, resolver: Resolver, stack: seq<nat>, done: nat) {
    && done <= |stack|
    && (Available(word.state) <==> !resolver.Exchange?)
    && (resolver.Exchange? ==> word.list == At(stack, 0) && done == 0)
    && (!resolver.Exchange? ==> word.list == Null)
    && (resolver.Run? ==> resolver.list == At(stack, done))
    && (resolver.Resolved? ==> done == |stack|)
  }

  /** How often waiter t ran: as the state of its call and the resolver's progress say. */
  predicate AdderFits(word: Word, next: seq<Ptr>, t: nat, p: Adder, stack: seq<nat>, done: nat, runs: nat)
    requires t < |next|
  {
    && (p.Enqueued? <==> t in stack)
    && (p.RunNow? || p.RunList? || p.Returned? ==> Available(word.state))
    && (p.RunList? ==> p.list == Null || (p.list == To(t) && next[t] == Null))
    && (p.Link? || p.Cas? ==> !Available(p.state) && p.seen.state == p.state)
    && ((p.Link? || p.Cas?) && !Available(word.state) ==> word.state == p.state)
    && (p.Cas? ==> next[t] == p.seen.list)
    && runs == (if p.Returned? || p == RunList(Null) || t in stack[..if done <= |stack| then done else 0] then 1 else 0)
  }

  predicate AdderAt(s: State, t: nat)
    requires Sized(s) && t < |s.adders|
  {
    AdderFits(s.word, s.next, t, s.adders[t], s.stack, s.done, s.runs[t])
  }

  predicate Inv(s: State) {
    && Sized(s) && Chain(s.next, s.stack) && WordFits(s.word, s.resolver, s.stack, s.done)
    && forall t :: 0 <= t < |s.adders| ==> AdderAt(s, t)
  }

  /** Nodes that are not in the list can change their link. */
  lemma ChainFrame(next: seq<Ptr>, stack: seq<nat>, t: nat, p: Ptr)
    requires Chain(next, stack) && t < |next| && t !in stack
    ensures Chain(next[t := p], stack)
  {
    var next' := next[t := p];
    forall i | 0 <= i < |stack| ensures Linked(next', stack, i) {
      assert Linked(next, stack, i);
      assert stack[i] in stack;
    }
  }

  lemma ChainPush(next: seq<Ptr>, stack: seq<nat>, t: nat)
    requires Chain(next, stack) && t < |next| && t !in stack && next[t] == At(stack, 0)
    ensures Chain(next, [t] + stack)
  {
    var st := [t] + stack;
    forall i | 0 <= i < |st| ensures Linked(next, st, i) {
      if i > 0 { assert Linked(next, stack, i - 1); }
    }
  }

  lemma EnqueueInv(s: State, t: nat)
    requires Inv(s) && t < |s.adders| && s.adders[t].Cas? && s.word == s.adders[t].seen
    ensures Inv(RunAdder(s, t, false))
  {
    var s' := RunAdder(s, t, false);
    assert AdderAt(s, t);
    ChainPush(s.next, s.stack, t);
    forall u | 0 <= u < |s'.adders| ensures AdderAt(s', u) {
      assert AdderAt(s, u);
      assert u in s'.stack <==> u == t || u in s.stack;
    }
  }

  lemma AdderInv(s: State, t: nat, spurious: bool)
    requires Inv(s) && Enabled(s, AndThen(t, spurious))
    ensures Inv(RunAdder(s, t, spurious))
  {
    if s.adders[t].Cas? && s.word == s.adders[t].seen && !spurious {
      EnqueueInv(s, t);
    } else {
      var s' := RunAdder(s, t, spurious);
      assert AdderAt(s, t);
      ChainFrame(s.next, s.stack, t, s'.next[t]);
      assert s'.next == s.next[t := s'.next[t]];
      forall u | 0 <= u < |s'.adders| ensures AdderAt(s', u) {
        assert AdderAt(s, u);
      }
    }
  }

  lemma ResolverInv(s: State, to: Avail)
    requires Inv(s) && Enabled(s, Resolve(to))
    ensures Inv(RunResolver(s, to))
  {
    var s' := RunResolver(s, to);
    if s.resolver.Run? && s.done < |s.stack| {
      assert Linked(s.next, s.stack, s.done);
      assert s.stack[..s.done + 1] == s.stack[..s.done] + [s.stack[s.done]];
    }
    forall u | 0 <= u < |s'.adders| ensures AdderAt(s', u) {
      assert AdderAt(s, u);
    }
  }

  // ------------------------------------------------------------ runs

  ghost predicate StepAt(run: seq<State>, i: nat)
    requires i + 1 < |run|
  {
    Next(run[i], run[i + 1])
  }

  ghost predicate IsRun(run: seq<State>) {
    |run| > 0 && Init(run[0]) && forall i :: 0 <= i < |run| - 1 ==> StepAt(run, i)
  }

  lemma NextInv(s: State, s': State)
    requires Inv(s) && Next(s, s')
    ensures Inv(s')
  {
    var act :| Enabled(s, act) && s' == Apply(s, act);
    match act
    case AndThen(t, spurious) => AdderInv(s, t, spurious);
    case Resolve(to) => ResolverInv(s, to);
  }

  lemma {:induction false} RunInv(run: seq<State>, i: nat)
    requires IsRun(run) && i < |run|
    ensures Inv(run[i])
  {
    if i == 0 {
      forall t | 0 <= t < |run[0].adders| ensures AdderAt(run[0], t) {}
    } else {
      RunInv(run, i - 1);
      assert StepAt(run, i - 1);
      NextInv(run[i - 1], run[i]);
    }
  }

  /** An available word has an empty list, and stays what it is. */
  lemma AvailableIsFinal(run: seq<State>, i: nat)
    requires IsRun(run) && i < |run| && Available(run[i].word.state)
    ensures run[i].word.list == Null
    ensures i + 1 < |run| ==> run[i + 1].word == run[i].word
  {
    RunInv(run, i);
    if i + 1 < |run| {
      assert StepAt(run, i);
      var act :| Enabled(run[i], act) && run[i + 1] == Apply(run[i], act);
      if act.AndThen? { assert AdderAt(run[i], act.t); }
    }
  }

  /** In every reachable state no waiter has run twice, and none before the value was available. */
  lemma NeverEarlyNorTwice(run: seq<State>, i: nat, t: nat)
    requires IsRun(run) && i < |run| && t < |run[i].runs|
    ensures run[i].runs[t] <= 1
    ensures run[i].runs[t] == 1 ==> Available(run[i].word.state)
  {
    RunInv(run, i);
    assert AdderAt(run[i], t);
  }

  ghost predicate Quiescent(s: State) { forall act :: !Enabled(s, act) }

  lemma EnqueuedRan(s: State, t: nat)
    requires Inv(s) && s.resolver.Resolved? && t < |s.adders| && (s.adders[t].Enqueued? || s.adders[t].Returned?)
    ensures s.runs[t] == 1
  {
    assert AdderAt(s, t);
    assert s.stack[..|s.stack|] == s.stack;
  }

  /** When no step is left, every waiter has run exactly once. */
  lemma EveryWaiterRunsOnce(run: seq<State>, i: nat, t: nat)
    requires IsRun(run) && i < |run| && Quiescent(run[i]) && t < |run[i].runs|
    ensures run[i].runs[t] == 1
  {
    RunInv(run, i);
    var s := run[i];
    assert AdderAt(s, t) && !Enabled(s, AndThen(t, false));
    if s.done < |s.stack| { assert Linked(s.next, s.stack, s.done); }
    assert !Enabled(s, Resolve(Concrete));
    EnqueuedRan(s, t);
  }

  /** The resolver runs the waiters it found in the reverse order of their enqueueing. */
  lemma LastEnqueuedRunsFirst(run: seq<State>, i: nat, act: Action)
    requires IsRun(run) && i + 1 < |run| && act.Resolve? && Enabled(run[i], act) && run[i + 1] == Apply(run[i], act)
    requires run[i].resolver.Run? && run[i].resolver.list.To?
    ensures run[i].done < |run[i].stack|
    ensures run[i].resolver.list == To(run[i].stack[run[i].done])
    ensures run[i + 1].stack == run[i].stack && run[i + 1].done == run[i].done + 1
  {
    RunInv(run, i);
  }

  // ------------------------------------------------------------ the state it ends in

  predicate TurnAt(run: seq<State>, acts: seq<Action>, i: nat)
    requires i < |acts| && i + 1 < |run|
  {
    Enabled(run[i], acts[i]) && run[i + 1] == Apply(run[i], acts[i])
  }

  /** A run together with what was done. */
  predicate IsHistory(run: seq<State>, acts: seq<Action>) {
    |run| == |acts| + 1 && Init(run[0]) && forall i :: 0 <= i < |acts| ==> TurnAt(run, acts, i)
  }

  lemma HistoryIsRun(run: seq<State>, acts: seq<Action>)
    requires IsHistory(run, acts)
    ensures IsRun(run)
  {
    forall i | 0 <= i < |run| - 1 ensures StepAt(run, i) { assert TurnAt(run, acts, i); }
  }

  lemma StateStep(s: State, act: Action)
    requires Inv(s) && Enabled(s, act)
    ensures Apply(s, act).word.state == if act.Resolve? && s.resolver.Exchange? then act.to else s.word.state
    ensures s.resolver.Exchange? && act.AndThen? ==> Apply(s, act).resolver.Exchange?
    ensures !s.resolver.Exchange? || act.Resolve? ==> !Apply(s, act).resolver.Exchange?
  {
    if act.AndThen? { assert AdderAt(s, act.t); }
  }

  /** Until the first step of the resolver the state is the one the value was created with, however many
      waiters are added; from then on it is the one the resolver was called with, and no other. */
  lemma {:induction false} StateIsResolved(run: seq<State>, acts: seq<Action>, i: nat) returns (j: nat)
    requires IsHistory(run, acts) && i < |run|
    ensures (forall k :: 0 <= k < i ==> !acts[k].Resolve?) ==> run[i].word.state == run[0].word.state
    ensures (exists k :: 0 <= k < i && acts[k].Resolve?) ==>
              && j < i && acts[j].Resolve? && run[i].word.state == acts[j].to
              && (forall k :: 0 <= k < j ==> !acts[k].Resolve?)
    ensures run[i].resolver.Exchange? <==> forall k :: 0 <= k < i ==> !acts[k].Resolve?
  {
    j := 0;
    if i > 0 {
      j := StateIsResolved(run, acts, i - 1);
      HistoryIsRun(run, acts);
      RunInv(run, i - 1);
      assert TurnAt(run, acts, i - 1);
      StateStep(run[i - 1], acts[i - 1]);
      if run[i - 1].resolver.Exchange? { j := i - 1; }
    }
  }

  // ------------------------------------------------------------ every run can be completed

  predicate Unfinished(p: Adder) { !p.Enqueued? && !p.Returned? }

  /** Steps an AndThen call takes alone; a stale word costs one more round. */
  function AdderWork(p: Adder, word: Word): nat {
    match p
    case Load => 6
    case Link(seen, _) => if seen == word then 2 else 5
    case Cas(seen, _) => if seen == word then 1 else 4
    case RunNow => 1
    case RunList(list) => if list == Null then 1 else 2
    case Enqueued => 0
    case Returned => 0
  }

  function AddersWork(adders: seq<Adder>, word: Word): seq<nat> {
    seq(|adders|, t requires 0 <= t < |adders| => AdderWork(adders[t], word))
  }

  function ResolverWork(s: State): nat {
    match s.resolver
    case Exchange => 1
    case _ => 0
  }

  function ListWork(s: State): nat {
    if s.resolver.Resolved? then 0 else 1 + if s.done <= |s.stack| then |s.stack| - s.done else 0
  }

  /** First the calls not yet done count, then the exchange, then the list, then the rounds of the loops. */
  predicate Less(s': State, s: State) {
    var n, n' := Count(s.adders, Unfinished), Count(s'.adders, Unfinished);
    || n' < n
    || (n' == n && ResolverWork(s') < ResolverWork(s))
    || (n' == n && ResolverWork(s') == ResolverWork(s) && ListWork(s') < ListWork(s))
    || (n' == n && ResolverWork(s') == ResolverWork(s) && ListWork(s') == ListWork(s)
        && Total(AddersWork(s'.adders, s'.word)) < Total(AddersWork(s.adders, s.word)))
  }

  lemma AdderLess(s: State, t: nat)
    requires Inv(s) && Enabled(s, AndThen(t, false))
    ensures Less(RunAdder(s, t, false), s)
  {
    var s' := RunAdder(s, t, false);
    assert AdderAt(s, t);
    assert s'.adders == s.adders[t := s'.adders[t]];
    CountUpdate(s.adders, t, s'.adders[t], Unfinished);
    if Unfinished(s'.adders[t]) {
      TotalUpdate(AddersWork(s.adders, s.word), t, AdderWork(s'.adders[t], s.word));
      assert AddersWork(s'.adders, s'.word) == AddersWork(s.adders, s.word)[t := AdderWork(s'.adders[t], s.word)];
    }
  }

  lemma ResolverLess(s: State, to: Avail)
    requires Inv(s) && Enabled(s, Resolve(to))
    ensures Less(RunResolver(s, to), s)
  {
    if s.resolver.Run? && s.done < |s.stack| { assert Linked(s.next, s.stack, s.done); }
  }

  /** A step of a call in progress that does not fail for no reason, or one of the resolver. */
  lemma HasStep(s: State, to: Avail) returns (more: bool, act: Action)
    requires Inv(s) && Available(to)
    ensures more ==> Enabled(s, act) && (act == Resolve(to) || (act.AndThen? && !act.spurious))
    ensures !more ==> Quiescent(s)
  {
    more, act := false, Resolve(to);
    if t :| 0 <= t < |s.adders| && Unfinished(s.adders[t]) {
      assert AdderAt(s, t);
      more, act := true, AndThen(t, false);
    } else if !s.resolver.Resolved? {
      if s.done < |s.stack| { assert Linked(s.next, s.stack, s.done); }
      more := true;
    }
  }

  lemma Appended(run: seq<State>, act: Action)
    requires IsRun(run) && Enabled(run[|run| - 1], act)
    ensures IsRun(run + [Apply(run[|run| - 1], act)])
  {
    var longer := run + [Apply(run[|run| - 1], act)];
    forall i | 0 <= i < |longer| - 1 ensures StepAt(longer, i) {
      if i < |run| - 1 { assert StepAt(run, i) && longer[i] == run[i] && longer[i + 1] == run[i + 1]; }
    }
  }

  /** Every run, wherever it stands, can be continued until nothing is left to do; then the value is available,
      in the state it was first resolved to, and every waiter has run exactly once. */
  lemma {:induction false} RunsComplete(run: seq<State>, to: Avail) returns (full: seq<State>)
    requires IsRun(run) && Available(to)
    ensures IsRun(full) && run <= full && Quiescent(full[|full| - 1])
    ensures var s, e := run[|run| - 1], full[|full| - 1];
            && e.word == Word(Null, if Available(s.word.state) then s.word.state else to)
            && forall t :: 0 <= t < |e.runs| ==> e.runs[t] == 1
    decreases Count(run[|run| - 1].adders, Unfinished), ResolverWork(run[|run| - 1]), ListWork(run[|run| - 1]),
              Total(AddersWork(run[|run| - 1].adders, run[|run| - 1].word))
  {
    var s := run[|run| - 1];
    RunInv(run, |run| - 1);
    var more, act := HasStep(s, to);
    if more {
      Appended(run, act);
      if act.Resolve? { ResolverLess(s, to); } else { AdderLess(s, act.t); }
      StateStep(s, act);
      full := RunsComplete(run + [Apply(s, act)], to);
    } else {
      full := run;
      assert !Enabled(s, Resolve(to));
      forall t | 0 <= t < |s.runs| ensures s.runs[t] == 1 { EveryWaiterRunsOnce(run, |run| - 1, t); }
    }
  }
}
