/**
 The inductive invariant of EventCount: the prewait field counts the threads in prewait, the
 links from the stack top are an acyclic list of exactly the committed waiters, each parked
 thread is owed exactly one signal, and a pop installs the true next link.
 */
module EventCountInvariant {
  import opened Counting
  import opened EventCount

  // ------------------------------------------------------------ the invariant

  predicate InPrewait(p: Pc) {
    p.Prewaiting? || p.CancelStart? || p.CancelCas? || Committing(p)
  }

  /** Between seeing the predicate false and leaving the prewait state. */
  predicate Committing(p: Pc) {
    p.CommitStart? || p.CommitLoad? || p.CommitStore? || p.CommitCas?
  }

  predicate Parked(p: Pc) { p.Parking? || p.Asleep? }

  predicate Notifying(p: Pc) {
    p.NotifyStart? || p.NotifyDecide? || p.NotifyCas? || p.Detached? || p.Unpark? || p.UnparkLock? || p.UnparkWake?
  }

  /** In the loop of Notify, with nothing detached yet. */
  predicate Trying(p: Pc) { p.NotifyStart? || p.NotifyDecide? || p.NotifyCas? }

  predicate Shape(s: State) {
    && |s.owed| == |s.pcs| && |s.home| == |s.wakes| == |s.waiters| <= |s.pcs| && |s.waiters| < NIL
    && forall t :: |s.waiters| <= t < |s.pcs| ==> s.pcs[t].Idle? || Notifying(s.pcs[t])
  }

  /** The prewait field counts the threads in prewait, and signals never exceed it. */
  predicate Counts(w: Word, pcs: seq<Pc>) {
    w.waiters == Count(pcs, InPrewait) && 0 <= w.signals <= w.waiters
  }

  /** What the stack word or a link says when the waiters from position i down are what is left. */
  function Link(stack: seq<nat>, waiters: seq<Waiter>, i: nat): Ref
    requires forall j :: 0 <= j < |stack| ==> stack[j] < |waiters|
  {
    if i < |stack| then Ref(stack[i], waiters[stack[i]].epoch - 1) else EMPTY
  }

  /** The waiter at position i of the stack points at position i + 1. */
  predicate Linked(stack: seq<nat>, waiters: seq<Waiter>, i: nat)
    requires i < |stack| && forall j :: 0 <= j < |stack| ==> stack[j] < |waiters|
  {
    waiters[stack[i]].next == Link(stack, waiters, i + 1)
  }

  predicate Distinct(c: seq<nat>) {
    forall i, j :: 0 <= i < j < |c| ==> c[i] != c[j]
  }

  predicate Listed(w: nat, h: Home, stack: seq<nat>) { h == OnStack ==> w in stack }

  /** The links from the stack top run through exactly the committed, undetached waiters. */
  predicate StackOk(top: Ref, stack: seq<nat>, waiters: seq<Waiter>, home: seq<Home>)
    requires |home| == |waiters|
  {
    && (forall i :: 0 <= i < |stack| ==> stack[i] < |waiters| && home[stack[i]] == OnStack)
    && top == Link(stack, waiters, 0)
    && (forall i :: 0 <= i < |stack| ==> Linked(stack, waiters, i))
    && Distinct(stack)
    && (forall w :: 0 <= w < |waiters| ==> Listed(w, home[w], stack))
  }

  predicate ChainLink(c: seq<nat>, waiters: seq<Waiter>, i: nat)
    requires i < |c| && c[i] < |waiters|
  {
    waiters[c[i]].next.index == if i + 1 < |c| then c[i + 1] else NIL
  }

  predicate ChainOk(a: nat, c: seq<nat>, waiters: seq<Waiter>, home: seq<Home>)
    requires |home| == |waiters|
  {
    && (forall i :: 0 <= i < |c| ==> c[i] < |waiters| && home[c[i]] == OwedBy(a))
    && (forall i :: 0 <= i < |c| ==> ChainLink(c, waiters, i))
    && Distinct(c)
  }

  /** An agent that detached waiters still holds them as a linked chain, or holds none. */
  predicate OwedOk(p: Pc, a: nat, c: seq<nat>, waiters: seq<Waiter>, home: seq<Home>)
    requires |home| == |waiters|
  {
    && (!p.Detached? && !p.Unpark? && !p.UnparkLock? && !p.UnparkWake? ==> c == [])
    && (p.Detached? ==> p.w < |waiters| && c == [p.w] && home[p.w] == OwedBy(a))
    && (p.Unpark? || p.UnparkLock? ==> c != [] && c[0] == p.w)
    && (p.UnparkLock? ==> p.after == if |c| > 1 then c[1] else NIL)
    && (p.UnparkWake? ==> p.w < |waiters| && p.after == if |c| > 0 then c[0] else NIL)
    && (p.Unpark? || p.UnparkLock? || p.UnparkWake? ==> ChainOk(a, c, waiters, home))
  }

  predicate Open(h: Home) { h.OnStack? || h.OwedBy? }

  /** A parked thread is owed exactly one signal until it has been signalled, and a signalled
      sleeper has its wakeup on the way. */
  predicate ParkOk(p: Pc, wt: Waiter, h: Home, wakes: int) {
    && (Open(h) ==> Parked(p) && wt.signal != Signaled)
    && (!Parked(p) ==> h == Away)
    && (Parked(p) && !Open(h) ==> wt.signal == Signaled)
    && (p.Asleep? ==> wt.signal != NotSignaled)
    && (p.Asleep? && wt.signal == Signaled ==> h.WokenBy?)
    && 0 <= wakes && wt.epoch == wakes + (if Open(h) then 1 else 0)
  }

  /** The agent a waiter depends on really holds it. */
  predicate HomeOk(w: nat, h: Home, pcs: seq<Pc>, owed: seq<seq<nat>>)
    requires |owed| == |pcs|
  {
    && (h.OwedBy? ==> h.agent < |pcs| && w in owed[h.agent])
    && (h.WokenBy? ==> h.agent < |pcs| && pcs[h.agent].UnparkWake? && pcs[h.agent].w == w)
  }

  predicate RefOk(r: Ref, waiters: seq<Waiter>) {
    r == EMPTY || (r.index < |waiters| && 0 <= r.epoch < waiters[r.index].epoch)
  }

  /** A loaded word passes CheckState, and its epoch belongs to a push that has happened. */
  predicate SnapOk(w: Word, waiters: seq<Waiter>) {
    0 <= w.signals <= w.waiters <= |waiters| && RefOk(w.top, waiters)
  }

  /** A link read before the compare-exchange is current whenever the push it belongs to is. */
  predicate ReadOk(w: Word, next: Ref, waiters: seq<Waiter>, home: seq<Home>)
    requires |home| == |waiters|
  {
    w.top.index < |waiters| && home[w.top.index] == OnStack && w.top.epoch + 1 == waiters[w.top.index].epoch
    ==> next == waiters[w.top.index].next
  }

  /** What an agent's local variables say about the shared state. */
  predicate AgentOk(p: Pc, t: nat, waiters: seq<Waiter>, home: seq<Home>)
    requires |home| == |waiters|
  {
    && (p.PrewaitCas? || p.CancelCas? || p.CommitStore? || p.CommitCas? || p.NotifyDecide? || p.NotifyCas? ==>
          SnapOk(p.s, waiters))
    && (p.PrewaitCas? ==> p.s.waiters < |waiters|)
    && (p.CancelCas? || p.CommitStore? || p.CommitCas? ==> 1 <= p.s.waiters)
    && (p.CommitLoad? || p.CommitStore? || p.CommitCas? ==> t < |waiters| && waiters[t].signal == NotSignaled)
    && (p.CommitCas? && p.s.signals == 0 ==> waiters[t].next == p.s.top)
    && (p.NotifyStart? || p.NotifyDecide? || p.NotifyCas? ==> (p.armed ==> p.all))
    && (p.NotifyCas? ==> !NothingToNotify(p.s) && (Pops(p.all, p.s) ==> ReadOk(p.s, p.next, waiters, home)))
  }

  predicate AgentAt(s: State, a: nat)
    requires Shape(s) && a < |s.pcs|
  {
    AgentOk(s.pcs[a], a, s.waiters, s.home) && OwedOk(s.pcs[a], a, s.owed[a], s.waiters, s.home)
  }

  predicate WaiterOk(s: State, w: nat)
    requires Shape(s) && w < |s.waiters|
  {
    ParkOk(s.pcs[w], s.waiters[w], s.home[w], s.wakes[w]) && HomeOk(w, s.home[w], s.pcs, s.owed)
  }

  predicate AgentsOk(s: State)
    requires Shape(s)
  {
    forall a :: 0 <= a < |s.pcs| ==> AgentAt(s, a)
  }

  predicate ParksOk(s: State)
    requires Shape(s)
  {
    forall w :: 0 <= w < |s.waiters| ==> WaiterOk(s, w)
  }

  predicate Inv(s: State) {
    && Shape(s) && Counts(s.word, s.pcs) && StackOk(s.word.top, s.stack, s.waiters, s.home)
    && AgentsOk(s) && ParksOk(s)
  }

  lemma InitInv(s: State)
    requires Init(s)
    ensures Inv(s)
  {
    CountNone(s.pcs, InPrewait);
  }

  // ------------------------------------------------------------ frame lemmas

  lemma CountsAt(pcs: seq<Pc>, t: nat, pc: Pc)
    requires t < |pcs|
    ensures Count(pcs[t := pc], InPrewait) + (if InPrewait(pcs[t]) then 1 else 0)
            == Count(pcs, InPrewait) + (if InPrewait(pc) then 1 else 0)
  {
    CountUpdate(pcs, t, pc, InPrewait);
  }

  /** The shared word itself is a good snapshot, with room for a worker that is not in prewait. */
  lemma WordOk(s: State)
    requires Inv(s)
    ensures SnapOk(s.word, s.waiters)
    ensures forall t :: 0 <= t < |s.waiters| && !InPrewait(s.pcs[t]) ==> s.word.waiters < |s.waiters|
    ensures forall t :: 0 <= t < |s.pcs| && InPrewait(s.pcs[t]) ==> s.word.waiters >= 1
  {
    CountBelow(s.pcs, |s.waiters|, InPrewait);
    forall t | 0 <= t < |s.pcs| && InPrewait(s.pcs[t]) ensures s.word.waiters >= 1 {
      CountHit(s.pcs, t, InPrewait);
    }
    if s.stack != [] {
      var w := s.stack[0];
      assert WaiterOk(s, w);
    }
  }

  /** Waiters may be pushed, popped and signalled behind an agent's back: epochs only grow, and
      within one push the link of a waiter on the stack does not change. */
  predicate Evolves(ws: seq<Waiter>, home: seq<Home>, ws': seq<Waiter>, home': seq<Home>) {
    && |ws| == |home| == |ws'| == |home'|
    && (forall i :: 0 <= i < |ws| ==> ws[i].epoch <= ws'[i].epoch)
    && (forall i :: 0 <= i < |ws| && home'[i] == OnStack && ws'[i].epoch == ws[i].epoch ==>
          home[i] == OnStack && ws'[i].next == ws[i].next)
  }

  lemma AgentFrame(p: Pc, t: nat, ws: seq<Waiter>, home: seq<Home>, ws': seq<Waiter>, home': seq<Home>)
    requires Evolves(ws, home, ws', home') && AgentOk(p, t, ws, home)
    requires Committing(p) ==> t < |ws| && ws[t] == ws'[t]
    ensures AgentOk(p, t, ws', home')
  {
  }

  /** What agent a holds is untouched. */
  predicate KeepsChain(a: nat, ws: seq<Waiter>, home: seq<Home>, ws': seq<Waiter>, home': seq<Home>) {
    && |ws| == |home| == |ws'| == |home'|
    && forall i :: 0 <= i < |ws| && home[i] == OwedBy(a) ==> home'[i] == OwedBy(a) && ws'[i].next == ws[i].next
  }

  lemma OwedFrame(p: Pc, a: nat, c: seq<nat>, ws: seq<Waiter>, home: seq<Home>, ws': seq<Waiter>, home': seq<Home>)
    requires KeepsChain(a, ws, home, ws', home') && OwedOk(p, a, c, ws, home)
    ensures OwedOk(p, a, c, ws', home')
  {
    if p.Unpark? || p.UnparkLock? || p.UnparkWake? {
      forall i | 0 <= i < |c| ensures ChainLink(c, ws', i) { assert ChainLink(c, ws, i); }
    }
  }

  /** The agents after a step of agent t, given what holds for t itself. */
  lemma AgentsStep(s: State, s': State, t: nat)
    requires Inv(s) && Shape(s') && t < |s.pcs| == |s'.pcs|
    requires Evolves(s.waiters, s.home, s'.waiters, s'.home)
    requires forall a :: 0 <= a < |s.pcs| && a != t ==>
               && s'.pcs[a] == s.pcs[a] && s'.owed[a] == s.owed[a]
               && KeepsChain(a, s.waiters, s.home, s'.waiters, s'.home)
               && (a < |s.waiters| && Committing(s.pcs[a]) ==> s'.waiters[a] == s.waiters[a])
    requires AgentAt(s', t)
    ensures AgentsOk(s')
  {
    forall a | 0 <= a < |s.pcs| ensures AgentAt(s', a) {
      if a != t {
        assert AgentAt(s, a);
        AgentFrame(s.pcs[a], a, s.waiters, s.home, s'.waiters, s'.home);
        OwedFrame(s.pcs[a], a, s.owed[a], s.waiters, s.home, s'.waiters, s'.home);
      }
    }
  }

  /** The stack after waiters that are not on it changed. */
  lemma StackFrame(top: Ref, stack: seq<nat>, ws: seq<Waiter>, home: seq<Home>, ws': seq<Waiter>, home': seq<Home>)
    requires |ws| == |home| == |ws'| == |home'| && StackOk(top, stack, ws, home)
    requires forall i :: 0 <= i < |ws| ==> (home'[i] == OnStack <==> home[i] == OnStack)
    requires forall i :: 0 <= i < |ws| && home[i] == OnStack ==> ws'[i].next == ws[i].next && ws'[i].epoch == ws[i].epoch
    ensures StackOk(top, stack, ws', home')
  {
    forall i | 0 <= i < |stack| ensures Linked(stack, ws', i) { assert Linked(stack, ws, i); }
  }

  /** The waiters after a step of agent t that changed at most waiters t and v. */
  lemma ParksStep(s: State, s': State, t: nat, v: nat)
    requires Inv(s) && Shape(s') && t < |s'.pcs| == |s.pcs| && |s'.waiters| == |s.waiters|
    requires forall w :: 0 <= w < |s.waiters| && w != t && w != v ==>
               s'.pcs[w] == s.pcs[w] && s'.waiters[w] == s.waiters[w] && s'.home[w] == s.home[w] && s'.wakes[w] == s.wakes[w]
    requires forall a :: 0 <= a < |s.pcs| && a != t ==> (s.pcs[a].UnparkWake? ==> s'.pcs[a] == s.pcs[a]) && s'.owed[a] == s.owed[a]
    requires forall w :: w in s.owed[t] && w != v ==> w in s'.owed[t]
    requires s.pcs[t].UnparkWake? ==> s.pcs[t].w == v
    requires t < |s.waiters| ==> WaiterOk(s', t)
    requires v < |s.waiters| ==> WaiterOk(s', v)
    ensures ParksOk(s')
  {
    forall w | 0 <= w < |s.waiters| ensures WaiterOk(s', w) {
      if w != t && w != v { assert WaiterOk(s, w); }
    }
  }

  // ------------------------------------------------------------ every step keeps the invariant

  /** Moving agent t to another program point, possibly with other counters in the word. */
  lemma Move(s: State, s': State, t: nat, pc: Pc)
    requires Inv(s) && t < |s.pcs| && s'.pcs == s.pcs[t := pc]
    requires s'.waiters == s.waiters && s'.home == s.home && s'.wakes == s.wakes && s'.owed == s.owed && s'.stack == s.stack
    requires s'.word.top == s.word.top && Counts(s'.word, s'.pcs)
    requires Parked(pc) == Parked(s.pcs[t]) && !s.pcs[t].UnparkWake? && !pc.Asleep?
    requires t < |s.waiters| || pc.Idle? || Notifying(pc)
    requires AgentOk(pc, t, s.waiters, s.home) && OwedOk(pc, t, s.owed[t], s.waiters, s.home)
    ensures Inv(s')
  {
    forall a | 0 <= a < |s'.pcs| ensures AgentAt(s', a) { assert AgentAt(s, a); }
    forall w | 0 <= w < |s'.waiters| ensures WaiterOk(s', w) { assert WaiterOk(s, w); }
  }

  lemma SetConditionStep(s: State, s': State)
    requires Inv(s) && s' == s.(cond := true)
    ensures Inv(s')
  {
    forall a | 0 <= a < |s'.pcs| ensures AgentAt(s', a) { assert AgentAt(s, a); }
    forall w | 0 <= w < |s'.waiters| ensures WaiterOk(s', w) { assert WaiterOk(s, w); }
  }

  lemma CallStep(s: State, t: nat, act: Action)
    requires Inv(s) && Enabled(s, t, act) && !act.Run?
    ensures Inv(Apply(s, t, act))
  {
    var s' := Apply(s, t, act);
    if act.SetCondition? {
      SetConditionStep(s, s');
    } else {
      assert AgentAt(s, t);
      CountsAt(s.pcs, t, s'.pcs[t]);
      Move(s, s', t, s'.pcs[t]);
    }
  }

  lemma WorkerLoadStep(s: State, t: nat, spurious: bool)
    requires Inv(s) && Enabled(s, t, Run(spurious))
    requires s.pcs[t].PrewaitStart? || s.pcs[t].CancelStart? || s.pcs[t].CommitLoad? || s.pcs[t].Asleep?
    ensures Inv(Apply(s, t, Run(spurious)))
  {
    WordOk(s);
    assert AgentAt(s, t);
    var s' := Apply(s, t, Run(spurious));
    CountsAt(s.pcs, t, s'.pcs[t]);
    Move(s, s', t, s'.pcs[t]);
  }

  lemma DecideMove(s: State, t: nat, pc: Pc)
    requires Inv(s) && t < |s.pcs| && s.pcs[t].NotifyDecide? && (pc.Idle? || pc.NotifyCas?)
    requires AgentOk(pc, t, s.waiters, s.home)
    ensures Inv(At(s, t, pc))
  {
    assert AgentAt(s, t);
    CountsAt(s.pcs, t, pc);
    Move(s, At(s, t, pc), t, pc);
  }

  lemma DecideStep(s: State, t: nat)
    requires Inv(s) && t < |s.pcs| && s.pcs[t].NotifyDecide?
    ensures CanRun(s, t)
    ensures Inv(RunNotifyDecide(s, t, s.pcs[t].all, s.pcs[t].armed, s.pcs[t].s))
  {
    var NotifyDecide(all, armed, w) := s.pcs[t];
    assert AgentAt(s, t);
    DecideMove(s, t, RunNotifyDecide(s, t, all, armed, w).pcs[t]);
  }

  lemma UnparkReadStep(s: State, t: nat)
    requires Inv(s) && t < |s.pcs| && s.pcs[t].Unpark?
    ensures CanRun(s, t)
    ensures Inv(At(s, t, UnparkLock(s.pcs[t].w, s.waiters[s.pcs[t].w].next.index)))
  {
    var w, c := s.pcs[t].w, s.owed[t];
    assert AgentAt(s, t);
    assert ChainLink(c, s.waiters, 0);
    var pc := UnparkLock(w, s.waiters[w].next.index);
    CountsAt(s.pcs, t, pc);
    Move(s, At(s, t, pc), t, pc);
  }

  lemma PrewaitSucceeds(s: State, t: nat)
    requires Inv(s) && t < |s.pcs| && s.pcs[t].PrewaitCas?
    ensures Inv(At(s, t, Prewaiting).(word := AfterPrewait(s.word)))
  {
    CountsAt(s.pcs, t, Prewaiting);
    assert AgentAt(s, t);
    Move(s, At(s, t, Prewaiting).(word := AfterPrewait(s.word)), t, Prewaiting);
  }

  /** A failed compare-exchange reloads the word. */
  lemma CasFails(s: State, t: nat, pc: Pc)
    requires Inv(s) && t < |s.pcs| && !Notifying(pc)
    requires (s.pcs[t].PrewaitCas? && pc == PrewaitCas(s.word)) || (s.pcs[t].CancelCas? && pc == CancelCas(s.word))
             || (s.pcs[t].CommitCas? && pc == CommitStore(s.word))
    ensures Inv(At(s, t, pc))
  {
    WordOk(s);
    assert AgentAt(s, t);
    CountsAt(s.pcs, t, pc);
    Move(s, At(s, t, pc), t, pc);
  }

  lemma CancelSucceeds(s: State, t: nat)
    requires Inv(s) && t < |s.pcs| && s.pcs[t].CancelCas?
    ensures Inv(At(s, t, Idle).(word := AfterCancel(s.word)))
  {
    CountsAt(s.pcs, t, Idle);
    assert AgentAt(s, t);
    Move(s, At(s, t, Idle).(word := AfterCancel(s.word)), t, Idle);
  }

  lemma OwnWriteAgents(s: State, s': State, t: nat, pc: Pc, wt: Waiter)
    requires Inv(s) && t < |s.waiters| && Committing(s.pcs[t]) && Committing(pc) && wt.epoch == s.waiters[t].epoch
    requires AgentOk(pc, t, s.waiters[t := wt], s.home)
    requires s' == At(s, t, pc).(waiters := s.waiters[t := wt])
    ensures AgentsOk(s')
  {
    assert AgentAt(s, t);
    assert WaiterOk(s, t);
    AgentsStep(s, s', t);
  }

  lemma OwnWriteParks(s: State, s': State, t: nat, pc: Pc, wt: Waiter)
    requires Inv(s) && t < |s.waiters| && Committing(s.pcs[t]) && Committing(pc) && wt.epoch == s.waiters[t].epoch
    requires s' == At(s, t, pc).(waiters := s.waiters[t := wt])
    ensures ParksOk(s')
  {
    assert WaiterOk(s, t);
    ParksStep(s, s', t, t);
  }

  /** A committing worker writes its own waiter, which nobody else can reach. */
  lemma OwnWrite(s: State, t: nat, pc: Pc, wt: Waiter)
    requires Inv(s) && t < |s.waiters| && Committing(s.pcs[t]) && Committing(pc) && wt.epoch == s.waiters[t].epoch
    requires AgentOk(pc, t, s.waiters[t := wt], s.home)
    ensures Inv(At(s, t, pc).(waiters := s.waiters[t := wt]))
  {
    var s' := At(s, t, pc).(waiters := s.waiters[t := wt]);
    OwnWriteAgents(s, s', t, pc, wt);
    OwnWriteParks(s, s', t, pc, wt);
    assert WaiterOk(s, t);
    CountsAt(s.pcs, t, pc);
    StackFrame(s.word.top, s.stack, s.waiters, s.home, s'.waiters, s'.home);
  }

  lemma CommitStartStep(s: State, t: nat)
    requires Inv(s) && t < |s.waiters| && s.pcs[t].CommitStart?
    ensures Inv(RunCommitStart(s, t))
  {
    OwnWrite(s, t, CommitLoad, s.waiters[t].(signal := NotSignaled));
  }

  lemma CommitStoreStep(s: State, t: nat)
    requires Inv(s) && t < |s.waiters| && s.pcs[t].CommitStore?
    ensures Inv(RunCommitStore(s, t, s.pcs[t].s))
  {
    var w := s.pcs[t].s;
    assert AgentAt(s, t);
    if w.signals != 0 {
      CountsAt(s.pcs, t, CommitCas(w));
      Move(s, At(s, t, CommitCas(w)), t, CommitCas(w));
    } else {
      OwnWrite(s, t, CommitCas(w), s.waiters[t].(next := w.top));
    }
  }

  // CommitWait consumes a pending signal.
  lemma ConsumeSucceeds(s: State, t: nat)
    requires Inv(s) && t < |s.pcs| && s.pcs[t].CommitCas? && s.word.signals != 0
    ensures Inv(At(s, t, Idle).(word := AfterConsume(s.word)))
  {
    CountsAt(s.pcs, t, Idle);
    assert AgentAt(s, t);
    Move(s, At(s, t, Idle).(word := AfterConsume(s.word)), t, Idle);
  }

  lemma PushAgents(s: State, s': State, t: nat)
    requires Inv(s) && t < |s.waiters| && s.pcs[t] == CommitCas(s.word) && s.word.signals == 0
    requires s' == RunCommitCas(s, t, s.word, false)
    ensures AgentsOk(s')
  {
    assert AgentAt(s, t);
    assert WaiterOk(s, t);
    AgentsStep(s, s', t);
  }

  lemma PushParks(s: State, s': State, t: nat)
    requires Inv(s) && t < |s.waiters| && s.pcs[t] == CommitCas(s.word) && s.word.signals == 0
    requires s' == RunCommitCas(s, t, s.word, false)
    ensures ParksOk(s')
  {
    assert AgentAt(s, t);
    assert WaiterOk(s, t);
    ParksStep(s, s', t, t);
  }

  function Pushed(ws: seq<Waiter>, t: nat): (r: seq<Waiter>)
    requires t < |ws|
  {
    ws[t := ws[t].(epoch := ws[t].epoch + 1)]
  }

  lemma StackPush(top: Ref, stack: seq<nat>, ws: seq<Waiter>, home: seq<Home>, t: nat)
    requires |home| == |ws| && StackOk(top, stack, ws, home)
    requires t < |ws| && home[t] != OnStack && ws[t].next == top
    ensures StackOk(Ref(t, ws[t].epoch), [t] + stack, Pushed(ws, t), home[t := OnStack])
  {
    var stack', ws' := [t] + stack, Pushed(ws, t);
    forall i | 0 <= i < |stack'| ensures Linked(stack', ws', i) {
      if i > 0 { assert Linked(stack, ws, i - 1); }
    }
    forall w | 0 <= w < |ws'| && home[t := OnStack][w] == OnStack ensures w in stack' {
      assert w == t || w in stack;
    }
  }

  lemma PushStack(s: State, s': State, t: nat)
    requires Inv(s) && t < |s.waiters| && s.pcs[t] == CommitCas(s.word) && s.word.signals == 0
    requires s' == RunCommitCas(s, t, s.word, false)
    ensures StackOk(s'.word.top, s'.stack, s'.waiters, s'.home)
  {
    assert AgentAt(s, t) && WaiterOk(s, t);
    StackPush(s.word.top, s.stack, s.waiters, s.home, t);
  }

  /** CommitWait pushes its waiter: the links stay a list, and the epoch is new. */
  lemma PushSucceeds(s: State, t: nat)
    requires Inv(s) && t < |s.waiters| && s.pcs[t] == CommitCas(s.word) && s.word.signals == 0
    ensures Inv(RunCommitCas(s, t, s.word, false))
  {
    var s' := RunCommitCas(s, t, s.word, false);
    PushAgents(s, s', t);
    PushParks(s, s', t);
    PushStack(s, s', t);
    assert AgentAt(s, t);
    CountsAt(s.pcs, t, Parking);
  }

  lemma ParkReturnAgents(s: State, s': State, t: nat)
    requires Inv(s) && t < |s.waiters| && s.pcs[t].Parking? && s.waiters[t].signal == Signaled
    requires s' == At(s, t, Idle).(home := s.home[t := Away])
    ensures AgentsOk(s')
  {
    assert AgentAt(s, t);
    assert WaiterOk(s, t);
    AgentsStep(s, s', t);
  }

  /** A signalled thread returns from Park. */
  lemma ParkReturns(s: State, t: nat)
    requires Inv(s) && t < |s.waiters| && s.pcs[t].Parking? && s.waiters[t].signal == Signaled
    ensures Inv(At(s, t, Idle).(home := s.home[t := Away]))
  {
    var s' := At(s, t, Idle).(home := s.home[t := Away]);
    ParkReturnAgents(s, s', t);
    assert WaiterOk(s, t);
    CountsAt(s.pcs, t, Idle);
    ParksStep(s, s', t, t);
    StackFrame(s.word.top, s.stack, s.waiters, s.home, s'.waiters, s'.home);
  }

  lemma ParkSleepAgents(s: State, s': State, t: nat)
    requires Inv(s) && t < |s.waiters| && s.pcs[t].Parking? && s.waiters[t].signal != Signaled
    requires s' == At(s, t, Asleep).(waiters := s.waiters[t := s.waiters[t].(signal := Waiting)])
    ensures AgentsOk(s')
  {
    assert AgentAt(s, t);
    AgentsStep(s, s', t);
  }

  lemma ParkSleepParks(s: State, s': State, t: nat)
    requires Inv(s) && t < |s.waiters| && s.pcs[t].Parking? && s.waiters[t].signal != Signaled
    requires s' == At(s, t, Asleep).(waiters := s.waiters[t := s.waiters[t].(signal := Waiting)])
    ensures ParksOk(s')
  {
    assert WaiterOk(s, t);
    ParksStep(s, s', t, t);
  }

  lemma ParkSleeps(s: State, t: nat)
    requires Inv(s) && t < |s.waiters| && s.pcs[t].Parking? && s.waiters[t].signal != Signaled
    ensures Inv(At(s, t, Asleep).(waiters := s.waiters[t := s.waiters[t].(signal := Waiting)]))
  {
    var s' := At(s, t, Asleep).(waiters := s.waiters[t := s.waiters[t].(signal := Waiting)]);
    ParkSleepAgents(s, s', t);
    ParkSleepParks(s, s', t);
    CountsAt(s.pcs, t, Asleep);
    StackFrame(s.word.top, s.stack, s.waiters, s.home, s'.waiters, s'.home);
  }

  // Notify loads the word, or reloads it after a failed compare-exchange.
  lemma NotifyLoadStep(s: State, t: nat, all: bool, armed: bool)
    requires Inv(s) && t < |s.pcs|
    requires (s.pcs[t].NotifyStart? || s.pcs[t].NotifyCas?) && s.pcs[t].all == all && s.pcs[t].armed == armed
    ensures Inv(RunNotifyLoad(s, t, all, armed))
  {
    WordOk(s);
    assert AgentAt(s, t);
    CountsAt(s.pcs, t, NotifyDecide(all, armed, s.word));
    Move(s, RunNotifyLoad(s, t, all, armed), t, NotifyDecide(all, armed, s.word));
  }

  lemma EmptyStack(s: State)
    requires Inv(s) && s.word.top.index == NIL
    ensures s.stack == [] && s.word.top == EMPTY
  {
    assert s.word.top == Link(s.stack, s.waiters, 0);
  }

  lemma SignalSucceeds(s: State, t: nat)
    requires Inv(s) && t < |s.pcs| && s.pcs[t].NotifyCas? && s.word.signals < s.word.waiters
    ensures Inv(At(s, t, Idle).(word := AfterSignal(s.word)))
  {
    assert AgentAt(s, t);
    CountsAt(s.pcs, t, Idle);
    Move(s, At(s, t, Idle).(word := AfterSignal(s.word)), t, Idle);
  }

  lemma RehomeKeeps(s: State, s': State, t: nat)
    requires Inv(s) && t < |s.pcs| == |s'.pcs| && s.owed[t] == []
    requires s'.waiters == s.waiters && s'.home == Rehome(s.home, s.stack, OwedBy(t))
    ensures Evolves(s.waiters, s.home, s'.waiters, s'.home)
    ensures forall a :: 0 <= a < |s.pcs| && a != t ==> KeepsChain(a, s.waiters, s.home, s'.waiters, s'.home)
    ensures forall w :: 0 <= w < |s.waiters| ==>
              s'.home[w] == if s.home[w] == OnStack then OwedBy(t) else s.home[w]
  {
  }

  /** Notify(true) takes over the whole stack as its chain. */
  lemma TakeStack(s: State, t: nat, home': seq<Home>)
    requires Inv(s) && t < |s.pcs| && home' == Rehome(s.home, s.stack, OwedBy(t))
    ensures ChainOk(t, s.stack, s.waiters, home')
    ensures StackOk(EMPTY, [], s.waiters, home')
  {
    forall i | 0 <= i < |s.stack| ensures ChainLink(s.stack, s.waiters, i) {
      assert Linked(s.stack, s.waiters, i);
    }
  }

  lemma NotifyAllAgents(s: State, s': State, t: nat)
    requires Inv(s) && t < |s.pcs| && s.pcs[t].NotifyCas? && s.pcs[t].all && s.pcs[t].s == s.word
    requires s.word.top.index == NIL || s.word.top.index < |s.waiters|
    requires s' == RunNotifyCas(s, t, true, s.pcs[t].armed, s.word, s.pcs[t].next, false)
    ensures AgentsOk(s')
  {
    assert AgentAt(s, t);
    RehomeKeeps(s, s', t);
    TakeStack(s, t, s'.home);
    AgentsStep(s, s', t);
  }

  lemma NotifyAllPark(s: State, s': State, t: nat, w: nat, pc: Pc)
    requires Inv(s) && t < |s.pcs| && s.pcs[t].NotifyCas? && w < |s.waiters| && Shape(s')
    requires s.owed[t] == [] && s'.owed == s.owed[t := s.stack] && s'.home == Rehome(s.home, s.stack, OwedBy(t))
    requires s'.waiters == s.waiters && s'.wakes == s.wakes
    requires !Parked(pc) && s'.pcs == s.pcs[t := pc]
    ensures WaiterOk(s', w)
  {
    assert WaiterOk(s, w);
    assert s.home[w] == OnStack ==> w in s.stack;
    assert w in s.stack ==> s.home[w] == OnStack;
  }

  lemma NotifyAllParks(s: State, s': State, t: nat)
    requires Inv(s) && t < |s.pcs| && s.pcs[t].NotifyCas? && s.pcs[t].all && s.pcs[t].s == s.word
    requires s.word.top.index == NIL || s.word.top.index < |s.waiters|
    requires s' == RunNotifyCas(s, t, true, s.pcs[t].armed, s.word, s.pcs[t].next, false)
    ensures ParksOk(s')
  {
    assert AgentAt(s, t);
    forall w | 0 <= w < |s.waiters| ensures WaiterOk(s', w) {
      NotifyAllPark(s, s', t, w, s'.pcs[t]);
    }
  }

  lemma NotifyAllSucceeds(s: State, t: nat)
    requires Inv(s) && t < |s.pcs| && s.pcs[t].NotifyCas? && s.pcs[t].all && s.pcs[t].s == s.word
    ensures s.word.top.index == NIL || s.word.top.index < |s.waiters|
    ensures Inv(RunNotifyCas(s, t, true, s.pcs[t].armed, s.word, s.pcs[t].next, false))
  {
    WordOk(s);
    var s' := RunNotifyCas(s, t, true, s.pcs[t].armed, s.word, s.pcs[t].next, false);
    NotifyAllAgents(s, s', t);
    NotifyAllParks(s, s', t);
    TakeStack(s, t, s'.home);
    CountsAt(s.pcs, t, s'.pcs[t]);
  }

  /** The popped waiter's stored link is the true rest of the stack, however stale the read. */
  lemma PopStack(s: State, next: Ref, t: nat, armed: bool)
    requires Inv(s) && t < |s.pcs| && s.pcs[t] == NotifyCas(false, armed, s.word, next) && s.word.signals >= s.word.waiters
    ensures s.stack != [] && s.word.top == Ref(s.stack[0], s.waiters[s.stack[0]].epoch - 1)
    ensures next == Link(s.stack, s.waiters, 1) == s.waiters[s.stack[0]].next
    ensures s.home[s.stack[0]] == OnStack && s.pcs[s.stack[0]] != s.pcs[t]
  {
    assert AgentAt(s, t);
    if s.stack == [] { EmptyStack(s); }
    assert Linked(s.stack, s.waiters, 0);
    assert WaiterOk(s, s.stack[0]);
  }

  lemma StackPop(top: Ref, stack: seq<nat>, ws: seq<Waiter>, home: seq<Home>, h: Home)
    requires |home| == |ws| && StackOk(top, stack, ws, home) && stack != [] && h != OnStack
    ensures StackOk(Link(stack, ws, 1), stack[1..], ws, home[stack[0] := h])
  {
    var rest := stack[1..];
    forall i | 0 <= i < |rest| ensures Linked(rest, ws, i) { assert Linked(stack, ws, i + 1); }
    forall w | 0 <= w < |ws| && home[stack[0] := h][w] == OnStack ensures w in rest {
      assert w in stack && w != stack[0];
    }
  }

  lemma PopAgents(s: State, s': State, t: nat, next: Ref, armed: bool)
    requires Inv(s) && t < |s.pcs| && s.pcs[t] == NotifyCas(false, armed, s.word, next) && s.word.signals >= s.word.waiters
    requires s.word.top.index < |s.waiters| && s' == RunNotifyCas(s, t, false, armed, s.word, next, false)
    ensures AgentsOk(s')
  {
    PopStack(s, next, t, armed);
    AgentsStep(s, s', t);
  }

  lemma PopParks(s: State, s': State, t: nat, next: Ref, armed: bool)
    requires Inv(s) && t < |s.pcs| && s.pcs[t] == NotifyCas(false, armed, s.word, next) && s.word.signals >= s.word.waiters
    requires s.word.top.index < |s.waiters| && s' == RunNotifyCas(s, t, false, armed, s.word, next, false)
    ensures ParksOk(s')
  {
    PopStack(s, next, t, armed);
    assert WaiterOk(s, s.stack[0]);
    assert AgentAt(s, t);
    if t < |s.waiters| { assert WaiterOk(s, t); }
    ParksStep(s, s', t, s.stack[0]);
  }

  lemma PopSucceeds(s: State, t: nat, next: Ref, armed: bool)
    requires Inv(s) && t < |s.pcs| && s.pcs[t] == NotifyCas(false, armed, s.word, next) && s.word.signals >= s.word.waiters
    ensures s.word.top.index < |s.waiters|
    ensures Inv(RunNotifyCas(s, t, false, armed, s.word, next, false))
  {
    PopStack(s, next, t, armed);
    var s' := RunNotifyCas(s, t, false, armed, s.word, next, false);
    PopAgents(s, s', t, next, armed);
    PopParks(s, s', t, next, armed);
    StackPop(s.word.top, s.stack, s.waiters, s.home, OwedBy(t));
    CountsAt(s.pcs, t, s'.pcs[t]);
  }

  lemma DetachKeeps(s: State, s': State, t: nat)
    requires Inv(s) && t < |s.pcs| && s.pcs[t].Detached? && s.pcs[t].w < |s.waiters| && s' == RunDetach(s, t, s.pcs[t].w)
    ensures Evolves(s.waiters, s.home, s'.waiters, s'.home)
    ensures forall a :: 0 <= a < |s.pcs| && a != t ==>
              && s'.pcs[a] == s.pcs[a] && KeepsChain(a, s.waiters, s.home, s'.waiters, s'.home)
              && (a < |s.waiters| && Committing(s.pcs[a]) ==> s'.waiters[a] == s.waiters[a])
  {
    var w := s.pcs[t].w;
    assert AgentAt(s, t);
    assert s.home[w] == OwedBy(t) && Parked(s.pcs[w]) by { assert WaiterOk(s, w); }
  }

  lemma DetachAgents(s: State, s': State, t: nat)
    requires Inv(s) && t < |s.pcs| && s.pcs[t].Detached? && s.pcs[t].w < |s.waiters| && s' == RunDetach(s, t, s.pcs[t].w)
    ensures AgentsOk(s')
  {
    DetachKeeps(s, s', t);
    assert AgentAt(s, t);
    assert ChainLink([s.pcs[t].w], s'.waiters, 0);
    AgentsStep(s, s', t);
  }

  lemma DetachParks(s: State, s': State, t: nat)
    requires Inv(s) && t < |s.pcs| && s.pcs[t].Detached? && s.pcs[t].w < |s.waiters| && s' == RunDetach(s, t, s.pcs[t].w)
    ensures ParksOk(s')
  {
    assert AgentAt(s, t);
    assert WaiterOk(s, s.pcs[t].w);
    if t < |s.waiters| { assert WaiterOk(s, t); }
    ParksStep(s, s', t, s.pcs[t].w);
  }

  /** Notify(false) cuts the popped waiter off before it unparks it. */
  lemma DetachStep(s: State, t: nat)
    requires Inv(s) && t < |s.pcs| && s.pcs[t].Detached?
    ensures CanRun(s, t) && Inv(RunDetach(s, t, s.pcs[t].w))
  {
    assert AgentAt(s, t);
    var s' := RunDetach(s, t, s.pcs[t].w);
    DetachAgents(s, s', t);
    DetachParks(s, s', t);
    StackFrame(s.word.top, s.stack, s.waiters, s.home, s'.waiters, s'.home);
    CountsAt(s.pcs, t, s'.pcs[t]);
  }

  lemma ChainTail(a: nat, c: seq<nat>, ws: seq<Waiter>, home: seq<Home>, ws': seq<Waiter>, home': seq<Home>)
    requires |ws| == |home| == |ws'| == |home'| && c != [] && ChainOk(a, c, ws, home)
    requires forall i :: 0 <= i < |ws| && i != c[0] ==> home'[i] == home[i] && ws'[i].next == ws[i].next
    ensures ChainOk(a, c[1..], ws', home')
  {
    var d := c[1..];
    forall i | 0 <= i < |d| ensures ChainLink(d, ws', i) { assert ChainLink(c, ws, i + 1); }
  }

  lemma UnparkLockOwed(s: State, s': State, t: nat)
    requires Inv(s) && t < |s.pcs| && s.pcs[t].UnparkLock? && s.pcs[t].w < |s.waiters|
    requires s' == RunUnparkLock(s, t, s.pcs[t].w, s.pcs[t].after)
    ensures OwedOk(s'.pcs[t], t, s'.owed[t], s'.waiters, s'.home) && AgentOk(s'.pcs[t], t, s'.waiters, s'.home)
  {
    var c := s.owed[t];
    assert AgentAt(s, t);
    ChainTail(t, c, s.waiters, s.home, s'.waiters, s'.home);
    assert ChainLink(c, s.waiters, 0);
    assert |c| > 1 ==> c[1] < |s.waiters|;
  }

  lemma UnparkLockKeeps(s: State, s': State, t: nat)
    requires Inv(s) && t < |s.pcs| && s.pcs[t].UnparkLock? && s.pcs[t].w < |s.waiters|
    requires s' == RunUnparkLock(s, t, s.pcs[t].w, s.pcs[t].after)
    ensures Evolves(s.waiters, s.home, s'.waiters, s'.home)
    ensures forall a :: 0 <= a < |s.pcs| && a != t ==>
              && s'.pcs[a] == s.pcs[a] && s'.owed[a] == s.owed[a]
              && KeepsChain(a, s.waiters, s.home, s'.waiters, s'.home)
              && (a < |s.waiters| && Committing(s.pcs[a]) ==> s'.waiters[a] == s.waiters[a])
  {
    var w := s.pcs[t].w;
    assert AgentAt(s, t);
    assert s.home[w] == OwedBy(t) && Parked(s.pcs[w]) by { assert WaiterOk(s, w); }
  }

  lemma UnparkLockAgents(s: State, s': State, t: nat)
    requires Inv(s) && t < |s.pcs| && s.pcs[t].UnparkLock? && s.pcs[t].w < |s.waiters|
    requires s' == RunUnparkLock(s, t, s.pcs[t].w, s.pcs[t].after)
    ensures AgentsOk(s')
  {
    UnparkLockKeeps(s, s', t);
    UnparkLockOwed(s, s', t);
    assert Shape(s') by { assert AgentAt(s, t); }
    AgentsStep(s, s', t);
  }

  lemma UnparkLockWaiters(s: State, s': State, t: nat)
    requires Inv(s) && t < |s.pcs| && s.pcs[t].UnparkLock? && s.pcs[t].w < |s.waiters|
    requires s' == RunUnparkLock(s, t, s.pcs[t].w, s.pcs[t].after)
    ensures Shape(s') && WaiterOk(s', s.pcs[t].w) && (t < |s.waiters| ==> WaiterOk(s', t))
  {
    assert AgentAt(s, t);
    assert WaiterOk(s, s.pcs[t].w);
    assert t < |s.waiters| ==> WaiterOk(s, t);
  }

  lemma UnparkLockParks(s: State, s': State, t: nat)
    requires Inv(s) && t < |s.pcs| && s.pcs[t].UnparkLock? && s.pcs[t].w < |s.waiters|
    requires s' == RunUnparkLock(s, t, s.pcs[t].w, s.pcs[t].after)
    ensures ParksOk(s')
  {
    UnparkLockWaiters(s, s', t);
    var c := s.owed[t];
    assert c != [] && c[0] == s.pcs[t].w by { assert AgentAt(s, t); }
    assert forall v :: v in c && v != c[0] ==> v in c[1..];
    ParksStep(s, s', t, c[0]);
  }

  lemma UnparkLockRest(s: State, s': State, t: nat)
    requires Inv(s) && t < |s.pcs| && s.pcs[t].UnparkLock? && s.pcs[t].w < |s.waiters|
    requires s' == RunUnparkLock(s, t, s.pcs[t].w, s.pcs[t].after)
    ensures StackOk(s'.word.top, s'.stack, s'.waiters, s'.home) && Counts(s'.word, s'.pcs)
  {
    assert AgentAt(s, t);
    StackFrame(s.word.top, s.stack, s.waiters, s.home, s'.waiters, s'.home);
    CountsAt(s.pcs, t, s'.pcs[t]);
  }

  lemma UnparkLockPays(s: State, t: nat)
    requires Inv(s) && t < |s.pcs| && s.pcs[t].UnparkLock?
    ensures var w, c := s.pcs[t].w, s.owed[t];
            && c != [] && c[0] == w && w < |s.waiters| && s.home[w] == OwedBy(t) && Parked(s.pcs[w])
            && s.waiters[w].signal != Signaled && s.waiters[w].epoch == s.wakes[w] + 1 && w !in c[1..]
            && s.pcs[t].after == (if |c| > 1 then c[1] else NIL)
  {
    var w := s.pcs[t].w;
    assert AgentAt(s, t);
    assert WaiterOk(s, w);
  }

  /** Unpark signals the first waiter of the chain it holds, which was parked and owed exactly this
      signal; that closes the waiter's push, the rest of the chain is still owed, and the thread goes
      on with the next of the chain. */
  lemma UnparkLockStep(s: State, t: nat)
    requires Inv(s) && t < |s.pcs| && s.pcs[t].UnparkLock?
    ensures CanRun(s, t) && Inv(RunUnparkLock(s, t, s.pcs[t].w, s.pcs[t].after))
    ensures var s', w, c := RunUnparkLock(s, t, s.pcs[t].w, s.pcs[t].after), s.pcs[t].w, s.owed[t];
            && c != [] && c[0] == w && w < |s.waiters| && s.home[w] == OwedBy(t) && Parked(s.pcs[w])
            && s.waiters[w].signal != Signaled && s'.waiters[w].signal == Signaled && s'.wakes[w] == s.wakes[w] + 1
            && s'.owed[t] == c[1..] && w !in c[1..] && !Open(s'.home[w]) && s'.waiters[w].epoch == s'.wakes[w]
            && s.pcs[t].after == (if |c| > 1 then c[1] else NIL)
  {
    UnparkLockPays(s, t);
    assert AgentAt(s, t);
    var s' := RunUnparkLock(s, t, s.pcs[t].w, s.pcs[t].after);
    UnparkLockAgents(s, s', t);
    UnparkLockParks(s, s', t);
    UnparkLockRest(s, s', t);
  }

  function Woken(s: State, t: nat, w: nat, after: nat): State
    requires t < |s.pcs| && w < |s.home|
  {
    At(s, t, if after == NIL then Idle else Unpark(after)).(
      home := if s.home[w] == WokenBy(t) then s.home[w := Away] else s.home)
  }

  lemma WokenAgents(s: State, s': State, t: nat)
    requires Inv(s) && t < |s.pcs| && s.pcs[t].UnparkWake? && s.pcs[t].w < |s.waiters|
    requires s' == Woken(s, t, s.pcs[t].w, s.pcs[t].after)
    ensures AgentsOk(s')
  {
    var c := s.owed[t];
    assert AgentAt(s, t);
    OwedFrame(s.pcs[t], t, c, s.waiters, s.home, s'.waiters, s'.home);
    assert |c| > 0 ==> c[0] < |s.waiters|;
    AgentsStep(s, s', t);
  }

  lemma WokenParks(s: State, s': State, t: nat)
    requires Inv(s) && t < |s.pcs| && s.pcs[t].UnparkWake? && s.pcs[t].w < |s.waiters| && !s.pcs[s.pcs[t].w].Asleep?
    requires s' == Woken(s, t, s.pcs[t].w, s.pcs[t].after)
    ensures ParksOk(s')
  {
    var w := s.pcs[t].w;
    assert WaiterOk(s, w);
    if t < |s.waiters| { assert WaiterOk(s, t); }
    ParksStep(s, s', t, w);
  }

  lemma WokenStep(s: State, t: nat)
    requires Inv(s) && t < |s.pcs| && s.pcs[t].UnparkWake? && s.pcs[t].w < |s.waiters| && !s.pcs[s.pcs[t].w].Asleep?
    ensures Inv(Woken(s, t, s.pcs[t].w, s.pcs[t].after))
  {
    var s' := Woken(s, t, s.pcs[t].w, s.pcs[t].after);
    WokenAgents(s, s', t);
    WokenParks(s, s', t);
    StackFrame(s.word.top, s.stack, s.waiters, s.home, s'.waiters, s'.home);
    CountsAt(s.pcs, t, s'.pcs[t]);
  }

  lemma WakeIsWoken(s: State, t: nat, w: nat, after: nat)
    requires t < |s.pcs| && w < |s.waiters| == |s.home| && |s.waiters| <= |s.pcs| && t != w && s.pcs[w].Asleep?
    ensures RunUnparkWake(s, t, w, after) == Woken(At(s, w, Parking), t, w, after)
  {
    assert RunUnparkWake(s, t, w, after).pcs == Woken(At(s, w, Parking), t, w, after).pcs;
  }

  /** notify_one is a wakeup of the sleeper, followed by the notifier moving on. */
  lemma UnparkWakeStep(s: State, t: nat)
    requires Inv(s) && t < |s.pcs| && s.pcs[t].UnparkWake?
    ensures s.pcs[t].w < |s.waiters| && Inv(RunUnparkWake(s, t, s.pcs[t].w, s.pcs[t].after))
  {
    var w, after := s.pcs[t].w, s.pcs[t].after;
    assert AgentAt(s, t);
    var s1 := if s.pcs[w].Asleep? then At(s, w, Parking) else s;
    if s.pcs[w].Asleep? {
      WorkerLoadStep(s, w, false);
      WakeIsWoken(s, t, w, after);
    }
    WokenStep(s1, t);
    assert RunUnparkWake(s, t, w, after) == Woken(s1, t, w, after);
  }

  // ------------------------------------------------------------ runs

  lemma CasStep(s: State, t: nat, spurious: bool)
    requires Inv(s) && Enabled(s, t, Run(spurious))
    requires s.pcs[t].PrewaitCas? || s.pcs[t].CancelCas? || s.pcs[t].CommitCas?
    ensures Inv(Apply(s, t, Run(spurious)))
  {
    var w := s.pcs[t].s;
    if s.word != w || spurious {
      CasFails(s, t, Apply(s, t, Run(spurious)).pcs[t]);
    } else if s.pcs[t].PrewaitCas? {
      PrewaitSucceeds(s, t);
    } else if s.pcs[t].CancelCas? {
      CancelSucceeds(s, t);
    } else if w.signals != 0 {
      ConsumeSucceeds(s, t);
    } else {
      PushSucceeds(s, t);
    }
  }

  lemma NotifyOneSucceeds(s: State, t: nat)
    requires Inv(s) && Enabled(s, t, Run(false)) && s.pcs[t].NotifyCas? && !s.pcs[t].all && s.word == s.pcs[t].s
    ensures Inv(RunNotifyCas(s, t, false, s.pcs[t].armed, s.word, s.pcs[t].next, false))
  {
    if s.word.signals < s.word.waiters {
      SignalSucceeds(s, t);
    } else {
      PopSucceeds(s, t, s.pcs[t].next, s.pcs[t].armed);
    }
  }

  lemma NotifyCasStep(s: State, t: nat, spurious: bool)
    requires Inv(s) && Enabled(s, t, Run(spurious)) && s.pcs[t].NotifyCas?
    ensures Inv(Apply(s, t, Run(spurious)))
  {
    var NotifyCas(all, armed, w, next) := s.pcs[t];
    var s' := Apply(s, t, Run(spurious));
    if s.word != w || spurious {
      NotifyLoadStep(s, t, all, armed);
      assert s' == RunNotifyLoad(s, t, all, armed);
    } else if all {
      NotifyAllSucceeds(s, t);
      assert s' == RunNotifyCas(s, t, true, armed, s.word, next, false);
    } else {
      NotifyOneSucceeds(s, t);
      assert s' == RunNotifyCas(s, t, false, armed, s.word, next, false);
    }
  }

  lemma RunStep(s: State, t: nat, spurious: bool)
    requires Inv(s) && Enabled(s, t, Run(spurious))
    ensures Inv(Apply(s, t, Run(spurious)))
  {
    match s.pcs[t]
    case PrewaitCas(_) => CasStep(s, t, spurious);
    case CancelCas(_) => CasStep(s, t, spurious);
    case CommitCas(_) => CasStep(s, t, spurious);
    case CommitStart => CommitStartStep(s, t);
    case CommitStore(_) => CommitStoreStep(s, t);
    case Parking => if s.waiters[t].signal == Signaled { ParkReturns(s, t); } else { ParkSleeps(s, t); }
    case NotifyStart(all, armed) => NotifyLoadStep(s, t, all, armed);
    case NotifyDecide(_, _, _) => DecideStep(s, t);
    case NotifyCas(_, _, _, _) => NotifyCasStep(s, t, spurious);
    case Detached(_) => DetachStep(s, t);
    case Unpark(_) => UnparkReadStep(s, t);
    case UnparkLock(_, _) => UnparkLockStep(s, t);
    case UnparkWake(_, _) => UnparkWakeStep(s, t);
    case _ => WorkerLoadStep(s, t, spurious);
  }

  lemma NextInv(s: State, s': State)
    requires Inv(s) && Next(s, s')
    ensures Inv(s')
  {
    var t: nat, act :| Enabled(s, t, act) && s' == Apply(s, t, act);
    if act.Run? { RunStep(s, t, act.spurious); } else { CallStep(s, t, act); }
  }

  /** Every state of every run satisfies the invariant. */
  lemma {:induction false} RunInv(run: seq<State>, i: nat)
    requires IsRun(run) && i < |run|
    ensures Inv(run[i])
  {
    if i == 0 { InitInv(run[0]); } else { RunInv(run, i - 1); assert StepAt(run, i - 1); NextInv(run[i - 1], run[i]); }
  }

  // ------------------------------------------------------------ what the invariant promises

  /** CheckState, on the record. */
  predicate CheckState(w: Word, waiter: bool) {
    0 <= w.signals <= w.waiters < NIL && (waiter ==> w.waiters > 0)
  }

  /** Every CheckState assertion of the source holds, on the loaded and on the computed word. */
  lemma CheckStateHolds(s: State, t: nat)
    requires Inv(s) && t < |s.pcs|
    ensures s.pcs[t].PrewaitCas? ==> CheckState(s.pcs[t].s, false) && CheckState(AfterPrewait(s.pcs[t].s), false)
    ensures s.pcs[t].CancelCas? ==> CheckState(s.pcs[t].s, true) && CheckState(AfterCancel(s.pcs[t].s), false)
    ensures s.pcs[t].CommitCas? && s.pcs[t].s.signals != 0 ==>
              CheckState(s.pcs[t].s, true) && CheckState(AfterConsume(s.pcs[t].s), false)
    ensures s.pcs[t].CommitCas? && s.pcs[t].s.signals == 0 ==>
              CheckState(s.pcs[t].s, true) && CheckState(AfterPush(s.pcs[t].s, Ref(t, s.waiters[t].epoch)), false)
    ensures s.pcs[t].NotifyDecide? ==> CheckState(s.pcs[t].s, false)
    ensures s.pcs[t].NotifyCas? && s.pcs[t].all ==> CheckState(AfterNotifyAll(s.pcs[t].s), false)
    ensures s.pcs[t].NotifyCas? && !s.pcs[t].all ==>
              CheckState(if s.pcs[t].s.signals < s.pcs[t].s.waiters then AfterSignal(s.pcs[t].s)
                         else AfterPop(s.pcs[t].s, s.pcs[t].next), false)
  {
    assert AgentAt(s, t);
  }

  /** No operation gets stuck or reads outside mWaiters. */
  lemma OperationsCanRun(s: State, t: nat, spurious: bool)
    requires Inv(s) && t < |s.pcs| && !s.pcs[t].Idle? && !s.pcs[t].Prewaiting?
    ensures Enabled(s, t, Run(spurious))
  {
    assert AgentAt(s, t);
  }

  lemma TopIsOnStack(s: State)
    requires Inv(s)
    ensures s.stack == [] || exists w :: 0 <= w < |s.waiters| && s.home[w] == OnStack
  {
    if s.stack != [] { assert s.home[s.stack[0]] == OnStack; }
  }

  /** When every operation has returned the word is the initial one, as the destructor asserts. */
  lemma QuiescentWord(s: State)
    requires Inv(s) && forall t :: 0 <= t < |s.pcs| ==> s.pcs[t].Idle?
    ensures s.word == Word(EMPTY, 0, 0)
  {
    CountNone(s.pcs, InPrewait);
    TopIsOnStack(s);
    forall w | 0 <= w < |s.waiters| ensures s.home[w] == Away { assert WaiterOk(s, w); }
  }
}
