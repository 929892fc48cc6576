/**
 EventCount on the words it really stores: the same atomic steps as in module EventCount, with mState, the
 waiters' links and epochs and every loaded word as 64-bit numbers, and every test and update as the
 masks and shifts of the source.  As long as no thread is overtaken by more than 2^22 pushes of one
 waiter between a load and its compare-exchange, this machine does what the machine on records does.
 */
module PackedEventCount {
  import opened Bits
  import opened EventCountWord
  import EC = EventCount
  import opened EventCountInvariant

  datatype Pc =
    | Idle
    | PrewaitStart | PrewaitCas(x: nat) | Prewaiting
    | CancelStart | CancelCas(x: nat)
    | CommitStart | CommitLoad | CommitStore(x: nat) | CommitCas(x: nat)
    | Parking | Asleep
    | NotifyStart(all: bool) | NotifyDecide(all: bool, x: nat) | NotifyCas(all: bool, x: nat, next: nat)
    | Detached(w: nat) | Unpark(w: nat) | UnparkLock(w: nat, after: nat) | UnparkWake(w: nat, after: nat)

  datatype Waiter = Waiter(next: nat, epoch: nat, signal: EC.Signal)

  datatype State = State(word: nat, waiters: seq<Waiter>, pcs: seq<Pc>, cond: bool)

  // ------------------------------------------------------------ steps

  function At(s: State, t: nat, pc: Pc): State
    requires t < |s.pcs|
  {
    s.(pcs := s.pcs[t := pc])
  }

  /** The waiter a step indexes is one of mWaiters. */
  predicate InRange(s: State, t: nat)
    requires t < |s.pcs|
  {
    var p := s.pcs[t];
    && (p.CommitStart? || p.CommitStore? || p.CommitCas? || p.Parking? ==> t < |s.waiters|)
    && (p.NotifyDecide? && Pops(p.all, p.x) ==> StackIndex(p.x) < |s.waiters|)
    && (p.Detached? || p.Unpark? || p.UnparkLock? || p.UnparkWake? ==> p.w < |s.waiters|)
    && (p.UnparkWake? ==> |s.waiters| <= |s.pcs|)
  }

  predicate Nothing(x: nat) { StackIndex(x) == STACK_MASK && WaiterCount(x) == SignalCount(x) }

  predicate Pops(all: bool, x: nat) { !Nothing(x) && !all && SignalCount(x) >= WaiterCount(x) }

  predicate Enabled(s: State, t: nat, act: EC.Action) { t < |s.pcs| && (act.Run? ==> InRange(s, t)) }

  function Apply(s: State, t: nat, act: EC.Action): State
    requires Enabled(s, t, act)
  {
    match act
    case CallPrewait => At(s, t, PrewaitStart)
    case Recheck(commit) => At(s, t, if commit then CommitStart else CancelStart)
    case SetCondition => s.(cond := true)
    case CallNotify(all) => At(s, t, NotifyStart(all))
    case Run(spurious) => Step(s, t, spurious)
  }

  function Step(s: State, t: nat, spurious: bool): State
    requires t < |s.pcs| && InRange(s, t)
  {
    match s.pcs[t]
    case PrewaitStart => At(s, t, PrewaitCas(s.word))
    case PrewaitCas(x) => PrewaitStep(s, t, x, spurious)
    case CancelStart => At(s, t, CancelCas(s.word))
    case CancelCas(x) => CancelStep(s, t, x, spurious)
    case CommitStart => StartStep(s, t)
    case CommitLoad => At(s, t, CommitStore(s.word))
    case CommitStore(x) => StoreStep(s, t, x)
    case CommitCas(x) => CommitStep(s, t, x, spurious)
    case Parking => ParkStep(s, t)
    case Asleep => At(s, t, Parking)
    case NotifyStart(all) => At(s, t, NotifyDecide(all, s.word))
    case NotifyDecide(all, x) => DecideStep(s, t, all, x)
    case NotifyCas(all, x, next) => NotifyStep(s, t, all, x, next, spurious)
    case Detached(w) => DetachStep(s, t, w)
    case Unpark(w) => At(s, t, UnparkLock(w, And(s.waiters[w].next, STACK_MASK)))
    case UnparkLock(w, after) => LockStep(s, t, w, after)
    case UnparkWake(w, after) => WakeStep(s, t, w, after)
    case _ => s
  }

  function After(after: nat): Pc { if after == STACK_MASK then Idle else Unpark(after) }

  function PrewaitStep(s: State, t: nat, x: nat, spurious: bool): State
    requires t < |s.pcs|
  {
    if s.word == x && !spurious then At(s, t, Prewaiting).(word := PrewaitWord(x)) else At(s, t, PrewaitCas(s.word))
  }

  function CancelStep(s: State, t: nat, x: nat, spurious: bool): State
    requires t < |s.pcs|
  {
    if s.word == x && !spurious then At(s, t, Idle).(word := CancelWord(x)) else At(s, t, CancelCas(s.word))
  }

  function StartStep(s: State, t: nat): State
    requires t < |s.pcs| && t < |s.waiters|
  {
    At(s, t, CommitLoad).(waiters := s.waiters[t := s.waiters[t].(signal := EC.NotSignaled)])
  }

  function StoreStep(s: State, t: nat, x: nat): State
    requires t < |s.pcs| && t < |s.waiters|
  {
    if And(x, SIGNAL_MASK) != 0 then At(s, t, CommitCas(x))
    else At(s, t, CommitCas(x)).(waiters := s.waiters[t := s.waiters[t].(next := LinkBits(x))])
  }

  function ParkStep(s: State, t: nat): State
    requires t < |s.pcs| && t < |s.waiters|
  {
    if s.waiters[t].signal.Signaled? then At(s, t, Idle)
    else At(s, t, Asleep).(waiters := s.waiters[t := s.waiters[t].(signal := EC.Waiting)])
  }

  function DecideStep(s: State, t: nat, all: bool, x: nat): State
    requires t < |s.pcs| && (Pops(all, x) ==> StackIndex(x) < |s.waiters|)
  {
    if Nothing(x) then At(s, t, Idle)
    else At(s, t, NotifyCas(all, x, if Pops(all, x) then s.waiters[StackIndex(x)].next else STACK_MASK))
  }

  function DetachStep(s: State, t: nat, w: nat): State
    requires t < |s.pcs| && w < |s.waiters|
  {
    At(s, t, Unpark(w)).(waiters := s.waiters[w := s.waiters[w].(next := STACK_MASK)])
  }

  function WakeStep(s: State, t: nat, w: nat, after: nat): State
    requires t < |s.pcs| && w < |s.pcs|
  {
    var s1 := At(s, t, After(after));
    if s.pcs[w].Asleep? then s1.(pcs := s1.pcs[w := Parking]) else s1
  }

  function CommitStep(s: State, t: nat, x: nat, spurious: bool): State
    requires t < |s.pcs| && t < |s.waiters|
  {
    if s.word != x || spurious then At(s, t, CommitStore(s.word))
    else if And(x, SIGNAL_MASK) != 0 then At(s, t, Idle).(word := ConsumeWord(x))
    else
      var wt := s.waiters[t];
      At(s, t, Parking).(word := PushWord(x, Or(t, wt.epoch)),
                         waiters := s.waiters[t := wt.(epoch := (wt.epoch + EPOCH_INC) % WORD)])
  }

  function NotifyStep(s: State, t: nat, all: bool, x: nat, next: nat, spurious: bool): State
    requires t < |s.pcs|
  {
    var top := StackIndex(x);
    if s.word != x || spurious then At(s, t, NotifyDecide(all, s.word))
    else if all then At(s, t, After(top)).(word := NotifyAllWord(x))
    else if SignalCount(x) < WaiterCount(x) then At(s, t, Idle).(word := SignalWord(x))
    else At(s, t, if top == STACK_MASK then Idle else Detached(top)).(word := PopWord(x, next))
  }

  function LockStep(s: State, t: nat, w: nat, after: nat): State
    requires t < |s.pcs| && w < |s.waiters|
  {
    At(s, t, if s.waiters[w].signal.Waiting? then UnparkWake(w, after) else After(after)).(
      waiters := s.waiters[w := s.waiters[w].(signal := EC.Signaled)])
  }

  // ------------------------------------------------------------ the packed view of a record state

  function Word64(w: EC.Word): nat { if Fits(w) then Pack(w) else 0 }

  function Link64(r: EC.Ref): nat { if r.index <= STACK_MASK && 0 <= r.epoch then PackRef(r) else 0 }

  function Epoch64(epoch: int): nat { EPOCH_INC * (epoch % EPOCHS) }

  function ViewPc(p: EC.Pc): Pc {
    match p
    case Idle => Idle
    case PrewaitStart => PrewaitStart
    case PrewaitCas(w) => PrewaitCas(Word64(w))
    case Prewaiting => Prewaiting
    case CancelStart => CancelStart
    case CancelCas(w) => CancelCas(Word64(w))
    case CommitStart => CommitStart
    case CommitLoad => CommitLoad
    case CommitStore(w) => CommitStore(Word64(w))
    case CommitCas(w) => CommitCas(Word64(w))
    case Parking => Parking
    case Asleep => Asleep
    case NotifyStart(all, _) => NotifyStart(all)
    case NotifyDecide(all, _, w) => NotifyDecide(all, Word64(w))
    case NotifyCas(all, _, w, next) => NotifyCas(all, Word64(w), Link64(next))
    case Detached(w) => Detached(w)
    case Unpark(w) => Unpark(w)
    case UnparkLock(w, after) => UnparkLock(w, after)
    case UnparkWake(w, after) => UnparkWake(w, after)
  }

  function ViewWaiter(w: EC.Waiter): Waiter { Waiter(Link64(w.next), Epoch64(w.epoch), w.signal) }

  function ViewPcs(pcs: seq<EC.Pc>): (r: seq<Pc>)
    ensures |r| == |pcs| && forall t :: 0 <= t < |pcs| ==> r[t] == ViewPc(pcs[t])
  {
    seq(|pcs|, t requires 0 <= t < |pcs| => ViewPc(pcs[t]))
  }

  function ViewWaiters(ws: seq<EC.Waiter>): (r: seq<Waiter>)
    ensures |r| == |ws| && forall w :: 0 <= w < |ws| ==> r[w] == ViewWaiter(ws[w])
  {
    seq(|ws|, w requires 0 <= w < |ws| => ViewWaiter(ws[w]))
  }

  function View(s: EC.State): State { State(Word64(s.word), ViewWaiters(s.waiters), ViewPcs(s.pcs), s.cond) }

  lemma ViewPcsUpdate(pcs: seq<EC.Pc>, t: nat, p: EC.Pc)
    requires t < |pcs|
    ensures ViewPcs(pcs[t := p]) == ViewPcs(pcs)[t := ViewPc(p)]
  {
  }

  lemma ViewWaitersUpdate(ws: seq<EC.Waiter>, w: nat, x: EC.Waiter)
    requires w < |ws|
    ensures ViewWaiters(ws[w := x]) == ViewWaiters(ws)[w := ViewWaiter(x)]
  {
  }

  // ------------------------------------------------------------ links that are read are links that were stored

  /** Links and waiters that Notify and Unpark will follow belong to pushes that happened. */
  predicate FollowOk(p: EC.Pc, ws: seq<EC.Waiter>) {
    && (p.NotifyCas? && EC.Pops(p.all, p.s) ==> RefOk(p.next, ws))
    && (p.Detached? || p.Unpark? || p.UnparkLock? ==> p.w < |ws| && ws[p.w].epoch > 0)
    && (p.UnparkLock? || p.UnparkWake? ==> p.after == EC.NIL || (p.after < |ws| && ws[p.after].epoch > 0))
  }

  predicate StoredOk(wt: EC.Waiter, ws: seq<EC.Waiter>) { wt.epoch > 0 ==> RefOk(wt.next, ws) }

  predicate Followable(s: EC.State) {
    && (forall t :: 0 <= t < |s.pcs| ==> FollowOk(s.pcs[t], s.waiters))
    && (forall w :: 0 <= w < |s.waiters| ==> StoredOk(s.waiters[w], s.waiters))
  }

  /** Epochs only grow, so what was followable stays so. */
  predicate EpochsGrow(ws: seq<EC.Waiter>, ws': seq<EC.Waiter>) {
    |ws'| == |ws| && forall w :: 0 <= w < |ws| ==> ws[w].epoch <= ws'[w].epoch
  }

  lemma FollowKept(p: EC.Pc, ws: seq<EC.Waiter>, ws': seq<EC.Waiter>)
    requires FollowOk(p, ws) && EpochsGrow(ws, ws')
    ensures FollowOk(p, ws')
  {
  }

  /** A step of t that changes at most waiter v. */
  lemma FollowableStep(s: EC.State, s': EC.State, t: nat, v: nat)
    requires Followable(s) && t < |s.pcs| && |s'.pcs| == |s.pcs|
    requires forall u :: 0 <= u < |s.pcs| && u != t ==> s'.pcs[u] == s.pcs[u] || s'.pcs[u].Parking?
    requires EpochsGrow(s.waiters, s'.waiters)
    requires forall w :: 0 <= w < |s.waiters| && w != v ==> s'.waiters[w] == s.waiters[w]
    requires FollowOk(s'.pcs[t], s'.waiters) && (v < |s.waiters| ==> StoredOk(s'.waiters[v], s'.waiters))
    ensures Followable(s')
  {
    forall u | 0 <= u < |s'.pcs| ensures FollowOk(s'.pcs[u], s'.waiters) {
      if u != t { FollowKept(s.pcs[u], s.waiters, s'.waiters); }
    }
    forall w | 0 <= w < |s'.waiters| ensures StoredOk(s'.waiters[w], s'.waiters) {
      assert StoredOk(s.waiters[w], s.waiters);
    }
  }

  lemma StoreFollowable(s: EC.State, t: nat, w: EC.Word)
    requires Inv(s) && Followable(s) && t < |s.pcs| && t < |s.waiters| && s.pcs[t] == EC.CommitStore(w)
    ensures Followable(EC.RunCommitStore(s, t, w))
  {
    assert RefOk(w.top, s.waiters) by { SnapTop(s, t); }
    assert StoredOk(s.waiters[t], s.waiters);
    FollowableStep(s, EC.RunCommitStore(s, t, w), t, t);
  }

  lemma SnapTop(s: EC.State, t: nat)
    requires Inv(s) && t < |s.pcs|
    ensures var p := s.pcs[t];
            p.CommitStore? || p.CommitCas? || p.NotifyDecide? || p.NotifyCas? ==> RefOk(p.s.top, s.waiters)
    ensures s.pcs[t].CommitCas? && s.pcs[t].s.signals == 0 ==> t < |s.waiters| && s.waiters[t].next == s.pcs[t].s.top
  {
    assert AgentAt(s, t);
  }

  lemma PushFollowable(s: EC.State, t: nat, w: EC.Word, spurious: bool)
    requires Inv(s) && Followable(s) && t < |s.pcs| && t < |s.waiters| && s.pcs[t] == EC.CommitCas(w)
    ensures t < |s.home| && Followable(EC.RunCommitCas(s, t, w, spurious))
  {
    SnapTop(s, t);
    assert StoredOk(s.waiters[t], s.waiters);
    FollowableStep(s, EC.RunCommitCas(s, t, w, spurious), t, t);
  }

  /** Writing a waiter's signal does not change what can be followed. */
  lemma SignalFollowable(s: EC.State, s': EC.State, t: nat, v: nat, pc: EC.Pc)
    requires Followable(s) && t < |s.pcs| && s'.pcs == s.pcs[t := pc] && |s'.waiters| == |s.waiters|
    requires forall w :: 0 <= w < |s.waiters| ==> s'.waiters[w] == s.waiters[w].(signal := s'.waiters[w].signal)
    requires forall w :: 0 <= w < |s.waiters| && w != v ==> s'.waiters[w] == s.waiters[w]
    requires FollowOk(pc, s.waiters)
    ensures Followable(s')
  {
    if v < |s.waiters| { assert StoredOk(s.waiters[v], s.waiters); }
    FollowKept(pc, s.waiters, s'.waiters);
    FollowableStep(s, s', t, v);
  }

  lemma NotifyFollowable(s: EC.State, t: nat, spurious: bool)
    requires Inv(s) && Followable(s) && EC.Enabled(s, t, EC.Run(spurious))
    requires s.pcs[t].NotifyDecide? || s.pcs[t].NotifyCas?
    ensures Followable(EC.Apply(s, t, EC.Run(spurious)))
  {
    var s', w := EC.Apply(s, t, EC.Run(spurious)), s.pcs[t].s;
    assert AgentAt(s, t);
    if w.top.index < |s.waiters| { assert StoredOk(s.waiters[w.top.index], s.waiters); }
    FollowableStep(s, s', t, |s.waiters|);
  }

  lemma DetachFollowable(s: EC.State, t: nat, w: nat)
    requires Followable(s) && t < |s.pcs| && w < |s.waiters| && s.pcs[t] == EC.Detached(w)
    ensures Followable(EC.RunDetach(s, t, w))
  {
    assert FollowOk(s.pcs[t], s.waiters);
    FollowableStep(s, EC.RunDetach(s, t, w), t, w);
  }

  lemma UnparkFollowable(s: EC.State, t: nat, w: nat)
    requires Followable(s) && t < |s.pcs| && w < |s.waiters| && s.pcs[t] == EC.Unpark(w)
    ensures Followable(EC.At(s, t, EC.UnparkLock(w, s.waiters[w].next.index)))
  {
    assert FollowOk(s.pcs[t], s.waiters) && StoredOk(s.waiters[w], s.waiters);
    SignalFollowable(s, EC.At(s, t, EC.UnparkLock(w, s.waiters[w].next.index)), t, |s.waiters|, EC.UnparkLock(w, s.waiters[w].next.index));
  }

  lemma LockFollowable(s: EC.State, t: nat, w: nat, after: nat)
    requires Followable(s) && t < |s.pcs| == |s.owed| && w < |s.waiters| == |s.home| == |s.wakes|
    requires s.pcs[t] == EC.UnparkLock(w, after)
    ensures Followable(EC.RunUnparkLock(s, t, w, after))
  {
    var s' := EC.RunUnparkLock(s, t, w, after);
    assert FollowOk(s.pcs[t], s.waiters);
    SignalFollowable(s, s', t, w, s'.pcs[t]);
  }

  lemma WakeFollowable(s: EC.State, t: nat, w: nat, after: nat)
    requires Followable(s) && t < |s.pcs| && w < |s.waiters| == |s.home| && |s.waiters| <= |s.pcs|
    requires s.pcs[t] == EC.UnparkWake(w, after)
    ensures Followable(EC.RunUnparkWake(s, t, w, after))
  {
    var s' := EC.RunUnparkWake(s, t, w, after);
    assert FollowOk(s.pcs[t], s.waiters);
    FollowableStep(s, s', t, |s.waiters|);
  }

  // What one step of either machine is, case by case.

  lemma CommitUnfolds(s: EC.State, t: nat, spurious: bool)
    requires EC.Enabled(s, t, EC.Run(spurious)) && s.pcs[t].CommitCas?
    ensures var p := s.pcs[t]; EC.Apply(s, t, EC.Run(spurious)) == EC.RunCommitCas(s, t, p.s, spurious)
    ensures InRange(View(s), t) ==> var p, v := s.pcs[t], View(s); Step(v, t, spurious) == CommitStep(v, t, Word64(p.s), spurious)
  {
  }

  lemma NotifyUnfolds(s: EC.State, t: nat, spurious: bool)
    requires EC.Enabled(s, t, EC.Run(spurious)) && s.pcs[t].NotifyCas?
    ensures var p := s.pcs[t]; EC.Apply(s, t, EC.Run(spurious)) == EC.RunNotifyCas(s, t, p.all, p.armed, p.s, p.next, spurious)
    ensures InRange(View(s), t) ==> var p, v := s.pcs[t], View(s); Step(v, t, spurious) == NotifyStep(v, t, p.all, Word64(p.s), Link64(p.next), spurious)
  {
  }

  lemma DecideUnfolds(s: EC.State, t: nat, spurious: bool)
    requires EC.Enabled(s, t, EC.Run(spurious)) && s.pcs[t].NotifyDecide?
    ensures var p := s.pcs[t]; EC.Apply(s, t, EC.Run(spurious)) == EC.RunNotifyDecide(s, t, p.all, p.armed, p.s)
    ensures InRange(View(s), t) ==> var p, v := s.pcs[t], View(s); Step(v, t, spurious) == DecideStep(v, t, p.all, Word64(p.s))
  {
  }

  lemma DetachUnfolds(s: EC.State, t: nat, spurious: bool)
    requires EC.Enabled(s, t, EC.Run(spurious)) && s.pcs[t].Detached?
    ensures var p := s.pcs[t]; EC.Apply(s, t, EC.Run(spurious)) == EC.RunDetach(s, t, p.w)
    ensures InRange(View(s), t) ==> var p, v := s.pcs[t], View(s); Step(v, t, spurious) == DetachStep(v, t, p.w)
  {
  }

  lemma UnparkUnfolds(s: EC.State, t: nat, spurious: bool)
    requires EC.Enabled(s, t, EC.Run(spurious)) && s.pcs[t].Unpark?
    ensures var p := s.pcs[t]; EC.Apply(s, t, EC.Run(spurious)) == EC.At(s, t, EC.UnparkLock(p.w, s.waiters[p.w].next.index))
    ensures InRange(View(s), t) ==> var p, v := s.pcs[t], View(s); Step(v, t, spurious) == At(v, t, UnparkLock(p.w, And(v.waiters[p.w].next, STACK_MASK)))
  {
  }

  lemma LockUnfolds(s: EC.State, t: nat, spurious: bool)
    requires EC.Enabled(s, t, EC.Run(spurious)) && s.pcs[t].UnparkLock?
    ensures var p := s.pcs[t]; EC.Apply(s, t, EC.Run(spurious)) == EC.RunUnparkLock(s, t, p.w, p.after)
    ensures InRange(View(s), t) ==> var p, v := s.pcs[t], View(s); Step(v, t, spurious) == LockStep(v, t, p.w, p.after)
  {
  }

  lemma WakeUnfolds(s: EC.State, t: nat, spurious: bool)
    requires EC.Enabled(s, t, EC.Run(spurious)) && s.pcs[t].UnparkWake?
    ensures var p := s.pcs[t]; EC.Apply(s, t, EC.Run(spurious)) == EC.RunUnparkWake(s, t, p.w, p.after)
    ensures InRange(View(s), t) ==> var p, v := s.pcs[t], View(s); Step(v, t, spurious) == WakeStep(v, t, p.w, p.after)
  {
  }

  lemma WorkerFollowable(s: EC.State, t: nat, spurious: bool)
    requires Inv(s) && Followable(s) && EC.Enabled(s, t, EC.Run(spurious))
    requires s.pcs[t].CommitStart? || s.pcs[t].CommitStore? || s.pcs[t].CommitCas? || s.pcs[t].Parking?
    ensures Followable(EC.Apply(s, t, EC.Run(spurious)))
  {
    if s.pcs[t].CommitStore? {
      StoreFollowable(s, t, s.pcs[t].s);
    } else if s.pcs[t].CommitCas? {
      PushFollowable(s, t, s.pcs[t].s, spurious);
    } else {
      var s' := EC.Apply(s, t, EC.Run(spurious));
      SignalFollowable(s, s', t, t, s'.pcs[t]);
    }
  }

  lemma ChainFollowable(s: EC.State, t: nat, spurious: bool)
    requires Followable(s) && EC.Enabled(s, t, EC.Run(spurious)) && (s.pcs[t].Detached? || s.pcs[t].Unpark?)
    ensures Followable(EC.Apply(s, t, EC.Run(spurious)))
  {
    if s.pcs[t].Detached? {
      DetachUnfolds(s, t, spurious);
      DetachFollowable(s, t, s.pcs[t].w);
    } else {
      UnparkUnfolds(s, t, spurious);
      UnparkFollowable(s, t, s.pcs[t].w);
    }
  }

  lemma SignalsFollowable(s: EC.State, t: nat, spurious: bool)
    requires Followable(s) && EC.Enabled(s, t, EC.Run(spurious)) && (s.pcs[t].UnparkLock? || s.pcs[t].UnparkWake?)
    ensures Followable(EC.Apply(s, t, EC.Run(spurious)))
  {
    var p := s.pcs[t];
    if p.UnparkLock? {
      LockUnfolds(s, t, spurious);
      LockFollowable(s, t, p.w, p.after);
    } else {
      WakeUnfolds(s, t, spurious);
      WakeFollowable(s, t, p.w, p.after);
    }
  }

  /** A step that writes no waiter and reads no link. */
  lemma QuietFollowable(s: EC.State, t: nat, act: EC.Action)
    requires Followable(s) && EC.Enabled(s, t, act)
    requires act.Run? ==> var p := s.pcs[t];
             p.PrewaitStart? || p.PrewaitCas? || p.CancelStart? || p.CancelCas? || p.CommitLoad? || p.Asleep? || p.NotifyStart?
    ensures Followable(EC.Apply(s, t, act))
  {
    var s' := EC.Apply(s, t, act);
    assert s'.waiters == s.waiters;
    FollowableStep(s, s', t, |s.waiters|);
  }

  lemma FollowableNext(s: EC.State, t: nat, act: EC.Action)
    requires Inv(s) && Followable(s) && EC.Enabled(s, t, act)
    ensures Followable(EC.Apply(s, t, act))
  {
    var p := s.pcs[t];
    if act.Run? && (p.CommitStart? || p.CommitStore? || p.CommitCas? || p.Parking?) {
      WorkerFollowable(s, t, act.spurious);
    } else if act.Run? && (p.NotifyDecide? || p.NotifyCas?) {
      NotifyFollowable(s, t, act.spurious);
    } else if act.Run? && (p.Detached? || p.Unpark?) {
      ChainFollowable(s, t, act.spurious);
    } else if act.Run? && (p.UnparkLock? || p.UnparkWake?) {
      SignalsFollowable(s, t, act.spurious);
    } else {
      QuietFollowable(s, t, act);
    }
  }

  // ------------------------------------------------------------ one step

  /** Since w was loaded its top waiter was pushed at most 2^22 times. */
  predicate Recent(s: EC.State, w: EC.Word) {
    w.top.index < |s.waiters| ==> s.waiters[w.top.index].epoch - w.top.epoch <= EPOCHS
  }

  predicate AtCas(p: EC.Pc) { p.PrewaitCas? || p.CancelCas? || p.CommitCas? || p.NotifyCas? }

  predicate InWindow(s: EC.State, t: nat, act: EC.Action)
    requires t < |s.pcs|
  {
    act.Run? && AtCas(s.pcs[t]) ==> Recent(s, s.pcs[t].s)
  }

  lemma CasAgrees(s: EC.State, w: EC.Word)
    requires Inv(s) && SnapOk(w, s.waiters) && Recent(s, w)
    ensures Fits(w) && Fits(s.word) && (Pack(s.word) == Pack(w) <==> s.word == w)
  {
    PackedCasAgrees(s, w);
  }

  lemma EpochSteps(epoch: int)
    requires epoch >= 0
    ensures (Epoch64(epoch) + EPOCH_INC) % WORD == Epoch64(epoch + 1)
  {
    var r := epoch % EPOCHS;
    if r + 1 < EPOCHS { ModUnique(epoch + 1, EPOCHS, epoch / EPOCHS, r + 1); } else { ModUnique(epoch + 1, EPOCHS, epoch / EPOCHS + 1, 0); }
  }

  lemma LinkIndex(r: EC.Ref)
    requires r.index <= STACK_MASK && 0 <= r.epoch
    ensures And(Link64(r), STACK_MASK) == r.index
  {
    ReadFields(EC.Word(r, 0, 0));
  }

  /** The view of a state in which only agent t, waiter v, the word and the flag may differ. */
  lemma ViewMoves(s: EC.State, s': EC.State, t: nat, pc: EC.Pc)
    requires t < |s.pcs| && s'.pcs == s.pcs[t := pc] && s'.waiters == s.waiters && s'.cond == s.cond
    ensures View(s') == At(View(s), t, ViewPc(pc)).(word := Word64(s'.word))
  {
    ViewPcsUpdate(s.pcs, t, pc);
  }

  lemma ViewWrites(s: EC.State, s': EC.State, t: nat, pc: EC.Pc, v: nat, wt: EC.Waiter)
    requires t < |s.pcs| && s'.pcs == s.pcs[t := pc] && v < |s.waiters| && s'.waiters == s.waiters[v := wt] && s'.cond == s.cond
    ensures View(s') == At(View(s), t, ViewPc(pc)).(word := Word64(s'.word), waiters := ViewWaiters(s.waiters)[v := ViewWaiter(wt)])
  {
    ViewPcsUpdate(s.pcs, t, pc);
    ViewWaitersUpdate(s.waiters, v, wt);
  }

  lemma SnapOf(s: EC.State, t: nat)
    requires Inv(s) && t < |s.pcs|
    ensures var p := s.pcs[t];
            p.PrewaitCas? || p.CancelCas? || p.CommitStore? || p.CommitCas? || p.NotifyDecide? || p.NotifyCas? ==>
              SnapOk(p.s, s.waiters) && Fits(p.s) && (p.PrewaitCas? ==> p.s.waiters < |s.waiters|)
              && (p.CancelCas? || p.CommitStore? || p.CommitCas? ==> 1 <= p.s.waiters)
    ensures |s.waiters| < EC.NIL
  {
    assert AgentAt(s, t);
  }

  lemma PrewaitView(s: EC.State, t: nat, w: EC.Word, spurious: bool)
    requires Inv(s) && t < |s.pcs| && s.pcs[t] == EC.PrewaitCas(w) && Recent(s, w)
    ensures View(EC.RunPrewaitCas(s, t, w, spurious)) == PrewaitStep(View(s), t, Word64(w), spurious)
  {
    SnapOf(s, t);
    CasAgrees(s, w);
    PrewaitPacks(w);
    if s.word == w && !spurious {
      ViewMoves(s, EC.RunPrewaitCas(s, t, w, spurious), t, EC.Prewaiting);
    } else {
      ViewMoves(s, EC.RunPrewaitCas(s, t, w, spurious), t, EC.PrewaitCas(s.word));
    }
  }

  lemma CancelView(s: EC.State, t: nat, w: EC.Word, spurious: bool)
    requires Inv(s) && t < |s.pcs| && s.pcs[t] == EC.CancelCas(w) && Recent(s, w)
    ensures View(EC.RunCancelCas(s, t, w, spurious)) == CancelStep(View(s), t, Word64(w), spurious)
  {
    SnapOf(s, t);
    CasAgrees(s, w);
    CancelPacks(w);
    if s.word == w && !spurious {
      ViewMoves(s, EC.RunCancelCas(s, t, w, spurious), t, EC.Idle);
    } else {
      ViewMoves(s, EC.RunCancelCas(s, t, w, spurious), t, EC.CancelCas(s.word));
    }
  }

  lemma StoreView(s: EC.State, t: nat, w: EC.Word)
    requires Inv(s) && t < |s.pcs| && t < |s.waiters| && s.pcs[t] == EC.CommitStore(w)
    ensures View(EC.RunCommitStore(s, t, w)) == StoreStep(View(s), t, Word64(w))
  {
    SnapOf(s, t);
    assert And(Word64(w), SIGNAL_MASK) == SIGNAL_INC * w.signals by { ReadFields(w); }
    LinkPacks(w);
    if w.signals != 0 {
      ViewMoves(s, EC.RunCommitStore(s, t, w), t, EC.CommitCas(w));
    } else {
      ViewWrites(s, EC.RunCommitStore(s, t, w), t, EC.CommitCas(w), t, s.waiters[t].(next := w.top));
    }
  }

  lemma ConsumeView(s: EC.State, t: nat, w: EC.Word, spurious: bool)
    requires Inv(s) && t < |s.pcs| && t < |s.waiters| && s.pcs[t] == EC.CommitCas(w) && Recent(s, w)
    requires s.word != w || spurious || w.signals != 0
    ensures View(EC.RunCommitCas(s, t, w, spurious)) == CommitStep(View(s), t, Word64(w), spurious)
  {
    SnapOf(s, t);
    CasAgrees(s, w);
    if s.word != w || spurious {
      ViewMoves(s, EC.RunCommitCas(s, t, w, spurious), t, EC.CommitStore(s.word));
    } else {
      assert And(Word64(w), SIGNAL_MASK) == SIGNAL_INC * w.signals by { ReadFields(w); }
      ConsumePacks(w);
      ViewMoves(s, EC.RunCommitCas(s, t, w, spurious), t, EC.Idle);
    }
  }

  /** The word and epoch of a push, as the source computes them. */
  lemma PushWords(w: EC.Word, t: nat, epoch: int)
    requires Fits(w) && 1 <= w.waiters && w.signals == 0 && t <= STACK_MASK && epoch >= 0
    ensures And(Pack(w), SIGNAL_MASK) == 0
    ensures var after := EC.AfterPush(w, EC.Ref(t, epoch)); Fits(after) && PushWord(Pack(w), Or(t, Epoch64(epoch))) == Pack(after)
    ensures (Epoch64(epoch) + EPOCH_INC) % WORD == Epoch64(epoch + 1)
  {
    ReadFields(w);
    MePacks(t, epoch);
    PushPacks(w, EC.Ref(t, epoch));
    EpochSteps(epoch);
  }

  lemma PushView(s: EC.State, t: nat, w: EC.Word)
    requires t < |s.pcs| && t < |s.waiters| == |s.home| && s.word == w && w.signals == 0
    requires Fits(w) && 1 <= w.waiters && t < STACK_MASK && s.waiters[t].epoch >= 0
    ensures View(EC.RunCommitCas(s, t, w, false)) == CommitStep(View(s), t, Word64(w), false)
  {
    var wt := s.waiters[t];
    PushWords(w, t, wt.epoch);
    ViewWrites(s, EC.RunCommitCas(s, t, w, false), t, EC.Parking, t, wt.(epoch := wt.epoch + 1));
  }

  lemma PushReady(s: EC.State, t: nat)
    requires Inv(s) && t < |s.pcs| && s.pcs[t].CommitCas? && t < |s.waiters|
    ensures Fits(s.pcs[t].s) && 1 <= s.pcs[t].s.waiters && t < STACK_MASK && s.waiters[t].epoch >= 0
  {
    SnapOf(s, t);
    assert WaiterOk(s, t);
  }

  lemma DecideView(s: EC.State, t: nat, all: bool, armed: bool, w: EC.Word)
    requires Fits(w) && t < |s.pcs| && (EC.Pops(all, w) ==> w.top.index < |s.waiters|)
    ensures Pops(all, Word64(w)) ==> StackIndex(Word64(w)) < |s.waiters|
    ensures View(EC.RunNotifyDecide(s, t, all, armed, w)) == DecideStep(View(s), t, all, Word64(w))
  {
    DecideTests(w, all);
    if EC.NothingToNotify(w) {
      ViewMoves(s, EC.RunNotifyDecide(s, t, all, armed, w), t, EC.Idle);
    } else {
      var next := if EC.Pops(all, w) then s.waiters[w.top.index].next else EC.EMPTY;
      assert Link64(EC.EMPTY) == STACK_MASK;
      ViewMoves(s, EC.RunNotifyDecide(s, t, all, armed, w), t, EC.NotifyCas(all, armed, w, next));
    }
  }

  /** The tests of Notify on the word are the tests on the record. */
  lemma DecideTests(w: EC.Word, all: bool)
    requires Fits(w)
    ensures Nothing(Pack(w)) == EC.NothingToNotify(w) && Pops(all, Pack(w)) == EC.Pops(all, w) && StackIndex(Pack(w)) == w.top.index
    ensures (SignalCount(Pack(w)) < WaiterCount(Pack(w))) == (w.signals < w.waiters)
  {
    ReadFields(w);
  }

  lemma NotifyFailView(s: EC.State, t: nat, all: bool, armed: bool, w: EC.Word, next: EC.Ref, spurious: bool)
    requires Inv(s) && t < |s.pcs| && s.pcs[t] == EC.NotifyCas(all, armed, w, next) && Recent(s, w)
    requires (w.top.index == EC.NIL || w.top.index < |s.waiters|) && (s.word != w || spurious)
    ensures View(EC.RunNotifyCas(s, t, all, armed, w, next, spurious)) == NotifyStep(View(s), t, all, Word64(w), Link64(next), spurious)
  {
    SnapOf(s, t);
    CasAgrees(s, w);
    ViewMoves(s, EC.RunNotifyCas(s, t, all, armed, w, next, spurious), t, EC.NotifyDecide(all, armed, s.word));
  }

  lemma NotifyAllView(s: EC.State, t: nat, all: bool, armed: bool, w: EC.Word, next: EC.Ref)
    requires Inv(s) && t < |s.pcs| && s.pcs[t] == EC.NotifyCas(all, armed, w, next) && s.word == w
    requires (w.top.index == EC.NIL || w.top.index < |s.waiters|) && (EC.Pops(all, w) ==> RefOk(next, s.waiters))
    requires all
    ensures View(EC.RunNotifyCas(s, t, all, armed, w, next, false)) == NotifyStep(View(s), t, all, Word64(w), Link64(next), false)
  {
    assert Fits(w) by { SnapOf(s, t); }
    assert StackIndex(Pack(w)) == w.top.index by { ReadFields(w); }
    NotifyAllPacks(w);
    ViewMoves(s, EC.RunNotifyCas(s, t, all, armed, w, next, false), t, if w.top.index == EC.NIL then EC.Idle else EC.Unpark(w.top.index));
  }

  lemma SignalView(s: EC.State, t: nat, all: bool, armed: bool, w: EC.Word, next: EC.Ref)
    requires Inv(s) && t < |s.pcs| && s.pcs[t] == EC.NotifyCas(all, armed, w, next) && s.word == w
    requires (w.top.index == EC.NIL || w.top.index < |s.waiters|) && !all && w.signals < w.waiters
    ensures View(EC.RunNotifyCas(s, t, all, armed, w, next, false)) == NotifyStep(View(s), t, all, Word64(w), Link64(next), false)
  {
    assert Fits(w) && |s.waiters| < EC.NIL && w.signals <= w.waiters <= |s.waiters| by { SnapOf(s, t); }
    assert !EC.NothingToNotify(w) by { assert AgentAt(s, t); }
    DecideTests(w, all);
    SignalPacks(w);
    ViewMoves(s, EC.RunNotifyCas(s, t, all, armed, w, next, false), t, EC.Idle);
  }

  lemma PopView(s: EC.State, t: nat, all: bool, armed: bool, w: EC.Word, next: EC.Ref)
    requires Inv(s) && t < |s.pcs| && s.pcs[t] == EC.NotifyCas(all, armed, w, next) && s.word == w
    requires (w.top.index == EC.NIL || w.top.index < |s.waiters|) && (EC.Pops(all, w) ==> RefOk(next, s.waiters))
    requires !all && w.signals >= w.waiters
    ensures View(EC.RunNotifyCas(s, t, all, armed, w, next, false)) == NotifyStep(View(s), t, all, Word64(w), Link64(next), false)
  {
    assert Fits(w) && |s.waiters| < EC.NIL && w.signals <= w.waiters <= |s.waiters| by { SnapOf(s, t); }
    assert !EC.NothingToNotify(w) by { assert AgentAt(s, t); }
    DecideTests(w, all);
    PopPacks(w, next);
    ViewMoves(s, EC.RunNotifyCas(s, t, all, armed, w, next, false), t,
              if w.top.index == EC.NIL then EC.Idle else EC.Detached(w.top.index));
  }

  lemma NotifyWinView(s: EC.State, t: nat, all: bool, armed: bool, w: EC.Word, next: EC.Ref)
    requires Inv(s) && t < |s.pcs| && s.pcs[t] == EC.NotifyCas(all, armed, w, next) && s.word == w
    requires (w.top.index == EC.NIL || w.top.index < |s.waiters|) && (EC.Pops(all, w) ==> RefOk(next, s.waiters))
    ensures View(EC.RunNotifyCas(s, t, all, armed, w, next, false)) == NotifyStep(View(s), t, all, Word64(w), Link64(next), false)
  {
    if all {
      NotifyAllView(s, t, all, armed, w, next);
    } else if w.signals < w.waiters {
      SignalView(s, t, all, armed, w, next);
    } else {
      PopView(s, t, all, armed, w, next);
    }
  }

  lemma UnparkView(s: EC.State, t: nat, w: nat)
    requires t < |s.pcs| && w < |s.waiters| && s.waiters[w].next.index <= STACK_MASK && 0 <= s.waiters[w].next.epoch
    ensures View(EC.At(s, t, EC.UnparkLock(w, s.waiters[w].next.index))) ==
            At(View(s), t, UnparkLock(w, And(View(s).waiters[w].next, STACK_MASK)))
  {
    LinkIndex(s.waiters[w].next);
    ViewMoves(s, EC.At(s, t, EC.UnparkLock(w, s.waiters[w].next.index)), t, EC.UnparkLock(w, s.waiters[w].next.index));
  }

  lemma NextIsLink(s: EC.State, t: nat)
    requires Inv(s) && Followable(s) && t < |s.pcs| && s.pcs[t].Unpark? && s.pcs[t].w < |s.waiters|
    ensures var r := s.waiters[s.pcs[t].w].next; r.index <= STACK_MASK && 0 <= r.epoch
  {
    assert FollowOk(s.pcs[t], s.waiters) && StoredOk(s.waiters[s.pcs[t].w], s.waiters);
  }

  lemma DetachView(s: EC.State, t: nat, w: nat)
    requires t < |s.pcs| && w < |s.waiters|
    ensures View(EC.RunDetach(s, t, w)) == DetachStep(View(s), t, w)
  {
    assert Link64(EC.EMPTY) == STACK_MASK;
    ViewWrites(s, EC.RunDetach(s, t, w), t, EC.Unpark(w), w, s.waiters[w].(next := EC.EMPTY));
  }

  lemma LockView(s: EC.State, t: nat, w: nat, after: nat)
    requires t < |s.pcs| == |s.owed| && w < |s.waiters| == |s.home| == |s.wakes|
    ensures View(EC.RunUnparkLock(s, t, w, after)) == LockStep(View(s), t, w, after)
  {
    var s' := EC.RunUnparkLock(s, t, w, after);
    ViewWrites(s, s', t, s'.pcs[t], w, s.waiters[w].(signal := EC.Signaled));
  }

  lemma WakeView(s: EC.State, t: nat, w: nat, after: nat)
    requires t < |s.pcs| && w < |s.waiters| == |s.home| && |s.waiters| <= |s.pcs|
    ensures View(EC.RunUnparkWake(s, t, w, after)) == WakeStep(View(s), t, w, after)
  {
    var to := if after == EC.NIL then EC.Idle else EC.Unpark(after);
    ViewPcsUpdate(s.pcs, t, to);
    ViewPcsUpdate(s.pcs[t := to], w, EC.Parking);
    assert ViewPcs(s.pcs)[w].Asleep? == s.pcs[w].Asleep?;
  }

  lemma StartView(s: EC.State, t: nat)
    requires t < |s.pcs| && t < |s.waiters| == |s.home|
    ensures View(EC.RunCommitStart(s, t)) == StartStep(View(s), t) && View(EC.RunPark(s, t)) == ParkStep(View(s), t)
  {
    ViewWrites(s, EC.RunCommitStart(s, t), t, EC.CommitLoad, t, s.waiters[t].(signal := EC.NotSignaled));
    if s.waiters[t].signal.Signaled? {
      ViewMoves(s, EC.RunPark(s, t), t, EC.Idle);
    } else {
      ViewWrites(s, EC.RunPark(s, t), t, EC.Asleep, t, s.waiters[t].(signal := EC.Waiting));
    }
  }

  /** The indices a step of the packed machine uses are those the record machine uses. */
  lemma StepInRange(s: EC.State, t: nat, spurious: bool)
    requires Inv(s) && EC.Enabled(s, t, EC.Run(spurious))
    ensures InRange(View(s), t)
  {
    SnapOf(s, t);
    if s.pcs[t].NotifyDecide? { DecideTests(s.pcs[t].s, s.pcs[t].all); }
  }

  /** What each kind of step starts from. */
  predicate Ready(s: EC.State, t: nat, spurious: bool) {
    && Inv(s) && Followable(s) && EC.Enabled(s, t, EC.Run(spurious)) && InWindow(s, t, EC.Run(spurious)) && InRange(View(s), t)
  }

  predicate Loads(p: EC.Pc) { p.PrewaitStart? || p.CancelStart? || p.CommitLoad? || p.Asleep? || p.NotifyStart? }

  lemma LoadCoincides(s: EC.State, t: nat, spurious: bool)
    requires EC.Enabled(s, t, EC.Run(spurious)) && InRange(View(s), t) && Loads(s.pcs[t])
    ensures View(EC.Apply(s, t, EC.Run(spurious))) == Step(View(s), t, spurious)
  {
    var s' := EC.Apply(s, t, EC.Run(spurious));
    assert s'.waiters == s.waiters && s'.word == s.word;
    ViewMoves(s, s', t, s'.pcs[t]);
  }

  lemma StartCoincides(s: EC.State, t: nat, spurious: bool)
    requires EC.Enabled(s, t, EC.Run(spurious)) && InRange(View(s), t) && s.pcs[t].CommitStart?
    ensures View(EC.Apply(s, t, EC.Run(spurious))) == Step(View(s), t, spurious)
  {
    StartView(s, t);
  }

  lemma ParkCoincides(s: EC.State, t: nat, spurious: bool)
    requires EC.Enabled(s, t, EC.Run(spurious)) && InRange(View(s), t) && s.pcs[t].Parking?
    ensures View(EC.Apply(s, t, EC.Run(spurious))) == Step(View(s), t, spurious)
  {
    StartView(s, t);
  }

  lemma PrewaitCoincides(s: EC.State, t: nat, spurious: bool)
    requires Ready(s, t, spurious) && s.pcs[t].PrewaitCas?
    ensures View(EC.Apply(s, t, EC.Run(spurious))) == Step(View(s), t, spurious)
  {
    PrewaitView(s, t, s.pcs[t].s, spurious);
  }

  lemma CancelCoincides(s: EC.State, t: nat, spurious: bool)
    requires Ready(s, t, spurious) && s.pcs[t].CancelCas?
    ensures View(EC.Apply(s, t, EC.Run(spurious))) == Step(View(s), t, spurious)
  {
    CancelView(s, t, s.pcs[t].s, spurious);
  }

  lemma StoreCoincides(s: EC.State, t: nat, spurious: bool)
    requires Ready(s, t, spurious) && s.pcs[t].CommitStore?
    ensures View(EC.Apply(s, t, EC.Run(spurious))) == Step(View(s), t, spurious)
  {
    StoreView(s, t, s.pcs[t].s);
  }

  lemma CommitCoincides(s: EC.State, t: nat, spurious: bool)
    requires Ready(s, t, spurious) && s.pcs[t].CommitCas?
    ensures View(EC.Apply(s, t, EC.Run(spurious))) == Step(View(s), t, spurious)
  {
    CommitUnfolds(s, t, spurious);
    var w := s.pcs[t].s;
    if s.word != w || spurious || w.signals != 0 {
      ConsumeView(s, t, w, spurious);
    } else {
      PushReady(s, t);
      PushView(s, t, w);
    }
  }

  lemma DecideCoincides(s: EC.State, t: nat, spurious: bool)
    requires Ready(s, t, spurious) && s.pcs[t].NotifyDecide?
    ensures View(EC.Apply(s, t, EC.Run(spurious))) == Step(View(s), t, spurious)
  {
    DecideUnfolds(s, t, spurious);
    assert Fits(s.pcs[t].s) by { SnapOf(s, t); }
    DecideView(s, t, s.pcs[t].all, s.pcs[t].armed, s.pcs[t].s);
  }

  lemma NotifyCoincides(s: EC.State, t: nat, spurious: bool)
    requires Ready(s, t, spurious) && s.pcs[t].NotifyCas?
    ensures View(EC.Apply(s, t, EC.Run(spurious))) == Step(View(s), t, spurious)
  {
    NotifyUnfolds(s, t, spurious);
    var p := s.pcs[t];
    assert FollowOk(p, s.waiters);
    if s.word != p.s || spurious {
      NotifyFailView(s, t, p.all, p.armed, p.s, p.next, spurious);
    } else {
      NotifyWinView(s, t, p.all, p.armed, p.s, p.next);
    }
  }

  lemma DetachCoincides(s: EC.State, t: nat, spurious: bool)
    requires EC.Enabled(s, t, EC.Run(spurious)) && InRange(View(s), t) && s.pcs[t].Detached?
    ensures View(EC.Apply(s, t, EC.Run(spurious))) == Step(View(s), t, spurious)
  {
    DetachUnfolds(s, t, spurious);
    DetachView(s, t, s.pcs[t].w);
  }

  lemma UnparkCoincides(s: EC.State, t: nat, spurious: bool)
    requires Ready(s, t, spurious) && s.pcs[t].Unpark?
    ensures View(EC.Apply(s, t, EC.Run(spurious))) == Step(View(s), t, spurious)
  {
    UnparkUnfolds(s, t, spurious);
    NextIsLink(s, t);
    UnparkView(s, t, s.pcs[t].w);
  }

  lemma LockCoincides(s: EC.State, t: nat, spurious: bool)
    requires EC.Enabled(s, t, EC.Run(spurious)) && InRange(View(s), t) && s.pcs[t].UnparkLock?
    ensures View(EC.Apply(s, t, EC.Run(spurious))) == Step(View(s), t, spurious)
  {
    LockUnfolds(s, t, spurious);
    LockView(s, t, s.pcs[t].w, s.pcs[t].after);
  }

  lemma WakeCoincides(s: EC.State, t: nat, spurious: bool)
    requires EC.Enabled(s, t, EC.Run(spurious)) && InRange(View(s), t) && s.pcs[t].UnparkWake?
    ensures View(EC.Apply(s, t, EC.Run(spurious))) == Step(View(s), t, spurious)
  {
    WakeUnfolds(s, t, spurious);
    WakeView(s, t, s.pcs[t].w, s.pcs[t].after);
  }

  lemma WorkerCoincides(s: EC.State, t: nat, spurious: bool)
    requires Ready(s, t, spurious) && !Notifying(s.pcs[t]) && !Loads(s.pcs[t])
    ensures View(EC.Apply(s, t, EC.Run(spurious))) == Step(View(s), t, spurious)
  {
    var p := s.pcs[t];
    if p.CommitStart? {
      StartCoincides(s, t, spurious);
    } else if p.Parking? {
      ParkCoincides(s, t, spurious);
    } else if p.PrewaitCas? {
      PrewaitCoincides(s, t, spurious);
    } else if p.CancelCas? {
      CancelCoincides(s, t, spurious);
    } else if p.CommitStore? {
      StoreCoincides(s, t, spurious);
    } else {
      CommitCoincides(s, t, spurious);
    }
  }

  lemma NotifierCoincides(s: EC.State, t: nat, spurious: bool)
    requires Ready(s, t, spurious) && Notifying(s.pcs[t]) && !Loads(s.pcs[t])
    ensures View(EC.Apply(s, t, EC.Run(spurious))) == Step(View(s), t, spurious)
  {
    var p := s.pcs[t];
    if p.NotifyDecide? {
      DecideCoincides(s, t, spurious);
    } else if p.NotifyCas? {
      NotifyCoincides(s, t, spurious);
    } else if p.Detached? {
      DetachCoincides(s, t, spurious);
    } else if p.Unpark? {
      UnparkCoincides(s, t, spurious);
    } else if p.UnparkLock? {
      LockCoincides(s, t, spurious);
    } else {
      WakeCoincides(s, t, spurious);
    }
  }

  lemma RunCoincides(s: EC.State, t: nat, spurious: bool)
    requires Inv(s) && Followable(s) && EC.Enabled(s, t, EC.Run(spurious)) && InWindow(s, t, EC.Run(spurious))
    ensures InRange(View(s), t)
    ensures View(EC.Apply(s, t, EC.Run(spurious))) == Step(View(s), t, spurious)
  {
    StepInRange(s, t, spurious);
    if Loads(s.pcs[t]) {
      LoadCoincides(s, t, spurious);
    } else if Notifying(s.pcs[t]) {
      NotifierCoincides(s, t, spurious);
    } else {
      WorkerCoincides(s, t, spurious);
    }
  }

  lemma CallCoincides(s: EC.State, t: nat, act: EC.Action)
    requires EC.Enabled(s, t, act) && !act.Run?
    ensures View(EC.Apply(s, t, act)) == Apply(View(s), t, act)
  {
    var s' := EC.Apply(s, t, act);
    if act.SetCondition? {
      assert View(s') == View(s).(cond := true);
    } else {
      ViewMoves(s, s', t, s'.pcs[t]);
    }
  }

  /** Inside the window the packed machine takes the step of the record machine. */
  lemma StepCoincides(s: EC.State, t: nat, act: EC.Action)
    requires Inv(s) && Followable(s) && EC.Enabled(s, t, act) && InWindow(s, t, act)
    ensures Enabled(View(s), t, act) && View(EC.Apply(s, t, act)) == Apply(View(s), t, act)
  {
    if act.Run? { RunCoincides(s, t, act.spurious); } else { CallCoincides(s, t, act); }
  }

  // ------------------------------------------------------------ runs

  /** Step k of the record machine is the given turn, and lies in the window. */
  predicate RecordStep(run: seq<EC.State>, turns: seq<EC.Turn>, k: nat)
    requires k < |turns| && k + 1 < |run|
  {
    && EC.Enabled(run[k], turns[k].t, turns[k].act) && InWindow(run[k], turns[k].t, turns[k].act)
    && run[k + 1] == EC.Apply(run[k], turns[k].t, turns[k].act)
  }

  predicate PackedStep(run: seq<State>, turns: seq<EC.Turn>, k: nat)
    requires k < |turns| && k + 1 < |run|
  {
    Enabled(run[k], turns[k].t, turns[k].act) ==> run[k + 1] == Apply(run[k], turns[k].t, turns[k].act)
  }

  /** Both machines take the same turns from the same start; every step lies in the window. */
  predicate SameTurns(run: seq<EC.State>, packed: seq<State>, turns: seq<EC.Turn>) {
    && |run| == |packed| == |turns| + 1 && EC.Init(run[0]) && packed[0] == View(run[0])
    && (forall k :: 0 <= k < |turns| ==> RecordStep(run, turns, k) && PackedStep(packed, turns, k))
  }

  lemma ViewOfWord(s: EC.State)
    requires Inv(s)
    ensures Fits(s.word) && View(s).word == Pack(s.word)
  {
    WordOk(s);
  }

  lemma InitFollowable(s: EC.State)
    requires EC.Init(s)
    ensures Inv(s) && Followable(s)
  {
    InitInv(s);
  }

  lemma TurnKeeps(s: EC.State, t: nat, act: EC.Action, s': EC.State, packed': State)
    requires Inv(s) && Followable(s) && EC.Enabled(s, t, act) && InWindow(s, t, act) && s' == EC.Apply(s, t, act)
    requires Enabled(View(s), t, act) ==> packed' == Apply(View(s), t, act)
    ensures Inv(s') && Followable(s') && packed' == View(s')
  {
    StepCoincides(s, t, act);
    FollowableNext(s, t, act);
    assert EC.Next(s, s');
    NextInv(s, s');
  }

  /** The words the source computes are, in every state of every such run, the packed form of the
      records: whatever is proved of the record machine holds of the words. */
  lemma {:induction false} PackedRuns(run: seq<EC.State>, packed: seq<State>, turns: seq<EC.Turn>, i: nat)
    requires SameTurns(run, packed, turns) && i < |run|
    ensures Inv(run[i]) && Followable(run[i]) && packed[i] == View(run[i])
    ensures Fits(run[i].word) && packed[i].word == Pack(run[i].word)
  {
    if i == 0 {
      InitFollowable(run[0]);
    } else {
      var k := i - 1;
      PackedRuns(run, packed, turns, k);
      assert RecordStep(run, turns, k) && PackedStep(packed, turns, k);
      TurnKeeps(run[k], turns[k].t, turns[k].act, run[i], packed[i]);
    }
    ViewOfWord(run[i]);
  }
}
