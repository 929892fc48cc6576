/**
 Spinning tokens of the pool (async/concurrent/work_queue_base.h): one word counts the threads in the
 steal loop and the tasks submitted without a notification.  Any number of threads run
 StartSpinning, StopSpinning and IsNotifyParkedThreadRequired; each load and each weak
 compare-exchange, which may also fail for no reason, is one step.
 */
module Spinning {
  import opened Bits
  import opened Counting

  /** kMaxSpinningThreads. */
  const MAX_SPINNING_THREADS: nat := 1

  datatype Tokens = Tokens(spinning: nat, noNotification: nat)

  datatype Pc =
    | Idle
    | StartCas(seen: Tokens)
    | NotAllowed                  // StartSpinning returned false
    | Spinning                    // StartSpinning returned true
    | StopCas(seen: Tokens)
    | Stopped(again: bool)        // StopSpinning returned
    | NotifyCas(seen: Tokens)
    | Asked(required: bool)       // IsNotifyParkedThreadRequired returned

  /** skipped: notifications skipped so far; matched: calls of StopSpinning that returned true. */
  datatype State = State(word: Tokens, pcs: seq<Pc>, skipped: nat, matched: nat)

  datatype Action =
    | Start(t: nat, busy: bool)   // busy: enough other threads are active
    | Stop(t: nat)
    | Ask(t: nat)
    | Cas(t: nat, spurious: bool)
    | Leave(t: nat)

  predicate Enabled(s: State, act: Action) {
    && act.t < |s.pcs|
    && match act
       case Start(t, _) => s.pcs[t].Idle?
       case Stop(t) => s.pcs[t].Spinning?
       case Ask(t) => s.pcs[t].Idle?
       case Cas(t, _) => s.pcs[t].StartCas? || s.pcs[t].NotifyCas? || (s.pcs[t].StopCas? && s.pcs[t].seen.spinning > 0)
       case Leave(t) => s.pcs[t].NotAllowed? || s.pcs[t].Stopped? || s.pcs[t].Asked?
  }

  function RunCas(s: State, t: nat, spurious: bool): State
    requires Enabled(s, Cas(t, spurious))
  {
    var p := s.pcs[t];
    var x := p.seen;
    var wins := s.word == x && !spurious;
    if p.StartCas? then
      if x.spinning - x.noNotification >= MAX_SPINNING_THREADS then s.(pcs := s.pcs[t := NotAllowed])
      else if wins then s.(word := Tokens(x.spinning + 1, x.noNotification), pcs := s.pcs[t := Spinning])
      else s.(pcs := s.pcs[t := StartCas(s.word)])
    else if p.StopCas? then
      if wins then
        var again := x.noNotification > 0;
        s.(word := Tokens(x.spinning - 1, if again then x.noNotification - 1 else 0),
           pcs := s.pcs[t := Stopped(again)], matched := if again then s.matched + 1 else s.matched)
      else s.(pcs := s.pcs[t := StopCas(s.word)])
    else
      if x.noNotification == x.spinning then s.(pcs := s.pcs[t := Asked(true)])
      else if wins then
        s.(word := Tokens(x.spinning, x.noNotification + 1), pcs := s.pcs[t := Asked(false)], skipped := s.skipped + 1)
      else s.(pcs := s.pcs[t := NotifyCas(s.word)])
  }

  function Apply(s: State, act: Action): State
    requires Enabled(s, act)
  {
    match act
    case Start(t, busy) => s.(pcs := s.pcs[t := if busy then NotAllowed else StartCas(s.word)])
    case Stop(t) => s.(pcs := s.pcs[t := StopCas(s.word)])
    case Ask(t) => s.(pcs := s.pcs[t := NotifyCas(s.word)])
    case Cas(t, spurious) => RunCas(s, t, spurious)
    case Leave(t) => s.(pcs := s.pcs[t := Idle])
  }

  predicate Init(s: State) {
    s.word == Tokens(0, 0) && s.skipped == 0 && s.matched == 0 && forall t :: 0 <= t < |s.pcs| ==> s.pcs[t] == Idle
  }

  ghost predicate Next(s: State, s': State) { exists act :: Enabled(s, act) && s' == Apply(s, act) }

  ghost predicate StepAt(run: seq<State>, i: nat)
    requires i + 1 < |run|
  {
    Next(run[i], run[i + 1])
  }

  ghost predicate IsRun(run: seq<State>) {
    |run| > 0 && Init(run[0]) && forall i :: 0 <= i < |run| - 1 ==> StepAt(run, i)
  }

  /** Between StartSpinning returning true and StopSpinning returning. */
  function InLoop(): Pc -> bool { (p: Pc) => p.Spinning? || p.StopCas? }

  predicate SeenFits(p: Pc) {
    p.StartCas? || p.StopCas? || p.NotifyCas? ==>
      && p.seen.noNotification <= p.seen.spinning
      && (p.StopCas? ==> p.seen.spinning > 0)
  }

  predicate Inv(s: State) {
    && s.word.spinning == Count(s.pcs, InLoop())
    && s.word.noNotification <= s.word.spinning
    && s.word.spinning - s.word.noNotification <= MAX_SPINNING_THREADS
    && s.word.noNotification == s.skipped - s.matched
    && forall t :: 0 <= t < |s.pcs| ==> SeenFits(s.pcs[t])
  }

  lemma NextInv(s: State, s': State)
    requires Inv(s) && Next(s, s')
    ensures Inv(s')
  {
    var act :| Enabled(s, act) && s' == Apply(s, act);
    var t := act.t;
    assert s'.pcs == s.pcs[t := s'.pcs[t]];
    CountUpdate(s.pcs, t, s'.pcs[t], InLoop());
    if InLoop()(s.pcs[t]) { CountHit(s.pcs, t, InLoop()); }
    assert SeenFits(s.pcs[t]);
    assert SeenFits(s'.pcs[t]);
  }

  lemma {:induction false} RunInv(run: seq<State>, i: nat)
    requires IsRun(run) && i < |run|
    ensures Inv(run[i])
  {
    if i == 0 {
      CountNone(run[0].pcs, InLoop());
    } else {
      RunInv(run, i - 1);
      assert StepAt(run, i - 1);
      NextInv(run[i - 1], run[i]);
    }
  }

  /** In every reachable state the spinning field is the number of threads in the loop, no more
      notifications are owed than threads spin, and no more than the maximum spin beyond those. */
  lemma TokensConserved(run: seq<State>, i: nat)
    requires IsRun(run) && i < |run|
    ensures run[i].word.spinning == Count(run[i].pcs, InLoop())
    ensures run[i].word.noNotification <= run[i].word.spinning <= run[i].word.noNotification + MAX_SPINNING_THREADS
    ensures run[i].matched + run[i].word.noNotification == run[i].skipped
  {
    RunInv(run, i);
  }

  /** Once every spinner has left, each skipped notification was matched by exactly one StopSpinning
      that told its caller to steal once more. */
  lemma SkippedAreMatched(run: seq<State>, i: nat)
    requires IsRun(run) && i < |run| && forall t :: 0 <= t < |run[i].pcs| ==> !InLoop()(run[i].pcs[t])
    ensures run[i].word == Tokens(0, 0) && run[i].skipped == run[i].matched
  {
    RunInv(run, i);
    CountNone(run[i].pcs, InLoop());
  }

  // ------------------------------------------------------------ what each call answers

  predicate Loaded(p: Pc) { p.StartCas? || p.StopCas? || p.NotifyCas? }

  /** Two program points belong to the same kind of call. */
  predicate SameCall(p: Pc, q: Pc) {
    (p.StartCas? && q.StartCas?) || (p.StopCas? && q.StopCas?) || (p.NotifyCas? && q.NotifyCas?)
  }

  /** From p to q: the word in q was just loaded, or already in hand in the same call. */
  predicate LoadsFrom(p: Pc, word: Tokens, q: Pc) {
    Loaded(q) ==> q.seen == word || (SameCall(p, q) && p.seen == q.seen)
  }

  lemma LoadedStep(s: State, s': State, t: nat)
    requires Next(s, s') && t < |s'.pcs|
    ensures |s'.pcs| == |s.pcs| && LoadsFrom(s.pcs[t], s.word, s'.pcs[t])
  {
  }

  /** The word a call decides on was in mSpinningState at some moment inside this very call. */
  lemma {:induction false} LoadedInCall(run: seq<State>, i: nat, t: nat) returns (j: nat)
    requires IsRun(run) && i < |run| && t < |run[i].pcs| && Loaded(run[i].pcs[t])
    ensures j < i && run[j].word == run[i].pcs[t].seen
    ensures forall k :: j < k <= i ==> t < |run[k].pcs| && SameCall(run[k].pcs[t], run[i].pcs[t])
  {
    assert i > 0;
    assert StepAt(run, i - 1);
    LoadedStep(run[i - 1], run[i], t);
    if run[i - 1].word == run[i].pcs[t].seen {
      j := i - 1;
    } else {
      j := LoadedInCall(run, i - 1, t);
    }
  }

  /** A thread stays out of the loop if enough others are active.  It is let in by a step that counts it, when fewer threads than the maximum spin beyond
      the notifications owed; StopSpinning takes its thread off the count, and a notification off those owed
      exactly if it tells its caller to steal again; a submitter skips its notification by a step that owes
      it to a spinning thread to which none was owed. */
  predicate Answers(s: State, act: Action, s': State) {
    && act.t < |s.pcs| == |s'.pcs|
    && var p, q := s.pcs[act.t], s'.pcs[act.t];
       && (act == Start(act.t, true) ==> q.NotAllowed?)
       && (q.Spinning? && p != q ==>
             && s.word.spinning - s.word.noNotification < MAX_SPINNING_THREADS
             && s'.word.spinning == s.word.spinning + 1 && s'.word.noNotification == s.word.noNotification)
       && (q.Stopped? && p != q ==>
             && (q.again <==> s.word.noNotification > 0) && s'.word.spinning == s.word.spinning - 1
             && s'.word.noNotification == s.word.noNotification - if q.again then 1 else 0)
       && (q == Asked(false) && p != q ==>
             && s.word.noNotification < s.word.spinning
             && s'.word.noNotification == s.word.noNotification + 1 && s'.word.spinning == s.word.spinning)
       && (s'.word != s.word ==> q.Spinning? || q.Stopped? || q == Asked(false))
  }

  lemma StepAnswers(run: seq<State>, i: nat, act: Action)
    requires IsRun(run) && i < |run| && Enabled(run[i], act)
    ensures Answers(run[i], act, Apply(run[i], act))
  {
    RunInv(run, i);
    assert SeenFits(run[i].pcs[act.t]);
  }

  /** StartSpinning refuses only when enough threads are active, or when at a moment inside this call the
      maximum number of threads were spinning beyond the notifications owed. */
  lemma NotAllowedReason(run: seq<State>, i: nat, act: Action) returns (j: nat)
    requires IsRun(run) && i < |run| && Enabled(run[i], act)
    requires !run[i].pcs[act.t].NotAllowed? && Apply(run[i], act).pcs[act.t].NotAllowed?
    ensures act == Start(act.t, true) || (j < i && run[j].word.spinning - run[j].word.noNotification == MAX_SPINNING_THREADS
                                          && forall k :: j < k <= i ==> act.t < |run[k].pcs| && run[k].pcs[act.t].StartCas?)
  {
    j := 0;
    if act.Cas? {
      j := LoadedInCall(run, i, act.t);
      RunInv(run, j);
    }
  }

  /** A submitter is told to notify only if at a moment inside this call every spinning thread already had
      a notification owed to it. */
  lemma AskedReason(run: seq<State>, i: nat, act: Action) returns (j: nat)
    requires IsRun(run) && i < |run| && Enabled(run[i], act)
    requires run[i].pcs[act.t] != Asked(true) && Apply(run[i], act).pcs[act.t] == Asked(true)
    ensures j < i && run[j].word.noNotification == run[j].word.spinning
    ensures forall k :: j < k <= i ==> act.t < |run[k].pcs| && run[k].pcs[act.t].NotifyCas?
  {
    j := LoadedInCall(run, i, act.t);
  }

  /** Attempts a call needs alone: one more if the word has changed since it was loaded. */
  function AttemptsLeft(p: Pc, word: Tokens): nat {
    if !Loaded(p) then 0 else if p.seen == word then 1 else 2
  }

  /** A call in the middle of its loop can go on, and gets closer to its return if its attempt does not fail
      for no reason. */
  lemma CallsReturn(run: seq<State>, i: nat, t: nat)
    requires IsRun(run) && i < |run| && t < |run[i].pcs| && Loaded(run[i].pcs[t])
    ensures Enabled(run[i], Cas(t, false))
    ensures var s' := Apply(run[i], Cas(t, false));
            |s'.pcs| == |run[i].pcs| && AttemptsLeft(s'.pcs[t], s'.word) < AttemptsLeft(run[i].pcs[t], run[i].word)
  {
    RunInv(run, i);
    assert SeenFits(run[i].pcs[t]);
  }

  /** The call begun by act, run to its end with no other thread in between. */
  function Alone(s: State, act: Action): State
    requires Enabled(s, act)
  {
    var s1 := Apply(s, act);
    if act.t < |s1.pcs| && Enabled(s1, Cas(act.t, false)) then Apply(s1, Cas(act.t, false)) else s1
  }

  /** What undisturbed calls do.  StopSpinning takes its thread out of the loop and answers whether a
      notification was owed; a submitter owes its notification to a spinning thread to which none is owed, and
      is told to notify only if there is none; StartSpinning lets its thread in if there is room. */
  lemma CallsAlone(run: seq<State>, i: nat, t: nat)
    requires IsRun(run) && i < |run| && t < |run[i].pcs|
    ensures var w := run[i].word;
      && (run[i].pcs[t].Spinning? ==>
            var e := Alone(run[i], Stop(t));
            e.pcs == run[i].pcs[t := Stopped(w.noNotification > 0)] && e.word.spinning == w.spinning - 1
            && e.word.noNotification == w.noNotification - if w.noNotification > 0 then 1 else 0)
      && (run[i].pcs[t].Idle? ==>
            var e := Alone(run[i], Ask(t));
            var room := w.noNotification < w.spinning;
            e.pcs == run[i].pcs[t := Asked(!room)] && e.word.spinning == w.spinning
            && e.word.noNotification == w.noNotification + if room then 1 else 0)
      && (run[i].pcs[t].Idle? ==>
            var e := Alone(run[i], Start(t, false));
            var room := w.spinning - w.noNotification < MAX_SPINNING_THREADS;
            e.pcs == run[i].pcs[t := if room then Spinning else NotAllowed] && e.word.noNotification == w.noNotification
            && e.word.spinning == w.spinning + if room then 1 else 0)
      && (Enabled(run[i], Leave(t)) ==> Apply(run[i], Leave(t)).pcs == run[i].pcs[t := Idle])
  {
    RunInv(run, i);
    if run[i].pcs[t].Spinning? { CountHit(run[i].pcs, t, InLoop()); }
  }

  // ------------------------------------------------------------ the packed word

  function Encode(x: Tokens): nat { Or(Shl(x.noNotification, 32), x.spinning) }

  function Decode(w: nat): Tokens {
    Tokens(And(w, Pow2(32) - 1), Shr(And(w, Shl(Pow2(32) - 1, 32)), 32))
  }

  /** With fewer than 2^32 threads no field carries into the other, and decoding undoes encoding. */
  lemma DecodeEncode(x: Tokens)
    requires x.spinning < Pow2(32) && x.noNotification < Pow2(32)
    ensures Decode(Encode(x)) == x && Encode(x) < Pow2(64)
  {
    TwoFields(x.spinning, x.noNotification, 32);
    Powers();
  }

  /** Two fields of b bits in one word. */
  lemma TwoFields(low: nat, high: nat, b: nat)
    requires low < Pow2(b) && high < Pow2(b)
    ensures var w := Or(Shl(high, b), low);
            && And(w, Pow2(b) - 1) == low && Shr(And(w, Shl(Pow2(b) - 1, b)), b) == high
            && w == low + high * Pow2(b)
  {
    var w := Or(Shl(high, b), low);
    OrDisjoint(low, high, b);
    Join(high, low, b);
    AndLow(w, b);
    AndField(w, b, b);
    LowSmall(high, b);
    ShlIsMul(high, b);
  }

  /** Every reachable word is the encoding of its fields, so comparing words is comparing fields. */
  lemma WordsDecide(run: seq<State>, i: nat, seen: Tokens)
    requires IsRun(run) && i < |run| && |run[i].pcs| < Pow2(32)
    requires seen.spinning < Pow2(32) && seen.noNotification < Pow2(32)
    ensures Decode(Encode(run[i].word)) == run[i].word
    ensures Encode(run[i].word) == Encode(seen) <==> run[i].word == seen
  {
    RunInv(run, i);
    CountAtMost(run[i].pcs, InLoop());
    DecodeEncode(run[i].word);
    DecodeEncode(seen);
  }
}
