/**
 The packed 64-bit word of EventCount.  Each expression the C++ code computes on the word is
 written with its own masks and shifts and proved to be the packed form of the record operation
 used by the state machine: no field ever carries into another.
 */
module EventCountWord {
  import opened Bits
  import opened EventCount
  import opened EventCountInvariant

  const WORD: nat := 0x1_0000_0000_0000_0000   // 2^64
  const STACK_MASK: nat := 0x3FFF
  const WAITER_INC: nat := 0x4000
  const WAITER_MASK: nat := 0xFFF_C000
  const SIGNAL_INC: nat := 0x1000_0000
  const SIGNAL_MASK: nat := 0x3FF_F000_0000
  const EPOCH_INC: nat := 0x400_0000_0000
  const EPOCH_MASK: nat := 0xFFFF_FC00_0000_0000
  const EPOCHS: nat := 0x40_0000               // 2^22 different epochs

  predicate Fits(w: Word) {
    w.top.index <= STACK_MASK && 0 <= w.signals <= STACK_MASK && 0 <= w.waiters <= STACK_MASK && 0 <= w.top.epoch
  }

  /** The link bits of a word: stack index and epoch. */
  function PackRef(r: Ref): nat
    requires r.index <= STACK_MASK && 0 <= r.epoch
  {
    r.index + EPOCH_INC * (r.epoch % EPOCHS)
  }

  /** The four fields put together. */
  function JoinFields(stack: nat, waiters: nat, signals: nat, epoch: nat): nat {
    stack + WAITER_INC * waiters + SIGNAL_INC * signals + EPOCH_INC * epoch
  }

  function Pack(w: Word): (x: nat)
    requires Fits(w)
    ensures x < WORD
  {
    JoinFields(w.top.index, w.waiters, w.signals, w.top.epoch % EPOCHS)
  }

  // ------------------------------------------------------------ the C++ expressions

  function WaiterCount(state: nat): nat { Shr(And(state, WAITER_MASK), 14) }

  function SignalCount(state: nat): nat { Shr(And(state, SIGNAL_MASK), 28) }

  function StackIndex(state: nat): nat { And(state, STACK_MASK) }

  function LinkBits(state: nat): nat { And(state, STACK_MASK + EPOCH_MASK) }

  function PrewaitWord(state: nat): nat { (state + WAITER_INC) % WORD }

  function ConsumeWord(state: nat): nat { (state - WAITER_INC - SIGNAL_INC) % WORD }

  /** me is (w - &mWaiters[0]) | w->epoch. */
  function PushWord(state: nat, me: nat): nat { Or((And(state, WAITER_MASK) - WAITER_INC) % WORD, me) }

  function CancelWord(state: nat): nat {
    var newstate := (state - WAITER_INC) % WORD;
    if WaiterCount(state) == SignalCount(state) then (newstate - SIGNAL_INC) % WORD else newstate
  }

  function NotifyAllWord(state: nat): nat {
    Or(Or(And(state, WAITER_MASK), Shl(WaiterCount(state), 28)), STACK_MASK)
  }

  function SignalWord(state: nat): nat { (state + SIGNAL_INC) % WORD }

  function PopWord(state: nat, next: nat): nat { Or(And(state, WAITER_MASK + SIGNAL_MASK), next) }

  // ------------------------------------------------------------ masks and shifts as arithmetic

  lemma MaskWaiters(x: nat)
    ensures And(x, WAITER_MASK) == WAITER_INC * (x / 16384 % 16384) && WaiterCount(x) == x / 16384 % 16384
  {
    Powers();
    ShlIsMul(16383, 14);
    Mask(x, 14, 14);
  }

  lemma MaskSignals(x: nat)
    ensures And(x, SIGNAL_MASK) == SIGNAL_INC * (x / 268435456 % 16384) && SignalCount(x) == x / 268435456 % 16384
  {
    Powers();
    ShlIsMul(16383, 28);
    Mask(x, 28, 14);
  }

  lemma MaskEpoch(x: nat)
    ensures And(x, EPOCH_MASK) == EPOCH_INC * (x / 4398046511104 % 4194304)
  {
    Powers();
    ShlIsMul(4194303, 42);
    Mask(x, 42, 22);
  }

  lemma MaskStack(x: nat)
    ensures StackIndex(x) == x % 16384
  {
    Powers();
    AndLow(x, 14);
    ShrIsDiv(x, 14);
  }

  /** Masking with k ones shifted by s, as arithmetic. */
  lemma Mask(x: nat, s: nat, k: nat)
    ensures And(x, Shl(Pow2(k) - 1, s)) == (x / Pow2(s) % Pow2(k)) * Pow2(s)
    ensures Shr(And(x, Shl(Pow2(k) - 1, s)), s) == x / Pow2(s) % Pow2(k)
  {
    AndField(x, s, k);
    ShrIsDiv(x, s);
    ShrIsDiv(Shr(x, s), k);
    ShlIsMul(Field(x, s, k), s);
  }

  lemma OrAt14(a: nat, b: nat)
    requires a < 16384
    ensures Or(WAITER_INC * b, a) == a + WAITER_INC * b
  {
    Powers();
    ShlIsMul(b, 14);
    OrDisjoint(a, b, 14);
  }

  lemma OrAt28(a: nat, b: nat)
    requires a < 268435456
    ensures Shl(b, 28) == SIGNAL_INC * b && Or(a, Shl(b, 28)) == a + SIGNAL_INC * b && And(a, SIGNAL_INC * b) == 0
  {
    Powers();
    ShlIsMul(b, 28);
    OrDisjoint(a, b, 28);
    AndDisjoint(a, b, 28);
  }

  lemma OrAt42(a: nat, b: nat)
    requires a < 4398046511104
    ensures Or(a, EPOCH_INC * b) == a + EPOCH_INC * b && And(a, EPOCH_INC * b) == 0
  {
    Powers();
    ShlIsMul(b, 42);
    OrDisjoint(a, b, 42);
    AndDisjoint(a, b, 42);
  }

  lemma NoBits14(a: nat, b: nat)
    requires a < 16384
    ensures And(WAITER_INC * b, a) == 0
  {
    Powers();
    ShlIsMul(b, 14);
    AndDisjoint(a, b, 14);
    AndCommutes(a, WAITER_INC * b);
  }

  lemma DisjointMasks()
    ensures And(WAITER_MASK, SIGNAL_MASK) == 0 && And(STACK_MASK, EPOCH_MASK) == 0
  {
    OrAt28(WAITER_MASK, 16383);
    OrAt42(STACK_MASK, 4194303);
  }

  /** Middle fields meet a stack index and an epoch in no bit. */
  lemma OrLink(mid: nat, stack: nat, epoch: nat)
    requires mid < SIGNAL_INC && stack < 16384
    ensures Or(WAITER_INC * mid, stack + EPOCH_INC * epoch) == WAITER_INC * mid + (stack + EPOCH_INC * epoch)
  {
    NoBits14(stack, mid);
    OrAt42(WAITER_INC * mid, epoch);
    OrAt42(stack, epoch);
    AndSplit(WAITER_INC * mid, stack, EPOCH_INC * epoch);
    OrIsAdd(WAITER_INC * mid, stack + EPOCH_INC * epoch);
  }

  // ------------------------------------------------------------ reading the fields back

  lemma Digits(a: nat, b: nat, c: nat, d: nat)
    requires a < 16384 && b < 16384 && c < 16384 && d < 4194304
    ensures JoinFields(a, b, c, d) % 16384 == a && JoinFields(a, b, c, d) / 16384 % 16384 == b
    ensures JoinFields(a, b, c, d) / 268435456 % 16384 == c && JoinFields(a, b, c, d) / 4398046511104 % 4194304 == d
  {
    var x := JoinFields(a, b, c, d);
    ModUnique(x, 16384, b + 16384 * c + 268435456 * d, a);
    ModUnique(b + 16384 * c + 268435456 * d, 16384, c + 16384 * d, b);
    ModUnique(x, 268435456, c + 16384 * d, a + 16384 * b);
    ModUnique(c + 16384 * d, 16384, d, c);
    ModUnique(x, 4398046511104, d, a + 16384 * b + 268435456 * c);
  }

  lemma ReadFields(w: Word)
    requires Fits(w)
    ensures WaiterCount(Pack(w)) == w.waiters && And(Pack(w), WAITER_MASK) == WAITER_INC * w.waiters
    ensures SignalCount(Pack(w)) == w.signals && And(Pack(w), SIGNAL_MASK) == SIGNAL_INC * w.signals
    ensures StackIndex(Pack(w)) == w.top.index
    ensures And(Pack(w), EPOCH_MASK) == EPOCH_INC * (w.top.epoch % EPOCHS)
  {
    Digits(w.top.index, w.waiters, w.signals, w.top.epoch % EPOCHS);
    MaskWaiters(Pack(w));
    MaskSignals(Pack(w));
    MaskEpoch(Pack(w));
    MaskStack(Pack(w));
  }

  // ------------------------------------------------------------ each expression packs its record operation

  lemma PrewaitPacks(w: Word)
    requires Fits(w) && w.waiters < STACK_MASK
    ensures PrewaitWord(Pack(w)) == Pack(w.(waiters := w.waiters + 1))
  {
  }

  lemma ConsumePacks(w: Word)
    requires Fits(w) && w.waiters >= 1 && w.signals >= 1
    ensures ConsumeWord(Pack(w)) == Pack(w.(waiters := w.waiters - 1, signals := w.signals - 1))
  {
  }

  lemma CancelPacks(w: Word)
    requires Fits(w) && 1 <= w.waiters && w.signals <= w.waiters
    ensures CancelWord(Pack(w)) == Pack(w.(waiters := w.waiters - 1,
                                            signals := if w.signals == w.waiters then w.signals - 1 else w.signals))
  {
    ReadFields(w);
    assert (Pack(w) - WAITER_INC) % WORD == Pack(w) - WAITER_INC;
  }

  lemma SignalPacks(w: Word)
    requires Fits(w) && w.signals < STACK_MASK
    ensures SignalWord(Pack(w)) == Pack(w.(signals := w.signals + 1))
  {
  }

  lemma MePacks(t: nat, epoch: nat)
    requires t <= STACK_MASK
    ensures Or(t, EPOCH_INC * (epoch % EPOCHS)) == PackRef(Ref(t, epoch))
  {
    OrAt42(t, epoch % EPOCHS);
  }

  lemma PushPacks(w: Word, r: Ref)
    requires Fits(w) && 1 <= w.waiters && r.index <= STACK_MASK && 0 <= r.epoch
    ensures PushWord(Pack(w), PackRef(r)) == Pack(Word(r, w.waiters - 1, 0))
  {
    ReadFields(w);
    var mid := w.waiters - 1;
    assert (WAITER_INC * w.waiters - WAITER_INC) % WORD == WAITER_INC * mid;
    OrLink(mid, r.index, r.epoch % EPOCHS);
  }

  lemma NotifyAllPacks(w: Word)
    requires Fits(w)
    ensures NotifyAllWord(Pack(w)) == Pack(Word(EMPTY, w.waiters, w.waiters))
  {
    ReadFields(w);
    OrAt28(WAITER_INC * w.waiters, w.waiters);
    var both := w.waiters + 16384 * w.waiters;
    assert WAITER_INC * both == WAITER_INC * w.waiters + SIGNAL_INC * w.waiters;
    OrAt14(STACK_MASK, both);
  }

  lemma ReadCounters(w: Word)
    requires Fits(w)
    ensures And(Pack(w), WAITER_MASK + SIGNAL_MASK) == WAITER_INC * (w.waiters + 16384 * w.signals)
  {
    ReadFields(w);
    DisjointMasks();
    AndSplit(Pack(w), WAITER_MASK, SIGNAL_MASK);
  }

  lemma PopPacks(w: Word, r: Ref)
    requires Fits(w) && r.index <= STACK_MASK && 0 <= r.epoch
    ensures PopWord(Pack(w), PackRef(r)) == Pack(w.(top := r))
  {
    ReadCounters(w);
    OrLink(w.waiters + 16384 * w.signals, r.index, r.epoch % EPOCHS);
  }

  /** What CommitWait stores in next is the packed top. */
  lemma LinkPacks(w: Word)
    requires Fits(w)
    ensures LinkBits(Pack(w)) == PackRef(w.top)
  {
    ReadFields(w);
    DisjointMasks();
    AndSplit(Pack(w), STACK_MASK, EPOCH_MASK);
  }

  /** The word of a quiescent EventCount is exactly kStackMask. */
  lemma QuiescentIsStackMask(s: State)
    requires Inv(s) && forall t :: 0 <= t < |s.pcs| ==> s.pcs[t].Idle?
    ensures Fits(s.word) && Pack(s.word) == STACK_MASK
  {
    QuiescentWord(s);
  }

  // ------------------------------------------------------------ comparing packed words

  /** Packed words are equal exactly when all fields are, the epochs modulo 2^22. */
  lemma PackedEqual(v: Word, w: Word)
    requires Fits(v) && Fits(w)
    ensures Pack(v) == Pack(w) <==>
              && v.top.index == w.top.index && v.waiters == w.waiters && v.signals == w.signals
              && v.top.epoch % EPOCHS == w.top.epoch % EPOCHS
  {
    Digits(v.top.index, v.waiters, v.signals, v.top.epoch % EPOCHS);
    Digits(w.top.index, w.waiters, w.signals, w.top.epoch % EPOCHS);
  }

  lemma ReachableFits(s: State, w: Word)
    requires Inv(s) && SnapOk(w, s.waiters)
    ensures Fits(w) && Fits(s.word)
  {
    WordOk(s);
  }

  /** The packed compare-exchange decides like the record one as long as fewer than 2^22 pushes
      of the snapshot's top waiter happened since the push the snapshot saw. */
  lemma PackedCasAgrees(s: State, w: Word)
    requires Inv(s) && SnapOk(w, s.waiters)
    requires w.top.index != NIL ==> s.waiters[w.top.index].epoch - w.top.epoch <= EPOCHS
    ensures Fits(w) && Fits(s.word) && (Pack(s.word) == Pack(w) <==> s.word == w)
  {
    ReachableFits(s, w);
    WordOk(s);
    PackedEqual(s.word, w);
    if Pack(s.word) == Pack(w) && w.top.index != NIL {
      assert s.word.top == Link(s.stack, s.waiters, 0);
      CongruentNear(s.word.top.epoch, w.top.epoch);
    }
  }

  /** Outside the window, too, the packed compare-exchange errs only if nothing but the epoch of the top
      differs, and that by a multiple of 2^22. */
  lemma PackedCasErrs(s: State, w: Word)
    requires Inv(s) && SnapOk(w, s.waiters)
    ensures Fits(w) && Fits(s.word)
    ensures Pack(s.word) == Pack(w) && s.word != w <==>
              && s.word == w.(top := Ref(w.top.index, s.word.top.epoch)) && s.word.top.epoch != w.top.epoch
              && s.word.top.epoch % EPOCHS == w.top.epoch % EPOCHS
  {
    ReachableFits(s, w);
    PackedEqual(s.word, w);
  }

  lemma CongruentNear(x: int, y: int)
    requires 0 <= x && 0 <= y && x % EPOCHS == y % EPOCHS && x - y < EPOCHS && y - x < EPOCHS
    ensures x == y
  {
  }

  /** The window is exact: 2^22 pushes later the packed word comes back although the push is another. */
  lemma EpochWraps(w: Word)
    requires Fits(w)
    ensures Pack(w) == Pack(w.(top := Ref(w.top.index, w.top.epoch + EPOCHS)))
  {
    ModUnique(w.top.epoch + EPOCHS, EPOCHS, w.top.epoch / EPOCHS + 1, w.top.epoch % EPOCHS);
  }

  // ------------------------------------------------------------ one attempt of each loop

  /** mState and the loop bodies of the C++ operations: compute the new word, then compare-exchange.
      `w` is the record the caller's loaded word packs. */
  class PackedState {
    var mState: nat

    constructor ()
      ensures mState == Pack(Word(EMPTY, 0, 0))
    {
      mState := STACK_MASK;
    }

    method CompareExchange(expected: nat, desired: nat) returns (ok: bool, seen: nat)
      modifies this
      ensures ok == (old(mState) == expected) && seen == old(mState)
      ensures mState == if ok then desired else old(mState)
    {
      seen := mState;
      ok := seen == expected;
      if ok { mState := desired; }
    }

    method TryPrewait(state: nat, ghost w: Word) returns (ok: bool, seen: nat)
      requires Fits(w) && state == Pack(w) && CheckState(w.(waiters := w.waiters + 1), false)
      modifies this
      ensures ok == (old(mState) == state) && seen == old(mState)
      ensures mState == if ok then Pack(w.(waiters := w.waiters + 1)) else old(mState)
    {
      PrewaitPacks(w);
      ok, seen := CompareExchange(state, PrewaitWord(state));
    }

    method TryCancel(state: nat, ghost w: Word) returns (ok: bool, seen: nat)
      requires Fits(w) && state == Pack(w) && CheckState(w, true)
      modifies this
      ensures ok == (old(mState) == state) && seen == old(mState)
      ensures mState == if !ok then old(mState)
                        else if w.signals == w.waiters then Pack(w.(waiters := w.waiters - 1, signals := w.signals - 1))
                        else Pack(w.(waiters := w.waiters - 1))
    {
      CancelPacks(w);
      ok, seen := CompareExchange(state, CancelWord(state));
    }

    /** next is what the loop stored in the waiter's link before the compare-exchange. */
    method TryCommit(state: nat, index: nat, epoch: nat, ghost w: Word) returns (ok: bool, seen: nat, parks: bool, next: nat)
      requires Fits(w) && state == Pack(w) && CheckState(w, true) && index < STACK_MASK
      modifies this
      ensures ok == (old(mState) == state) && seen == old(mState)
      ensures parks == (w.signals == 0) && (parks ==> next == PackRef(w.top))
      ensures mState == if !ok then old(mState) else
                        if parks then Pack(Word(Ref(index, epoch), w.waiters - 1, 0))
                        else Pack(w.(waiters := w.waiters - 1, signals := w.signals - 1))
    {
      ReadFields(w);
      next := 0;
      parks := And(state, SIGNAL_MASK) == 0;
      if parks {
        LinkPacks(w);
        MePacks(index, epoch);
        PushPacks(w, Ref(index, epoch));
        next := LinkBits(state);
        ok, seen := CompareExchange(state, PushWord(state, Or(index, EPOCH_INC * (epoch % EPOCHS))));
      } else {
        ConsumePacks(w);
        ok, seen := CompareExchange(state, ConsumeWord(state));
      }
    }

    /** done: nothing to notify.  next is the link read from the top waiter, used by a single pop. */
    method TryNotify(all: bool, state: nat, next: nat, ghost w: Word, ghost r: Ref) returns (done: bool, ok: bool, seen: nat)
      requires Fits(w) && state == Pack(w) && CheckState(w, false)
      requires r.index <= STACK_MASK && 0 <= r.epoch && next == PackRef(r)
      modifies this
      ensures done == (w.top.index == NIL && w.signals == w.waiters)
      ensures done ==> !ok && mState == old(mState)
      ensures !done ==> ok == (old(mState) == state) && seen == old(mState)
      ensures !done && !ok ==> mState == old(mState)
      ensures ok ==> mState == if all then Pack(Word(EMPTY, w.waiters, w.waiters))
                               else if w.signals < w.waiters then Pack(w.(signals := w.signals + 1)) else Pack(w.(top := r))
    {
      ReadFields(w);
      var waiters, signals := WaiterCount(state), SignalCount(state);
      done := StackIndex(state) == STACK_MASK && waiters == signals;
      ok, seen := false, state;
      if done { return; }
      if all {
        NotifyAllPacks(w);
        ok, seen := CompareExchange(state, NotifyAllWord(state));
      } else if signals < waiters {
        SignalPacks(w);
        ok, seen := CompareExchange(state, SignalWord(state));
      } else {
        PopPacks(w, r);
        ok, seen := CompareExchange(state, PopWord(state, next));
      }
    }
  }
}
