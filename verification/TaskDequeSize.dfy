/**
 Size and Empty of TaskDeque while others push and pop (async/concurrent/task_deque.h): they read mFront,
 then mBack, then mFront again, and start over unless both reads of mFront show the same word.

 A word is its position modulo twice the capacity, and a counter that pushes at the front advance and pops
 leave alone.  So equal words do not quite mean that nothing happened in between.  Here are the conditions
 under which the answer is that of one moment, and a run in which a full deque is reported empty.
 */
module TaskDequeSize {
  import opened Bits
  import opened Ring
  import opened WordPositions
  import opened TaskDeque
  import opened TaskDequeCalls
  import SD = SequentialDeque

  // ------------------------------------------------------------ the words of a run

  /** The word after its position moved: one forward bumps the counter, one back does not. */
  function Moved(w: nat, from: int, to: int, k: nat): nat
    requires k + 1 <= 32
  {
    if to == from + 1 then Forward(w, k) else if to == from - 1 then Backward(w, k) else w
  }

  function Fronts(run: seq<State>): (ps: seq<int>)
    ensures |ps| == |run| && forall i :: 0 <= i < |run| ==> ps[i] == run[i].front
  {
    seq(|run|, i requires 0 <= i < |run| => run[i].front)
  }

  function Backs(run: seq<State>): (ps: seq<int>)
    ensures |ps| == |run| && forall i :: 0 <= i < |run| ==> ps[i] == run[i].back
  {
    seq(|run|, i requires 0 <= i < |run| => run[i].back)
  }

  predicate WordAt(ps: seq<int>, ws: seq<nat>, k: nat, i: nat)
    requires 0 < i < |ps| == |ws| && k + 1 <= 32
  {
    ws[i] == Moved(ws[i - 1], ps[i - 1], ps[i], k)
  }

  /** ws are the words that show the positions ps, moment by moment, from zero on. */
  predicate Words(ps: seq<int>, ws: seq<nat>, k: nat)
    requires k + 1 <= 32
  {
    |ws| == |ps| > 0 && ws[0] == 0 && forall i :: 0 < i < |ps| ==> WordAt(ps, ws, k, i)
  }

  function WordsOf(ps: seq<int>, k: nat): (ws: seq<nat>)
    requires k + 1 <= 32
    ensures |ws| == |ps|
  {
    if |ps| <= 1 then seq(|ps|, _ => 0)
    else
      var n := |ps| - 1;
      var ws := WordsOf(ps[..n], k);
      ws + [Moved(ws[n - 1], ps[n - 1], ps[n], k)]
  }

  /** Every run has its words. */
  lemma {:induction false} WordsExist(ps: seq<int>, k: nat)
    requires k + 1 <= 32 && |ps| > 0
    ensures Words(ps, WordsOf(ps, k), k)
  {
    var ws, n := WordsOf(ps, k), |ps| - 1;
    if n > 0 {
      WordsExist(ps[..n], k);
      forall i | 0 < i < |ps| ensures WordAt(ps, ws, k, i) {
        if i < n { assert WordAt(ps[..n], WordsOf(ps[..n], k), k, i); }
      }
    }
  }

  predicate OneApart(x: int, y: int) { -1 <= y - x <= 1 }

  lemma FrontStep(s: State, s': State)
    requires Sane(s) && PcFits(s.fpc, s.front, s.front - 1, s.front - 1) && Enabled(s, Run(Front)) && s' == Apply(s, Run(Front))
    ensures OneApart(s.front, s'.front) && s'.back == s.back && s'.cap == s.cap
  {
  }

  lemma BackStep(s: State, s': State)
    requires Sane(s) && PcFits(s.bpc, s.back - 1, s.back, s.back) && Enabled(s, Run(Back)) && s' == Apply(s, Run(Back))
    ensures OneApart(s.back, s'.back) && s'.front == s.front && s'.cap == s.cap
  {
  }

  lemma OtherStep(s: State, act: Action)
    requires Enabled(s, act) && !act.Run?
    ensures Apply(s, act).front == s.front && Apply(s, act).back == s.back && Apply(s, act).cap == s.cap
  {
  }

  lemma PositionsMove(s: State, s': State)
    requires Inv(s) && Next(s, s')
    ensures OneApart(s.front, s'.front) && OneApart(s.back, s'.back) && s'.cap == s.cap
  {
    var act :| Enabled(s, act) && s' == Apply(s, act);
    assert RegionFits(s);
    if act == Run(Front) { FrontStep(s, s'); } else if act == Run(Back) { BackStep(s, s'); } else { OtherStep(s, act); }
  }

  lemma MovedShows(w: nat, from: int, to: int, k: nat)
    requires 1 <= k && k + 1 <= 32 && w < WORDS && OneApart(from, to) && Slot(w, Pow2(k + 1)) == Slot(from, Pow2(k + 1))
    ensures Moved(w, from, to, k) < WORDS && Slot(Moved(w, from, to, k), Pow2(k + 1)) == Slot(to, Pow2(k + 1))
  {
    PowerMonotone(1, k);
    if to == from + 1 {
      ForwardMoves(w, k);
      SlotsAgree(w, from, 1, Pow2(k + 1));
    } else if to == from - 1 {
      BackwardMoves(w, k);
      SlotsAgree(w, from, -1, Pow2(k + 1));
    }
  }

  /** Positions that move by at most one at a time. */
  predicate Steady(ps: seq<int>) { forall i :: 0 < i < |ps| ==> OneApart(ps[i - 1], ps[i]) }

  lemma RunsAreSteady(run: seq<State>)
    requires IsRun(run)
    ensures Steady(Fronts(run)) && Steady(Backs(run)) && Fronts(run)[0] == Backs(run)[0] == 0
  {
    forall i | 0 < i < |run| ensures OneApart(run[i - 1].front, run[i].front) && OneApart(run[i - 1].back, run[i].back) {
      RunInv(run, i - 1);
      assert StepAt(run, i - 1);
      PositionsMove(run[i - 1], run[i]);
    }
  }

  /** The words show the positions modulo twice the capacity. */
  lemma {:induction false} WordsShow(ps: seq<int>, ws: seq<nat>, k: nat, i: nat)
    requires 1 <= k && k + 1 <= 32 && Words(ps, ws, k) && Steady(ps) && ps[0] == 0 && i < |ps|
    ensures ws[i] < WORDS && Slot(ws[i], Pow2(k + 1)) == Slot(ps[i], Pow2(k + 1))
  {
    if i > 0 {
      WordsShow(ps, ws, k, i - 1);
      assert WordAt(ps, ws, k, i) && OneApart(ps[i - 1], ps[i]);
      MovedShows(ws[i - 1], ps[i - 1], ps[i], k);
    }
  }

  lemma {:induction false} CapacityStays(run: seq<State>, i: nat)
    requires IsRun(run) && i < |run|
    ensures run[i].cap == run[0].cap
  {
    if i > 0 {
      CapacityStays(run, i - 1);
      RunInv(run, i - 1);
      assert StepAt(run, i - 1);
      PositionsMove(run[i - 1], run[i]);
    }
  }

  // ------------------------------------------------------------ the modification counter

  function Counter(w: nat, k: nat): nat { Shr(w, k + 1) }

  /** What a move forward adds to the counter: one, and one more when the index wraps. */
  function Bump(w: nat, k: nat): nat { if Low(w, k + 1) + 1 < Pow2(k + 1) then 1 else 2 }

  lemma {:induction false} ShrBelow(w: nat, n: nat, m: nat)
    requires w < Pow2(n + m)
    ensures Shr(w, n) < Pow2(m)
  {
    if n > 0 { ShrBelow(w / 2, n - 1, m); }
  }

  lemma {:induction false} ShrOfLow(x: nat, n: nat, m: nat)
    ensures Shr(Low(x, n + m), n) == Low(Shr(x, n), m)
  {
    if n > 0 { ShrOfLow(x / 2, n - 1, m); }
  }

  lemma ForwardSum(w: nat, k: nat)
    requires k + 1 <= 32
    ensures Shr(w + Increment(k), k + 1) == Counter(w, k) + Bump(w, k)
  {
    var n, h, l := k + 1, Shr(w, k + 1), Low(w, k + 1);
    HighLow(w, n);
    assert Increment(k) == Pow2(n) + 1 by { assert Shl(Pow2(k), 1) == Pow2(n); }
    Carry(h, l, n);
  }

  /** Adding one to each of two joined fields carries when the lower one is full. */
  lemma Carry(h: nat, l: nat, n: nat)
    requires l < Pow2(n)
    ensures Shr(Shl(h, n) + l + (Pow2(n) + 1), n) == h + if l + 1 < Pow2(n) then 1 else 2
  {
    ShlIsMul(h, n);
    if l + 1 < Pow2(n) {
      ShlIsMul(h + 1, n);
      Distribute(h, 1, Pow2(n));
      Join(h + 1, l + 1, n);
    } else {
      ShlIsMul(h + 2, n);
      Distribute(h, 2, Pow2(n));
      Join(h + 2, 0, n);
    }
  }

  lemma ForwardCounter(w: nat, k: nat)
    requires k + 1 <= 32
    ensures Counter(Forward(w, k), k) == Low(Counter(w, k) + Bump(w, k), 31 - k)
  {
    var x := w + Increment(k);
    ForwardSum(w, k);
    ModIsLow(x);
    ShrOfLow(x, k + 1, 31 - k);
  }

  lemma ModIsLow(x: nat)
    ensures x % WORDS == Low(x, 32)
  {
    PowerUpTo(32);
    ShrIsDiv(x, 32);
  }

  lemma LowAdd(x: nat, b: nat, m: nat)
    ensures Low(Low(x, m) + b, m) == Low(x + b, m)
  {
    var y := Low(x, m) + b;
    HighLow(x, m);
    HighLow(y, m);
    ShlIsMul(Shr(x, m), m);
    ShlIsMul(Shr(y, m), m);
    ShlIsMul(Shr(x, m) + Shr(y, m), m);
    Distribute(Shr(x, m), Shr(y, m), Pow2(m));
    assert x + b == Shl(Shr(x, m) + Shr(y, m), m) + Low(y, m);
    Join(Shr(x, m) + Shr(y, m), Low(y, m), m);
  }

  lemma Distribute(a: nat, b: nat, c: nat)
    ensures (a + b) * c == a * c + b * c
  {
  }

  /** Adding less than 2^m to an m-bit number and getting it back means having added nothing. */
  lemma NoTurn(c: nat, b: nat, m: nat)
    requires c < Pow2(m) && b < Pow2(m) && Low(c + b, m) == c
    ensures b == 0
  {
    if c + b < Pow2(m) {
      LowSmall(c + b, m);
    } else {
      ShlIsMul(1, m);
      Join(1, c + b - Pow2(m), m);
    }
  }

  // ------------------------------------------------------------ moves between two moments

  /** Moves forward and back from moment i to moment l: at the front, pushes and pops that stored mFront. */
  function Ups(ps: seq<int>, i: nat, l: nat): nat
    requires l < |ps|
  {
    if l <= i then 0 else Ups(ps, i, l - 1) + (if ps[l] == ps[l - 1] + 1 then 1 else 0)
  }

  function Downs(ps: seq<int>, i: nat, l: nat): nat
    requires l < |ps|
  {
    if l <= i then 0 else Downs(ps, i, l - 1) + (if ps[l] == ps[l - 1] - 1 then 1 else 0)
  }

  lemma {:induction false} NetMoves(ps: seq<int>, i: nat, l: nat)
    requires i <= l < |ps| && Steady(ps)
    ensures ps[l] == ps[i] + Ups(ps, i, l) - Downs(ps, i, l)
  {
    if i < l {
      NetMoves(ps, i, l - 1);
      assert OneApart(ps[l - 1], ps[l]);
    }
  }

  /** The counter moved on by b, which is one or two for each move forward. */
  lemma {:induction false} CounterMoved(ps: seq<int>, ws: seq<nat>, k: nat, i: nat, l: nat) returns (b: nat)
    requires 1 <= k && k + 1 <= 32 && Words(ps, ws, k) && Steady(ps) && ps[0] == 0 && i <= l < |ps|
    ensures Ups(ps, i, l) <= b <= 2 * Ups(ps, i, l)
    ensures Counter(ws[l], k) == Low(Counter(ws[i], k) + b, 31 - k)
  {
    if i == l {
      b := 0;
      WordsShow(ps, ws, k, i);
      CounterFits(ws[i], k);
      assert Counter(ws[i], k) + b == Counter(ws[i], k);
    } else {
      b := CounterMoved(ps, ws, k, i, l - 1);
      WordsShow(ps, ws, k, l - 1);
      assert WordAt(ps, ws, k, l);
      b := MovedCounter(ws[l - 1], ps[l - 1], ps[l], Counter(ws[i], k), b, k);
    }
  }

  lemma CounterFits(w: nat, k: nat)
    requires w < WORDS && k + 1 <= 32
    ensures Counter(w, k) < Pow2(31 - k) && Low(Counter(w, k), 31 - k) == Counter(w, k)
  {
    PowerUpTo(32);
    ShrBelow(w, k + 1, 31 - k);
    LowSmall(Counter(w, k), 31 - k);
  }

  lemma MovedCounter(w: nat, from: int, to: int, c: nat, b: nat, k: nat) returns (b': nat)
    requires k + 1 <= 32 && w < WORDS && Counter(w, k) == Low(c + b, 31 - k)
    ensures if to == from + 1 then b + 1 <= b' <= b + 2 else b' == b
    ensures Counter(Moved(w, from, to, k), k) == Low(c + b', 31 - k)
  {
    b' := b;
    if to == from + 1 {
      b' := b + Bump(w, k);
      ForwardCounter(w, k);
      LowAdd(c + b, Bump(w, k), 31 - k);
    } else if to == from - 1 {
      BackwardMoves(w, k);
    }
  }

  lemma {:induction false} MovesGrow(ps: seq<int>, i: nat, j: nat, l: nat)
    requires i <= j <= l < |ps|
    ensures Ups(ps, i, j) <= Ups(ps, i, l) && Downs(ps, i, j) <= Downs(ps, i, l)
  {
    if j < l { MovesGrow(ps, i, j, l - 1); }
  }

  /** Equal words at two moments, with fewer moves forward in between than would turn the counter round and
      fewer moves back than twice the capacity: the position did not move at all. */
  lemma PositionStood(ps: seq<int>, ws: seq<nat>, k: nat, i: nat, j: nat, l: nat)
    requires 1 <= k && k + 1 <= 32 && Words(ps, ws, k) && Steady(ps) && ps[0] == 0 && i <= j <= l < |ps|
    requires ws[i] == ws[l] && 2 * Ups(ps, i, l) < Pow2(31 - k) && Downs(ps, i, l) < Pow2(k + 1)
    ensures ps[j] == ps[i] == ps[l]
  {
    NetMoves(ps, i, l);
    var b := CounterMoved(ps, ws, k, i, l);
    WordsShow(ps, ws, k, i);
    WordsShow(ps, ws, k, l);
    CounterFits(ws[i], k);
    NoTurn(Counter(ws[i], k), b, 31 - k);
    SlotInjective(ps[l], ps[i], Pow2(k + 1));
    MovesGrow(ps, i, j, l);
    NetMoves(ps, i, j);
  }

  // ------------------------------------------------------------ when the answer is exact

  /** Pushes that have claimed a slot and not yet stored their word. */
  function Storing(s: State): nat { (if s.fpc.PushStore? then 1 else 0) + (if s.bpc.PushStore? then 1 else 0) }

  /** Size answers with the distance of the positions at the moment it read mBack, capped at the capacity, and
      Empty answers yes only if nothing was held at that moment but by pushes in progress, provided that in the
      meantime the front saw fewer pops than twice the capacity, and fewer pushes than would turn the counter. */
  lemma SizeIsExact(run: seq<State>, fs: seq<nat>, bs: seq<nat>, k: nat, i: nat, j: nat, l: nat)
    requires IsRun(run) && i <= j <= l < |run| && 1 <= k && k + 1 <= 32 && run[0].cap == Pow2(k)
    requires Words(Fronts(run), fs, k) && Words(Backs(run), bs, k) && fs[i] == fs[l]
    requires 2 * Ups(Fronts(run), i, l) < Pow2(31 - k) && Downs(Fronts(run), i, l) < Pow2(k + 1)
    ensures var d := run[j].front - run[j].back;
            && SD.CalculateSize(fs[l], bs[j], k) == (if d <= run[j].cap then d else run[j].cap)
            && (SD.MaybeZero(fs[l], bs[j], k) == 0 <==> d == 0)
            && (d == 0 ==> |run[j].held| <= Storing(run[j]))
  {
    var d := run[j].front - run[j].back;
    RunsAreSteady(run);
    PositionStood(Fronts(run), fs, k, i, j, l);
    WordsShow(Fronts(run), fs, k, l);
    WordsShow(Backs(run), bs, k, j);
    WordsStayClose(run, j);
    CapacityStays(run, j);
    RunInv(run, j);
    PowerMonotone(1, k);
    SlotsAgree(bs[j], run[j].back, d, Pow2(k + 1));
    SD.SizeFromDistance(fs[l], bs[j], d, k);
  }

  // ------------------------------------------------------------ when it is not

  /** From moment `from` on nobody pushes at the front. */
  predicate NoFrontPush(run: seq<State>, from: nat) { forall m :: from < m < |run| ==> run[m].front <= run[m - 1].front }

  lemma {:induction false} NoUps(run: seq<State>, i: nat, l: nat)
    requires l < |run| && NoFrontPush(run, i)
    ensures Ups(Fronts(run), i, l) == 0
  {
    if i < l { NoUps(run, i, l - 1); }
  }

  predicate BothIdle(s: State) { s.fpc.Idle? && s.bpc.Idle? }

  function Last(run: seq<State>): State
    requires |run| > 0
  {
    run[|run| - 1]
  }

  lemma Appended(run: seq<State>, act: Action, from: nat) returns (longer: seq<State>)
    requires IsRun(run) && Enabled(Last(run), act) && NoFrontPush(run, from) && Apply(Last(run), act).front <= Last(run).front
    ensures longer == run + [Apply(Last(run), act)] && IsRun(longer) && NoFrontPush(longer, from)
  {
    longer := run + [Apply(Last(run), act)];
    forall i | 0 <= i < |longer| - 1 ensures StepAt(longer, i) {
      if i < |run| - 1 { assert StepAt(run, i); }
    }
  }

  /** One step at an end leaves the other end and its word alone, and a pop does not move the front on. */
  lemma EndStep(s: State, end: End)
    requires Inv(s) && Enabled(s, Run(end))
    ensures var s' := Apply(s, Run(end));
            && s'.cap == s.cap
            && (end == Back ==> s'.front == s.front && s'.fpc == s.fpc)
            && (end == Front ==> s'.back == s.back && s'.bpc == s.bpc)
            && (end == Front && InPop(s.fpc) ==> s'.front <= s.front && InPop(s'.fpc))
  {
  }

  /** The run driven on at one end as in Alone. */
  lemma {:induction false} Driven(run: seq<State>, end: End, n: nat, from: nat) returns (longer: seq<State>)
    requires IsRun(run) && NoFrontPush(run, from) && (end == Front ==> InPop(Last(run).fpc))
    ensures IsRun(longer) && run <= longer && NoFrontPush(longer, from) && Last(longer) == Alone(Last(run), end, n)
    ensures Last(longer).cap == Last(run).cap
    ensures end == Back ==> Last(longer).front == Last(run).front && Last(longer).fpc == Last(run).fpc
    ensures end == Front ==> Last(longer).back == Last(run).back && Last(longer).bpc == Last(run).bpc
    decreases n
  {
    longer := run;
    if n > 0 && Enabled(Last(run), Run(end)) {
      RunInv(run, |run| - 1);
      EndStep(Last(run), end);
      longer := Appended(run, Run(end), from);
      longer := Driven(longer, end, n - 1, from);
    }
  }

  /** A whole push at the back of a deque that has room. */
  lemma PushedBack(run: seq<State>, from: nat) returns (longer: seq<State>)
    requires IsRun(run) && NoFrontPush(run, from) && BothIdle(Last(run)) && |Items(Last(run))| < Last(run).cap
    ensures IsRun(longer) && run <= longer && NoFrontPush(longer, from) && BothIdle(Last(longer)) && Last(longer).cap == Last(run).cap
    ensures |Items(Last(longer))| == |Items(Last(run))| + 1
    ensures Last(longer).front == Last(run).front && Last(longer).back == Last(run).back - 1
  {
    RunInv(run, |run| - 1);
    IdleWordsCount(run, |run| - 1);
    PushAlone(Last(run), Back, 0);
    longer := Appended(run, CallPush(Back, 0), from);
    longer := Driven(longer, Back, 6, from);
    longer := Appended(longer, Return(Back), from);
    IdleWordsCount(longer, |longer| - 1);
  }

  /** A whole pop at the front of a deque that is not empty. */
  lemma PoppedFront(run: seq<State>, from: nat) returns (longer: seq<State>)
    requires IsRun(run) && NoFrontPush(run, from) && BothIdle(Last(run)) && Items(Last(run)) != []
    ensures IsRun(longer) && run <= longer && NoFrontPush(longer, from) && BothIdle(Last(longer)) && Last(longer).cap == Last(run).cap
    ensures |Items(Last(longer))| == |Items(Last(run))| - 1
    ensures Last(longer).front == Last(run).front - 1 && Last(longer).back == Last(run).back
  {
    RunInv(run, |run| - 1);
    IdleWordsCount(run, |run| - 1);
    PopAlone(Last(run), Front);
    longer := Appended(run, CallPop(Front), from);
    longer := Driven(longer, Front, 6, from);
    longer := Appended(longer, Return(Front), from);
    IdleWordsCount(longer, |longer| - 1);
  }

  lemma {:induction false} Filled(run: seq<State>, n: nat, from: nat) returns (longer: seq<State>)
    requires IsRun(run) && NoFrontPush(run, from) && BothIdle(Last(run)) && |Items(Last(run))| + n <= Last(run).cap
    ensures IsRun(longer) && run <= longer && NoFrontPush(longer, from) && BothIdle(Last(longer)) && Last(longer).cap == Last(run).cap
    ensures |Items(Last(longer))| == |Items(Last(run))| + n
    ensures Last(longer).front == Last(run).front && Last(longer).back == Last(run).back - n
    decreases n
  {
    longer := run;
    if n > 0 {
      longer := PushedBack(run, from);
      longer := Filled(longer, n - 1, from);
    }
  }

  /** n times: a push at the back, then a pop at the front. */
  lemma {:induction false} Cycled(run: seq<State>, n: nat, from: nat) returns (longer: seq<State>)
    requires IsRun(run) && NoFrontPush(run, from) && BothIdle(Last(run)) && |Items(Last(run))| < Last(run).cap
    ensures IsRun(longer) && run <= longer && NoFrontPush(longer, from) && BothIdle(Last(longer)) && Last(longer).cap == Last(run).cap
    ensures |Items(Last(longer))| == |Items(Last(run))|
    ensures Last(longer).front == Last(run).front - n && Last(longer).back == Last(run).back - n
    decreases n
  {
    longer := run;
    if n > 0 {
      longer := PushedBack(run, from);
      longer := PoppedFront(longer, from);
      longer := Cycled(longer, n - 1, from);
    }
  }

  /** Equal counters and equal indices make equal words. */
  lemma SameWords(v: nat, w: nat, k: nat)
    requires k + 1 <= 32 && Counter(v, k) == Counter(w, k) && Slot(v, Pow2(k + 1)) == Slot(w, Pow2(k + 1))
    ensures v == w
  {
    HighLow(v, k + 1);
    HighLow(w, k + 1);
    SlotIsLow(v, k + 1);
    SlotIsLow(w, k + 1);
  }

  /** Without moves forward, twice the capacity of moves back bring the word back. */
  lemma WordRecurs(ps: seq<int>, ws: seq<nat>, k: nat, i: nat, l: nat)
    requires 1 <= k && k + 1 <= 32 && Words(ps, ws, k) && Steady(ps) && ps[0] == 0 && i <= l < |ps|
    requires Ups(ps, i, l) == 0 && ps[l] == ps[i] - Pow2(k + 1)
    ensures ws[i] == ws[l]
  {
    var b := CounterMoved(ps, ws, k, i, l);
    WordsShow(ps, ws, k, i);
    WordsShow(ps, ws, k, l);
    CounterFits(ws[i], k);
    assert Counter(ws[i], k) + b == Counter(ws[i], k);
    SlotLap(ps[l], Pow2(k + 1));
    SameWords(ws[i], ws[l], k);
  }

  /** For every capacity: between two reads of the same front word, twice the capacity of pops at the front may
      have passed, one for each push at the back.  The deque was never empty, and Empty, which read the back word
      when it was full, says that it is. */
  lemma FullReportedEmpty(k: nat) returns (run: seq<State>, fs: seq<nat>, bs: seq<nat>, i: nat, j: nat, l: nat)
    requires 2 <= k && k + 1 <= 32
    ensures IsRun(run) && i <= j <= l < |run| && run[0].cap == Pow2(k)
    ensures Words(Fronts(run), fs, k) && Words(Backs(run), bs, k) && fs[i] == fs[l]
    ensures run[j].cap == Pow2(k) && |Items(run[j])| == Pow2(k) && BothIdle(run[j])
    ensures SD.MaybeZero(fs[l], bs[j], k) == 0
  {
    run, i, j, l := Lapped(k);
    fs, bs := WordsOf(Fronts(run), k), WordsOf(Backs(run), k);
    WordsExist(Fronts(run), k);
    WordsExist(Backs(run), k);
    RunsAreSteady(run);
    NoUps(run, i, l);
    WordRecurs(Fronts(run), fs, k, i, l);
    WordsShow(Fronts(run), fs, k, l);
    WordsShow(Backs(run), bs, k, j);
    SD.ZeroOfSlots(fs[l], bs[j], k);
  }

  /** One task short of full, a push at the back and a pop at the front, twice the capacity of times. */
  lemma Lapped(k: nat) returns (run: seq<State>, i: nat, j: nat, l: nat)
    requires 2 <= k
    ensures IsRun(run) && i <= j <= l < |run| && run[0].cap == Pow2(k) && NoFrontPush(run, i)
    ensures run[j].cap == Pow2(k) && |Items(run[j])| == Pow2(k) && BothIdle(run[j])
    ensures run[l].front == run[i].front - Pow2(k + 1) && run[l].front == run[j].back
  {
    var cap := Pow2(k);
    PowerMonotone(2, k);
    var slots := seq(cap, _ => Elem(Empty, 0));
    var first := Filled([State(cap, 0, 0, slots, Idle, Idle, [])], cap - 1, 0);
    i := |first| - 1;
    var second := Cycled(first, cap, i);
    var third := PushedBack(second, i);
    j := |third| - 1;
    var fourth := PoppedFront(third, i);
    run := Cycled(fourth, cap - 1, i);
    l := |run| - 1;
    assert run[i] == Last(first) && run[j] == Last(third) && run[0] == first[0];
  }
}
