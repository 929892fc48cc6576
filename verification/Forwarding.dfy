/**
 IndirectAsyncValue (async/context/async_value.cpp, async_value.h): a value that forwards to another
 one, perhaps through a chain of indirect values, perhaps before its target is available.  The
 model holds any number of values with their reference counts; each call of ForwardTo, each firing
 of the callback it left behind, and each reference taken or dropped is one step.
 */
module Forwarding {
  import opened Counting

  datatype Link = None | To(v: nat)
  datatype State = Unavailable | Concrete | Error

  /** payload and typeId belong to concrete values; an indirect one copies typeId.
      wanted: the argument of ForwardTo.  waiting: its callback is in the target's waiter list and
      holds a reference on the target and one on this value.  held: references of everybody else. */
  datatype Cell = Cell(indirect: bool, state: State, payload: int, typeId: nat, target: Link, wanted: Link,
                       waiting: bool, refs: int, held: int, dead: bool)

  type Heap = seq<Cell>

  datatype Action =
    | AddRef(v: nat)
    | DropHeld(v: nat)
    | Resolve(v: nat, to: State, payload: int)
    | ForwardTo(v: nat, t: nat)
    | Fire(v: nat)

  // ------------------------------------------------------------ the steps

  /** DropRef.  The last reference destroys the value; an indirect value then drops its target. */
  function DropRef(h: Heap, v: nat): (h': Heap)
    requires v < |h|
    ensures |h'| == |h|
  {
    var h1 := h[v := h[v].(refs := h[v].refs - 1, dead := h[v].refs == 1)];
    if h[v].refs == 1 && h[v].target.To? && h[v].target.v < |h| then DropLeaf(h1, h[v].target.v) else h1
  }

  /** Dropping a reference on a value that has no target. */
  function DropLeaf(h: Heap, v: nat): (h': Heap)
    requires v < |h|
    ensures |h'| == |h|
  {
    h[v := h[v].(refs := h[v].refs - 1, dead := h[v].refs == 1)]
  }

  /** The concrete value behind an available value. */
  function Behind(h: Heap, t: nat): nat
    requires t < |h|
  {
    if h[t].indirect && h[t].target.To? then h[t].target.v else t
  }

  /** ForwardTo with an available target: point at the concrete value behind it, copy its type and
      state, and trade the reference on an indirect target for one on that value. */
  function Land(h: Heap, v: nat, t: nat): (h': Heap)
    requires v < |h| && t < |h| && Behind(h, t) < |h|
    ensures |h'| == |h|
  {
    var c := Behind(h, t);
    var h1 := h[v := h[v].(target := To(c), typeId := h[c].typeId, state := h[t].state)];
    if h[t].indirect then DropRef(h1[c := h1[c].(refs := h1[c].refs + 1)], t) else h1
  }

  predicate Enabled(h: Heap, act: Action) {
    match act
    case AddRef(v) => v < |h| && h[v].held > 0
    case DropHeld(v) => v < |h| && h[v].held > 0
    case Resolve(v, to, _) => v < |h| && !h[v].indirect && !h[v].dead && h[v].state.Unavailable? && !to.Unavailable?
    case ForwardTo(v, t) => v < |h| && t < |h| && v != t && h[v].indirect && h[v].held > 0 && h[t].held > 0
                            && h[v].wanted.None? && Behind(h, t) < |h|
    case Fire(v) => v < |h| && h[v].waiting && h[v].wanted.To? && h[v].wanted.v < |h|
                    && !h[h[v].wanted.v].state.Unavailable? && Behind(h, h[v].wanted.v) < |h|
  }

  /** ForwardTo is called with one of the held references on the target. */
  function RunForward(h: Heap, v: nat, t: nat): (h': Heap)
    requires Enabled(h, ForwardTo(v, t))
    ensures |h'| == |h|
  {
    var h1 := h[t := h[t].(held := h[t].held - 1)];
    if h[t].state.Unavailable? then h1[v := h1[v].(wanted := To(t), waiting := true, refs := h1[v].refs + 1)]
    else Land(h1[v := h1[v].(wanted := To(t))], v, t)
  }

  /** The callback of v: ForwardTo again, now with an available target, then its reference on v goes. */
  function RunFire(h: Heap, v: nat): (h': Heap)
    requires Enabled(h, Fire(v))
    ensures |h'| == |h|
  {
    DropRef(Land(h[v := h[v].(waiting := false)], v, h[v].wanted.v), v)
  }

  function Apply(h: Heap, act: Action): (h': Heap)
    requires Enabled(h, act)
    ensures |h'| == |h|
  {
    match act
    case AddRef(v) => h[v := h[v].(refs := h[v].refs + 1, held := h[v].held + 1)]
    case DropHeld(v) => DropRef(h[v := h[v].(held := h[v].held - 1)], v)
    case Resolve(v, to, payload) => h[v := h[v].(state := to, payload := payload)]
    case ForwardTo(v, t) => RunForward(h, v, t)
    case Fire(v) => RunFire(h, v)
  }

  // ------------------------------------------------------------ who owns the references

  function PointsTo(u: nat): Cell -> bool { (x: Cell) => !x.dead && x.target == To(u) }
  function WaitsOn(u: nat): Cell -> bool { (x: Cell) => x.waiting && x.wanted == To(u) }

  /** References with an owner: the holders, living indirect values that point here, callbacks
      waiting for this value, and this value's own callback. */
  function Owners(h: Heap, u: nat): int
    requires u < |h|
  {
    h[u].held + Count(h, PointsTo(u)) + Count(h, WaitsOn(u)) + (if h[u].waiting then 1 else 0)
  }

  function Debt(h: Heap, u: nat): int
    requires u < |h|
  {
    h[u].refs - Owners(h, u)
  }

  function One(b: bool): int { if b then 1 else 0 }

  /** What a cell contributes to the debt of u, apart from its own counts. */
  function Share(x: Cell, u: nat): int { One(PointsTo(u)(x)) + One(WaitsOn(u)(x)) }

  /** Replacing cell v changes the debt of v by its own counts and that of any u by its links. */
  lemma DebtUpdate(h: Heap, v: nat, x: Cell, u: nat)
    requires v < |h| && u < |h|
    ensures Debt(h[v := x], u) == Debt(h, u) + Share(h[v], u) - Share(x, u) +
              (if u == v then (x.refs - x.held - One(x.waiting)) - (h[v].refs - h[v].held - One(h[v].waiting)) else 0)
  {
    CountUpdate(h, v, x, PointsTo(u));
    CountUpdate(h, v, x, WaitsOn(u));
  }

  /** Dropping a reference lowers the debt of v by one and no other, even if it destroys v. */
  lemma DropRefDebt(h: Heap, v: nat, u: nat)
    requires v < |h| && u < |h| && !h[v].dead
    requires h[v].target.To? ==> h[v].target.v < |h| && h[h[v].target.v].target.None? && h[v].target.v != v
    ensures Debt(DropRef(h, v), u) == Debt(h, u) - One(u == v)
  {
    var x := h[v].(refs := h[v].refs - 1, dead := h[v].refs == 1);
    DebtUpdate(h, v, x, u);
    var h1 := h[v := x];
    if h[v].refs == 1 && h[v].target.To? {
      var c := h[v].target.v;
      DebtUpdate(h1, c, h1[c].(refs := h1[c].refs - 1, dead := h1[c].refs == 1), u);
    }
  }

  // ------------------------------------------------------------ the invariant

  /** An available indirect value points directly at a concrete value of the same state and type. */
  predicate CellFits(h: Heap, v: nat)
    requires v < |h|
  {
    var x := h[v];
    && (x.dead <==> x.refs <= 0)
    && x.held >= 0
    && (!x.indirect ==> x.target.None? && x.wanted.None? && !x.waiting)
    && (x.indirect ==> (x.state.Unavailable? <==> x.target.None?))
    && (x.target.To? ==> TargetFits(h, x))
    && (x.wanted.To? ==> x.wanted.v < |h| && (x.waiting <==> x.target.None?))
    && (x.wanted.None? ==> !x.waiting && x.target.None?)
  }

  predicate TargetFits(h: Heap, x: Cell)
    requires x.target.To?
  {
    && x.target.v < |h| && !h[x.target.v].indirect
    && h[x.target.v].state == x.state && h[x.target.v].typeId == x.typeId
  }

  /** Following ForwardTo k times from v leads to c. */
  predicate Follows(h: Heap, v: nat, c: nat, k: nat)
    decreases k
  {
    if k == 0 then v == c else v < |h| && h[v].wanted.To? && Follows(h, h[v].wanted.v, c, k - 1)
  }

  ghost predicate Chained(h: Heap, v: nat, c: nat) { exists k: nat :: Follows(h, v, c, k) }

  ghost predicate At(h: Heap, v: nat)
    requires v < |h|
  {
    CellFits(h, v) && Debt(h, v) == 0 && (h[v].target.To? ==> Chained(h, v, h[v].target.v))
  }

  ghost predicate Inv(h: Heap) { forall v :: 0 <= v < |h| ==> At(h, v) }

  ghost predicate Fits(h: Heap) { forall v :: 0 <= v < |h| ==> CellFits(h, v) }

  /** Links of ForwardTo calls are never taken back. */
  predicate KeepsLinks(h: Heap, h': Heap) {
    |h'| == |h| && forall v :: 0 <= v < |h| && h[v].wanted.To? ==> h'[v].wanted == h[v].wanted
  }

  lemma {:induction false} FollowsKept(h: Heap, h': Heap, v: nat, c: nat, k: nat)
    requires KeepsLinks(h, h') && Follows(h, v, c, k)
    ensures Follows(h', v, c, k)
    decreases k
  {
    if k > 0 { FollowsKept(h, h', h[v].wanted.v, c, k - 1); }
  }

  lemma ChainedKept(h: Heap, h': Heap, v: nat, c: nat)
    requires KeepsLinks(h, h') && Chained(h, v, c)
    ensures Chained(h', v, c)
  {
    var k: nat :| Follows(h, v, c, k);
    FollowsKept(h, h', v, c, k);
  }

  /** Every owner of a reference keeps the value alive. */
  lemma OwnedIsAlive(h: Heap, v: nat, i: nat)
    requires Fits(h) && v < |h| && Debt(h, v) >= 0 && i < |h|
    ensures PointsTo(v)(h[i]) || WaitsOn(v)(h[i]) || h[v].held > 0 || h[v].waiting ==> h[v].refs > 0 && !h[v].dead
  {
    assert CellFits(h, v);
    if PointsTo(v)(h[i]) { CountHit(h, i, PointsTo(v)); }
    if WaitsOn(v)(h[i]) { CountHit(h, i, WaitsOn(v)); }
  }

  /** Destroying values keeps what the others rely on. */
  lemma DropRefFits(h: Heap, v: nat)
    requires Fits(h) && v < |h| && h[v].refs > 0
    requires forall u :: 0 <= u < |h| ==> Debt(h, u) >= 0
    ensures Fits(DropRef(h, v)) && KeepsLinks(h, DropRef(h, v))
    ensures forall u :: 0 <= u < |h| ==> Debt(DropRef(h, v), u) == Debt(h, u) - One(u == v)
    ensures forall u :: 0 <= u < |h| ==> DropRef(h, v)[u] == h[u].(refs := DropRef(h, v)[u].refs, dead := DropRef(h, v)[u].dead)
  {
    var h' := DropRef(h, v);
    assert CellFits(h, v);
    if h[v].target.To? {
      assert CellFits(h, h[v].target.v);
      OwnedIsAlive(h, h[v].target.v, v);
    }
    forall u | 0 <= u < |h| ensures CellFits(h', u) {
      assert CellFits(h, u);
    }
    forall u | 0 <= u < |h| ensures Debt(h', u) == Debt(h, u) - One(u == v) {
      DropRefDebt(h, v, u);
    }
  }

  // ------------------------------------------------------------ the steps keep it

  lemma FromParts(h: Heap, h': Heap)
    requires Inv(h) && KeepsLinks(h, h') && Fits(h')
    requires forall u :: 0 <= u < |h'| ==> Debt(h', u) == 0
    requires forall u :: 0 <= u < |h'| && h'[u].target.To? ==> h'[u].target == h[u].target || Chained(h', u, h'[u].target.v)
    ensures Inv(h')
  {
    forall u | 0 <= u < |h'| ensures At(h', u) {
      assert At(h, u);
      if h'[u].target.To? && h'[u].target == h[u].target {
        ChainedKept(h, h', u, h[u].target.v);
      }
    }
  }

  lemma InvParts(h: Heap)
    requires Inv(h)
    ensures Fits(h) && forall u :: 0 <= u < |h| ==> Debt(h, u) == 0
  {
    forall u | 0 <= u < |h| ensures CellFits(h, u) && Debt(h, u) == 0 { assert At(h, u); }
  }

  lemma SimpleInv(h: Heap, act: Action)
    requires Inv(h) && Enabled(h, act) && (act.AddRef? || act.Resolve?)
    ensures Inv(Apply(h, act))
  {
    var h' := Apply(h, act);
    InvParts(h);
    assert CellFits(h, act.v);
    forall u | 0 <= u < |h'| ensures CellFits(h', u) && Debt(h', u) == 0 {
      assert CellFits(h, u);
      DebtUpdate(h, act.v, h'[act.v], u);
    }
    FromParts(h, h');
  }

  lemma DropHeldInv(h: Heap, v: nat)
    requires Inv(h) && Enabled(h, DropHeld(v))
    ensures Inv(Apply(h, DropHeld(v)))
  {
    var h1 := h[v := h[v].(held := h[v].held - 1)];
    InvParts(h);
    OwnedIsAlive(h, v, v);
    forall u | 0 <= u < |h| ensures CellFits(h1, u) && Debt(h1, u) == One(u == v) {
      assert CellFits(h, u) && CellFits(h, v);
      DebtUpdate(h, v, h1[v], u);
    }
    DropRefFits(h1, v);
    FromParts(h, Apply(h, DropHeld(v)));
  }

  /** ForwardTo with a target that is not available yet. */
  lemma EnqueueInv(h: Heap, v: nat, t: nat)
    requires Inv(h) && Enabled(h, ForwardTo(v, t)) && h[t].state.Unavailable?
    ensures Inv(RunForward(h, v, t))
  {
    var h1 := h[t := h[t].(held := h[t].held - 1)];
    var h2 := RunForward(h, v, t);
    InvParts(h);
    OwnedIsAlive(h, v, v);
    forall u | 0 <= u < |h| ensures CellFits(h2, u) && Debt(h2, u) == 0 {
      assert CellFits(h, u) && CellFits(h, v) && CellFits(h, t);
      DebtUpdate(h, t, h1[t], u);
      DebtUpdate(h1, v, h2[v], u);
    }
    FromParts(h, h2);
  }

  /** Before landing: v wants the available t, and one reference on t is in hand. */
  ghost predicate ReadyToLand(h: Heap, v: nat, t: nat, spare: nat) {
    && v < |h| && t < |h| && v != t && h[t].refs > 0 && !h[t].state.Unavailable?
    && h[v].indirect && h[v].state.Unavailable? && h[v].target.None? && h[v].wanted == To(t) && !h[v].waiting
    && h[v].held >= 0 && h[v].refs > 0 && !h[v].dead
    && (forall u :: 0 <= u < |h| && u != v ==> CellFits(h, u))
    && (forall u :: 0 <= u < |h| ==> Debt(h, u) == One(u == t) + (if u == v then spare else 0))
  }

  lemma LandFits(h: Heap, v: nat, t: nat, spare: nat)
    requires ReadyToLand(h, v, t, spare)
    ensures Behind(h, t) < |h|
    ensures var h' := Land(h, v, t);
            && Fits(h') && KeepsLinks(h, h') && h'[v].target == To(Behind(h, t)) && h'[v].refs > 0
            && (forall u :: 0 <= u < |h| ==> Debt(h', u) == (if u == v then spare else 0))
            && (forall u :: 0 <= u < |h| && u != v ==> h'[u].target == h[u].target)
  {
    assert CellFits(h, t);
    var c := Behind(h, t);
    assert CellFits(h, c);
    var h1 := h[v := h[v].(target := To(c), typeId := h[c].typeId, state := h[t].state)];
    forall u | 0 <= u < |h|
      ensures Debt(h1, u) == One(u == t) + (if u == v then spare else 0) - One(u == c)
    {
      DebtUpdate(h, v, h1[v], u);
    }
    if h[t].indirect {
      LandIndirect(h, h1, v, t, c, spare);
    } else {
      forall u | 0 <= u < |h| ensures CellFits(h1, u) { LandCell(h, h1, v, t, c, u); }
    }
  }

  lemma LandCell(h: Heap, h1: Heap, v: nat, t: nat, c: nat, u: nat)
    requires v < |h| && t < |h| && v != t && c < |h| && c == Behind(h, t) && u < |h| && !h[t].state.Unavailable?
    requires h[v].indirect && h[v].target.None? && h[v].state.Unavailable? && h[v].wanted == To(t) && !h[v].waiting
    requires h[v].held >= 0 && h[v].refs > 0 && !h[v].dead
    requires u != v ==> CellFits(h, u)
    requires CellFits(h, t) && CellFits(h, c)
    requires h1 == h[v := h[v].(target := To(c), typeId := h[c].typeId, state := h[t].state)]
    ensures CellFits(h1, u)
  {
  }

  lemma LandIndirect(h: Heap, h1: Heap, v: nat, t: nat, c: nat, spare: nat)
    requires ReadyToLand(h, v, t, spare) && h[t].indirect && c < |h| && c == Behind(h, t)
    requires h1 == h[v := h[v].(target := To(c), typeId := h[c].typeId, state := h[t].state)]
    requires forall u :: 0 <= u < |h| ==> Debt(h1, u) == One(u == t) + (if u == v then spare else 0) - One(u == c)
    ensures var h' := DropRef(h1[c := h1[c].(refs := h1[c].refs + 1)], t);
            && Fits(h') && KeepsLinks(h, h') && h'[v].target == To(c) && h'[v].refs > 0
            && (forall u :: 0 <= u < |h| ==> Debt(h', u) == (if u == v then spare else 0))
            && (forall u :: 0 <= u < |h| && u != v ==> h'[u].target == h[u].target)
  {
    var h2 := h1[c := h1[c].(refs := h1[c].refs + 1)];
    assert CellFits(h, t) && CellFits(h, c);
    TargetAlive(h, t, c, spare, v);
    forall u | 0 <= u < |h|
      ensures CellFits(h2, u) && Debt(h2, u) == One(u == t) + (if u == v then spare else 0)
    {
      LandCell(h, h1, v, t, c, u);
      DebtUpdate(h1, c, h2[c], u);
    }
    DropRefFits(h2, t);
  }

  lemma TargetAlive(h: Heap, t: nat, c: nat, spare: nat, v: nat)
    requires ReadyToLand(h, v, t, spare) && h[t].target == To(c) && c < |h|
    ensures h[c].refs > 0 && !h[c].dead
  {
    assert CellFits(h, t) && CellFits(h, c);
    assert PointsTo(c)(h[t]);
    CountHit(h, t, PointsTo(c));
    assert Debt(h, c) >= 0;
  }

  lemma LandChained(h: Heap, v: nat, t: nat)
    requires v < |h| && t < |h| && h[v].wanted == To(t)
    requires h[t].indirect && h[t].target.To? ==> Chained(h, t, h[t].target.v)
    ensures Chained(h, v, Behind(h, t))
  {
    var c := Behind(h, t);
    if h[t].indirect && h[t].target.To? {
      var k: nat :| Follows(h, t, c, k);
      assert Follows(h, v, c, k + 1);
    } else {
      assert Follows(h, t, c, 0);
      assert Follows(h, v, c, 1);
    }
  }

  lemma ForwardInv(h: Heap, v: nat, t: nat)
    requires Inv(h) && Enabled(h, ForwardTo(v, t)) && !h[t].state.Unavailable?
    ensures Inv(RunForward(h, v, t))
  {
    var h1 := h[t := h[t].(held := h[t].held - 1)];
    var h2 := h1[v := h1[v].(wanted := To(t))];
    InvParts(h);
    OwnedIsAlive(h, v, v);
    OwnedIsAlive(h, t, t);
    assert CellFits(h, v) && CellFits(h, t);
    forall u | 0 <= u < |h| ensures Debt(h2, u) == One(u == t) && (u != v ==> CellFits(h2, u)) {
      assert CellFits(h, u);
      DebtUpdate(h, t, h1[t], u);
      DebtUpdate(h1, v, h2[v], u);
    }
    LandFits(h2, v, t, 0);
    assert At(h, t);
    if h[t].target.To? { ChainedKept(h, h2, t, h[t].target.v); }
    LandChained(h2, v, t);
    var h' := Land(h2, v, t);
    ChainedKept(h2, h', v, Behind(h2, t));
    FromParts(h, h');
  }

  lemma FireInv(h: Heap, v: nat)
    requires Inv(h) && Enabled(h, Fire(v))
    ensures Inv(RunFire(h, v))
  {
    var t := h[v].wanted.v;
    var h1 := h[v := h[v].(waiting := false)];
    InvParts(h);
    OwnedIsAlive(h, v, v);
    OwnedIsAlive(h, t, v);
    assert CellFits(h, v) && CellFits(h, t);
    forall u | 0 <= u < |h| ensures Debt(h1, u) == One(u == t) + One(u == v) && (u != v ==> CellFits(h1, u)) {
      assert CellFits(h, u);
      DebtUpdate(h, v, h1[v], u);
    }
    LandFits(h1, v, t, 1);
    var h2 := Land(h1, v, t);
    assert At(h, t);
    if h[t].target.To? { ChainedKept(h, h1, t, h[t].target.v); }
    LandChained(h1, v, t);
    DropRefFits(h2, v);
    var h' := DropRef(h2, v);
    ChainedKept(h1, h', v, Behind(h1, t));
    FromParts(h, h');
  }

  lemma StepInv(h: Heap, act: Action)
    requires Inv(h) && Enabled(h, act)
    ensures Inv(Apply(h, act))
  {
    match act
    case AddRef(v) => SimpleInv(h, act);
    case Resolve(v, to, payload) => SimpleInv(h, act);
    case DropHeld(v) => DropHeldInv(h, v);
    case Fire(v) => FireInv(h, v);
    case ForwardTo(v, t) => if h[t].state.Unavailable? { EnqueueInv(h, v, t); } else { ForwardInv(h, v, t); }
  }

  // ------------------------------------------------------------ runs

  predicate FreshCell(x: Cell) {
    && x.refs == x.held > 0 && !x.dead && x.target.None? && x.wanted.None? && !x.waiting
    && (x.indirect ==> x.state.Unavailable?)
  }

  predicate Init(h: Heap) { forall v :: 0 <= v < |h| ==> FreshCell(h[v]) }

  ghost predicate Next(h: Heap, h': Heap) { exists act :: Enabled(h, act) && h' == Apply(h, act) }

  lemma NextInv(h: Heap, h': Heap)
    requires Inv(h) && Next(h, h')
    ensures Inv(h')
  {
    var act :| Enabled(h, act) && h' == Apply(h, act);
    StepInv(h, act);
  }

  ghost predicate StepAt(run: seq<Heap>, i: nat)
    requires i + 1 < |run|
  {
    Next(run[i], run[i + 1])
  }

  ghost predicate IsRun(run: seq<Heap>) {
    |run| > 0 && Init(run[0]) && forall i :: 0 <= i < |run| - 1 ==> StepAt(run, i)
  }

  lemma InitInv(h: Heap)
    requires Init(h)
    ensures Inv(h)
  {
    forall v | 0 <= v < |h| ensures At(h, v) {
      assert FreshCell(h[v]);
      forall i | 0 <= i < |h| ensures !PointsTo(v)(h[i]) && !WaitsOn(v)(h[i]) { assert FreshCell(h[i]); }
      CountNone(h, PointsTo(v));
      CountNone(h, WaitsOn(v));
    }
  }

  lemma {:induction false} RunInv(run: seq<Heap>, i: nat)
    requires IsRun(run) && i < |run|
    ensures Inv(run[i])
  {
    if i == 0 {
      InitInv(run[0]);
    } else {
      RunInv(run, i - 1);
      assert StepAt(run, i - 1);
      NextInv(run[i - 1], run[i]);
    }
  }

  // ------------------------------------------------------------ what it is for

  /** What the payload and error accessors read: for an indirect value, those of its target. */
  function Payload(h: Heap, v: nat): int
    requires v < |h| && Behind(h, v) < |h|
  {
    h[Behind(h, v)].payload
  }

  /** Following ForwardTo from v to a concrete value leads to one only. */
  lemma {:induction false} OneEnd(h: Heap, v: nat, c: nat, k: nat, d: nat, l: nat)
    requires Follows(h, v, c, k) && Follows(h, v, d, l)
    requires c < |h| && d < |h| && h[c].wanted.None? && h[d].wanted.None?
    ensures c == d && k == l
    decreases k
  {
    if k > 0 && l > 0 { OneEnd(h, h[v].wanted.v, c, k - 1, d, l - 1); }
  }

  /** In every reachable heap an available indirect value points directly at the concrete value at
      the end of its chain, however long, and has its state, type and payload. */
  lemma ChainsCollapse(run: seq<Heap>, i: nat, v: nat, c: nat, k: nat)
    requires IsRun(run) && i < |run| && v < |run[i]| && c < |run[i]|
    requires run[i][v].indirect && !run[i][v].state.Unavailable?
    requires !run[i][c].indirect && Follows(run[i], v, c, k)
    ensures run[i][v].target == To(c) && Payload(run[i], v) == run[i][c].payload
    ensures run[i][v].state == run[i][c].state && run[i][v].typeId == run[i][c].typeId
  {
    RunInv(run, i);
    var h := run[i];
    assert At(h, v) && At(h, c);
    var d := h[v].target.v;
    var l: nat :| Follows(h, v, d, l);
    assert At(h, d);
    OneEnd(h, v, c, k, d, l);
  }

  predicate NothingToFire(h: Heap) { forall v :: 0 <= v < |h| ==> !Enabled(h, Fire(v)) }

  /** Once no callback is left to fire, every value whose chain ends in an available one is available. */
  lemma {:induction false} ChainsResolve(h: Heap, v: nat, c: nat, k: nat)
    requires Inv(h) && NothingToFire(h) && v < |h| && c < |h|
    requires Follows(h, v, c, k) && !h[c].indirect && !h[c].state.Unavailable?
    ensures !h[v].state.Unavailable?
    decreases k
  {
    assert At(h, v);
    if k > 0 {
      var t := h[v].wanted.v;
      ChainsResolve(h, t, c, k - 1);
      assert At(h, t);
      assert !Enabled(h, Fire(v));
    }
  }

  /** In every reachable heap the reference count of a value is the number of its owners, it is
      destroyed exactly when it has none, and nothing reachable is destroyed: neither what somebody
      holds, nor the target of a living value, nor the two ends of a waiting callback. */
  lemma ReferencesConserved(run: seq<Heap>, i: nat, v: nat, u: nat)
    requires IsRun(run) && i < |run| && v < |run[i]| && u < |run[i]|
    ensures run[i][v].refs == Owners(run[i], v)
    ensures run[i][v].dead <==> Owners(run[i], v) == 0
    ensures run[i][v].held > 0 ==> !run[i][v].dead
    ensures !run[i][u].dead && run[i][u].target == To(v) ==> !run[i][v].dead
    ensures run[i][u].waiting && run[i][u].wanted == To(v) ==> !run[i][v].dead && !run[i][u].dead
  {
    RunInv(run, i);
    var h := run[i];
    InvParts(h);
    assert CellFits(h, v) && CellFits(h, u);
    OwnedIsAlive(h, v, u);
    OwnedIsAlive(h, u, v);
    assert Owners(h, v) >= 0;
  }

  /** Nobody who may act is stuck: in every reachable heap whoever holds a reference on a value can take another
      and drop it, and forward an indirect value that was not forwarded yet to any other value it holds; and a
      callback whose target is available can fire. */
  lemma HoldersCanAct(run: seq<Heap>, i: nat, v: nat, t: nat)
    requires IsRun(run) && i < |run| && v < |run[i]| && t < |run[i]|
    ensures run[i][v].held >= 1 ==> Enabled(run[i], AddRef(v)) && Enabled(run[i], DropHeld(v))
    ensures v != t && run[i][v].indirect && run[i][v].wanted.None? && run[i][v].held >= 1 && run[i][t].held >= 1 ==>
              Enabled(run[i], ForwardTo(v, t))
    ensures run[i][v].waiting ==> run[i][v].wanted.To? && run[i][v].wanted.v < |run[i]|
    ensures run[i][v].waiting && !run[i][run[i][v].wanted.v].state.Unavailable? ==> Enabled(run[i], Fire(v))
  {
    RunInv(run, i);
    assert At(run[i], v) && At(run[i], t);
    if run[i][v].waiting { assert At(run[i], run[i][v].wanted.v); }
  }

  // ------------------------------------------------------------ what a value is resolved to

  predicate TurnAt(run: seq<Heap>, acts: seq<Action>, i: nat)
    requires i < |acts| && i + 1 < |run|
  {
    Enabled(run[i], acts[i]) && run[i + 1] == Apply(run[i], acts[i])
  }

  /** A run together with what was done. */
  predicate IsHistory(run: seq<Heap>, acts: seq<Action>) {
    |run| == |acts| + 1 && Init(run[0]) && forall i :: 0 <= i < |acts| ==> TurnAt(run, acts, i)
  }

  lemma HistoryIsRun(run: seq<Heap>, acts: seq<Action>)
    requires IsHistory(run, acts)
    ensures IsRun(run)
  {
    forall i | 0 <= i < |run| - 1 ensures StepAt(run, i) { assert TurnAt(run, acts, i); }
  }

  predicate SameValue(x: Cell, y: Cell) {
    x.indirect == y.indirect && x.state == y.state && x.payload == y.payload && x.typeId == y.typeId
  }

  predicate Resolves(act: Action, v: nat) { act.Resolve? && act.v == v }

  /** Dropping references changes nothing but counts. */
  lemma DropKeeps(h: Heap, v: nat, u: nat)
    requires v < |h| && u < |h|
    ensures DropRef(h, v)[u] == h[u].(refs := DropRef(h, v)[u].refs, dead := DropRef(h, v)[u].dead)
  {
  }

  lemma LandKeeps(h: Heap, v: nat, t: nat, u: nat)
    requires v < |h| && t < |h| && Behind(h, t) < |h| && u < |h|
    ensures Land(h, v, t)[u].waiting == h[u].waiting
    ensures u != v ==> SameValue(Land(h, v, t)[u], h[u])
  {
    var c := Behind(h, t);
    var h1 := h[v := h[v].(target := To(c), typeId := h[c].typeId, state := h[t].state)];
    if h[t].indirect { DropKeeps(h1[c := h1[c].(refs := h1[c].refs + 1)], t, u); }
  }

  /** A step changes a concrete value only by resolving it: it then has the state and the payload given. */
  lemma ConcreteStep(h: Heap, act: Action, v: nat)
    requires Inv(h) && Enabled(h, act) && v < |h| && !h[v].indirect
    ensures !Resolves(act, v) ==> SameValue(Apply(h, act)[v], h[v])
    ensures Resolves(act, v) ==> h[v].state.Unavailable? && SameValue(Apply(h, act)[v], h[v].(state := act.to, payload := act.payload))
  {
    match act
    case AddRef(_) =>
    case Resolve(_, _, _) =>
    case DropHeld(u) => DropKeeps(h[u := h[u].(held := h[u].held - 1)], u, v);
    case ForwardTo(u, t) => ForwardKeeps(h, u, t, v);
    case Fire(u) => FireKeepsOne(h, u, v);
  }

  lemma ForwardKeeps(h: Heap, u: nat, t: nat, v: nat)
    requires Enabled(h, ForwardTo(u, t)) && v < |h| && !h[v].indirect
    ensures SameValue(RunForward(h, u, t)[v], h[v])
  {
    if !h[t].state.Unavailable? {
      var h1 := h[t := h[t].(held := h[t].held - 1)];
      LandKeeps(h1[u := h1[u].(wanted := To(t))], u, t, v);
    }
  }

  lemma FireKeepsOne(h: Heap, u: nat, v: nat)
    requires Inv(h) && Enabled(h, Fire(u)) && v < |h| && !h[v].indirect
    ensures SameValue(RunFire(h, u)[v], h[v])
  {
    assert At(h, u);
    var h1 := h[u := h[u].(waiting := false)];
    LandKeeps(h1, u, h[u].wanted.v, v);
    DropKeeps(Land(h1, u, h[u].wanted.v), u, v);
  }

  /** A concrete value keeps what it was created with until it is resolved, which happens at most once; from
      then on it has, for good, the state and the payload it was resolved to. */
  lemma {:induction false} ValueIsResolved(run: seq<Heap>, acts: seq<Action>, i: nat, v: nat) returns (j: nat)
    requires IsHistory(run, acts) && i < |run| && v < |run[0]| && !run[0][v].indirect
    ensures v < |run[i]| && !run[i][v].indirect && run[i][v].typeId == run[0][v].typeId
    ensures (forall k :: 0 <= k < i ==> !Resolves(acts[k], v)) ==> SameValue(run[i][v], run[0][v])
    ensures (exists k :: 0 <= k < i && Resolves(acts[k], v)) ==>
              && j < i && acts[j] == Resolve(v, run[i][v].state, run[i][v].payload) && !run[i][v].state.Unavailable?
              && forall k :: 0 <= k < i && Resolves(acts[k], v) ==> k == j
  {
    j := 0;
    if i > 0 {
      j := ValueIsResolved(run, acts, i - 1, v);
      HistoryIsRun(run, acts);
      RunInv(run, i - 1);
      assert TurnAt(run, acts, i - 1);
      ConcreteStep(run[i - 1], acts[i - 1], v);
      if Resolves(acts[i - 1], v) { j := i - 1; }
    }
  }

  // ------------------------------------------------------------ callbacks come to an end

  function WaitingOnes(h: Heap): seq<bool> { seq(|h|, v requires 0 <= v < |h| => h[v].waiting) }

  predicate Holds(b: bool) { b }

  lemma FireWaits(h: Heap, v: nat)
    requires Enabled(h, Fire(v))
    ensures Count(WaitingOnes(RunFire(h, v)), Holds) < Count(WaitingOnes(h), Holds)
  {
    var t, h1, h' := h[v].wanted.v, h[v := h[v].(waiting := false)], RunFire(h, v);
    forall u | 0 <= u < |h| ensures h'[u].waiting == h1[u].waiting {
      LandKeeps(h1, v, t, u);
      DropKeeps(Land(h1, v, t), v, u);
    }
    CountUpdate(WaitingOnes(h), v, false, Holds);
    assert WaitingOnes(h') == WaitingOnes(h)[v := false];
  }

  lemma Appended(run: seq<Heap>, act: Action)
    requires IsRun(run) && Enabled(run[|run| - 1], act)
    ensures IsRun(run + [Apply(run[|run| - 1], act)])
  {
    var longer := run + [Apply(run[|run| - 1], act)];
    forall i | 0 <= i < |longer| - 1 ensures StepAt(longer, i) {
      if i < |run| - 1 { assert StepAt(run, i) && longer[i] == run[i] && longer[i + 1] == run[i + 1]; }
    }
  }

  predicate KeepsValues(h: Heap, h': Heap) {
    |h'| == |h| && forall v :: 0 <= v < |h| && !h[v].indirect ==> SameValue(h'[v], h[v])
  }

  lemma KeepsBoth(h1: Heap, h2: Heap, h3: Heap)
    requires KeepsLinks(h1, h2) && KeepsValues(h1, h2) && KeepsLinks(h2, h3) && KeepsValues(h2, h3)
    ensures KeepsLinks(h1, h3) && KeepsValues(h1, h3)
  {
  }

  /** One callback more, if one can fire. */
  lemma OneFires(run: seq<Heap>) returns (more: bool, longer: seq<Heap>)
    requires IsRun(run)
    ensures !more ==> NothingToFire(run[|run| - 1])
    ensures more ==>
              && IsRun(longer) && run <= longer && |longer| == |run| + 1
              && KeepsLinks(run[|run| - 1], longer[|run|]) && KeepsValues(run[|run| - 1], longer[|run|])
              && Count(WaitingOnes(longer[|run|]), Holds) < Count(WaitingOnes(run[|run| - 1]), Holds)
  {
    var h := run[|run| - 1];
    more, longer := false, run;
    if v :| 0 <= v < |h| && Enabled(h, Fire(v)) {
      RunInv(run, |run| - 1);
      FireWaits(h, v);
      Appended(run, Fire(v));
      FireKeeps(h, v);
      more, longer := true, run + [RunFire(h, v)];
    }
  }

  /** Every run can be continued by its callbacks alone until none is left to fire; this leaves every concrete
      value as it is. */
  lemma {:induction false} CallbacksFire(run: seq<Heap>) returns (full: seq<Heap>)
    requires IsRun(run)
    ensures IsRun(full) && run <= full && NothingToFire(full[|full| - 1])
    ensures var h, e := run[|run| - 1], full[|full| - 1]; KeepsLinks(h, e) && KeepsValues(h, e)
    decreases Count(WaitingOnes(run[|run| - 1]), Holds)
  {
    var more, longer := OneFires(run);
    if more {
      full := CallbacksFire(longer);
      KeepsBoth(run[|run| - 1], longer[|run|], full[|full| - 1]);
    } else {
      full := run;
    }
  }

  lemma FireKeeps(h: Heap, v: nat)
    requires Inv(h) && Enabled(h, Fire(v))
    ensures KeepsLinks(h, RunFire(h, v)) && KeepsValues(h, RunFire(h, v))
  {
    forall u | 0 <= u < |h| && !h[u].indirect ensures SameValue(RunFire(h, v)[u], h[u]) { FireKeepsOne(h, v, u); }
    var t, h1 := h[v].wanted.v, h[v := h[v].(waiting := false)];
    forall u | 0 <= u < |h| ensures RunFire(h, v)[u].wanted == h[u].wanted {
      DropKeeps(Land(h1, v, t), v, u);
      LandWants(h1, v, t, u);
    }
  }

  lemma LandWants(h: Heap, v: nat, t: nat, u: nat)
    requires v < |h| && t < |h| && Behind(h, t) < |h| && u < |h|
    ensures Land(h, v, t)[u].wanted == h[u].wanted
  {
    var c := Behind(h, t);
    var h1 := h[v := h[v].(target := To(c), typeId := h[c].typeId, state := h[t].state)];
    if h[t].indirect { DropKeeps(h1[c := h1[c].(refs := h1[c].refs + 1)], t, u); }
  }

  /** So whatever a run has done, its callbacks can finish their work, and then every value whose chain ends in
      an available concrete one reads that value's payload, with its state and type. */
  lemma ChainsArrive(run: seq<Heap>) returns (full: seq<Heap>)
    requires IsRun(run)
    ensures IsRun(full) && run <= full && |full[|full| - 1]| == |run[|run| - 1]|
    ensures var h, e := run[|run| - 1], full[|full| - 1];
            forall v: nat, c: nat, k: nat ::
              v < |h| && c < |h| && !h[c].indirect && !h[c].state.Unavailable? && Follows(h, v, c, k) ==>
                Behind(e, v) < |e| && Payload(e, v) == h[c].payload && e[v].state == h[c].state && e[v].typeId == h[c].typeId
  {
    full := CallbacksFire(run);
    var h, e := run[|run| - 1], full[|full| - 1];
    RunInv(full, |full| - 1);
    RunInv(run, |run| - 1);
    forall v: nat, c: nat, k: nat |
      v < |h| && c < |h| && !h[c].indirect && !h[c].state.Unavailable? && Follows(h, v, c, k)
      ensures Behind(e, v) < |e| && Payload(e, v) == h[c].payload && e[v].state == h[c].state && e[v].typeId == h[c].typeId
    {
      FollowsKept(h, e, v, c, k);
      assert SameValue(e[c], h[c]);
      ChainsResolve(e, v, c, k);
      if e[v].indirect {
        ChainsCollapse(full, |full| - 1, v, c, k);
      } else {
        assert At(e, v);
        if k > 0 { assert e[v].wanted.To?; }
      }
    }
  }
}
