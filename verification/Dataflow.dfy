/**
 Dataflow graphs: nodes with input and output registers, who uses a register, and the meaning of
 a graph as a sequential evaluation in topological order.
 */
module Dataflow {

  datatype Node<N> = Node(inputs: seq<N>, outputs: seq<N>)

  /** Node k takes n as an input. */
  predicate Takes<N(==)>(nodes: seq<Node<N>>, k: nat, n: N) { k < |nodes| && n in nodes[k].inputs }

  predicate Increasing(u: seq<nat>) { forall i, j :: 0 <= i < j < |u| ==> u[i] < u[j] }

  /** The nodes from lo on that take n as an input. */
  function UsersFrom<N(==)>(nodes: seq<Node<N>>, n: N, lo: nat): (u: seq<nat>)
    requires lo <= |nodes|
    ensures forall k :: k in u <==> lo <= k && Takes(nodes, k, n)
    ensures forall i :: 0 <= i < |u| ==> lo <= u[i] < |nodes|
    decreases |nodes| - lo
  {
    if lo == |nodes| then []
    else if Takes(nodes, lo, n) then [lo] + UsersFrom(nodes, n, lo + 1)
    else UsersFrom(nodes, n, lo + 1)
  }

  function Users<N(==)>(nodes: seq<Node<N>>, n: N): (u: seq<nat>)
    ensures forall k :: k in u <==> Takes(nodes, k, n)
    ensures forall i :: 0 <= i < |u| ==> u[i] < |nodes|
  {
    UsersFrom(nodes, n, 0)
  }

  /** The users come in increasing order, each once. */
  lemma {:induction false} UsersFromIncrease<N>(nodes: seq<Node<N>>, n: N, lo: nat)
    requires lo <= |nodes|
    ensures Increasing(UsersFrom(nodes, n, lo))
    decreases |nodes| - lo
  {
    if lo < |nodes| {
      UsersFromIncrease(nodes, n, lo + 1);
    }
  }

  lemma UsersIncrease<N>(nodes: seq<Node<N>>, n: N)
    ensures Increasing(Users(nodes, n))
  {
    UsersFromIncrease(nodes, n, 0);
  }

  /** An available value: a payload or an error that flows on. */
  datatype Val = Ok(payload: int) | Err(error: int)

  /** A kernel of the graph: results of node k on argument values. */
  type Kernels = (nat, seq<Val>) -> seq<Val>

  /** A kernel function, and the kernels of a list of nodes by position. */
  type Function = seq<Val> -> seq<Val>

  function KernelsOf(funcs: seq<Function>): Kernels {
    (k: nat, vals: seq<Val>) => if k < |funcs| then funcs[k](vals) else []
  }

  predicate AllOk(vals: seq<Val>) { forall i :: 0 <= i < |vals| ==> vals[i].Ok? }

  /** Argument i is in error and none after it is. */
  predicate IsLastError(vals: seq<Val>, i: nat) {
    i < |vals| && vals[i].Err? && forall j :: i < j < |vals| ==> vals[j].Ok?
  }

  /** The error the executor propagates: that of the last argument in error. */
  function LastError(vals: seq<Val>): (e: seq<Val>)
    ensures |e| <= 1 && (e == [] <==> AllOk(vals))
    ensures e != [] ==> exists i: nat :: IsLastError(vals, i) && e[0] == vals[i]
  {
    if |vals| == 0 then []
    else if vals[|vals| - 1].Err? then
      assert IsLastError(vals, |vals| - 1);
      [vals[|vals| - 1]]
    else
      var rest := vals[..|vals| - 1];
      assert forall i: nat :: IsLastError(rest, i) ==> IsLastError(vals, i);
      LastError(rest)
  }

  function ValuesOf<N>(v: N -> Val, names: seq<N>): (vals: seq<Val>)
    ensures |vals| == |names| && forall i :: 0 <= i < |names| ==> vals[i] == v(names[i])
  {
    seq(|names|, i requires 0 <= i < |names| => v(names[i]))
  }

  /** What a graph means at node k, for an assignment v of values to names: the outputs of the node
      without inputs are the arguments of the graph; any other node yields what its kernel makes of its
      inputs in their order or, when some are in error, the last of these errors on every output. */
  ghost predicate NodeEquation<N>(nd: Node<N>, fn: Kernels, k: nat, args: seq<Val>, v: N -> Val) {
    if nd.inputs == [] then ValuesOf(v, nd.outputs) == args
    else
      && (AllOk(ValuesOf(v, nd.inputs)) ==> ValuesOf(v, nd.outputs) == fn(k, ValuesOf(v, nd.inputs)))
      && (forall i: nat :: IsLastError(ValuesOf(v, nd.inputs), i) ==>
            forall n :: n in nd.outputs ==> v(n) == v(nd.inputs[i]))
  }

  /** The equation of a node determines its outputs from its inputs. */
  lemma EquationDetermines<N>(nd: Node<N>, fn: Kernels, k: nat, args: seq<Val>, v: N -> Val, w: N -> Val)
    requires NodeEquation(nd, fn, k, args, v) && NodeEquation(nd, fn, k, args, w)
    requires forall n :: n in nd.inputs ==> v(n) == w(n)
    ensures forall n :: n in nd.outputs ==> v(n) == w(n)
  {
    var vals, outs := ValuesOf(v, nd.inputs), ValuesOf(v, nd.outputs);
    assert vals == ValuesOf(w, nd.inputs);
    if nd.inputs == [] || AllOk(vals) {
      assert outs == ValuesOf(w, nd.outputs);
      forall n | n in nd.outputs ensures v(n) == w(n) {
        var j :| 0 <= j < |nd.outputs| && nd.outputs[j] == n;
        assert outs[j] == v(n) && ValuesOf(w, nd.outputs)[j] == w(n);
      }
    } else {
      assert LastError(vals) != [];
      var i: nat :| IsLastError(vals, i);
      assert IsLastError(ValuesOf(w, nd.inputs), i);
    }
  }

  /** What processing node k yields: an error argument becomes every result, without a call. */
  function NodeResults(fn: Kernels, k: nat, vals: seq<Val>, n: nat): seq<Val> {
    if LastError(vals) != [] then seq(n, _ => LastError(vals)[0]) else fn(k, vals)
  }

  /** A graph over numbered registers.  `start` is the node whose outputs are the arguments;
      `producer` and `rank` witness that every register has one producer and no cycle exists. */
  datatype Graph = Graph(nodes: seq<Node<nat>>, regs: nat, start: nat, producer: seq<nat>, rank: seq<nat>)

  predicate NodeOk(g: Graph, k: nat)
    requires k < |g.nodes| == |g.rank| && |g.producer| == g.regs
  {
    var nd := g.nodes[k];
    && (nd.inputs == [] <==> k == g.start)
    && nd.outputs != []
    && (forall i :: 0 <= i < |nd.inputs| ==> InputOk(g, k, nd.inputs[i]))
    && (forall i, j :: 0 <= i < j < |nd.inputs| ==> nd.inputs[i] != nd.inputs[j])
    && (forall j :: 0 <= j < |nd.outputs| ==> nd.outputs[j] < g.regs && g.producer[nd.outputs[j]] == k)
    && (forall i, j :: 0 <= i < j < |nd.outputs| ==> nd.outputs[i] != nd.outputs[j])
  }

  predicate InputOk(g: Graph, k: nat, r: nat)
    requires k < |g.nodes| == |g.rank| && |g.producer| == g.regs
  {
    r < g.regs && g.producer[r] < |g.nodes| && g.rank[g.producer[r]] < g.rank[k]
  }

  predicate RegOk(g: Graph, r: nat)
    requires r < |g.producer|
  {
    g.producer[r] < |g.nodes| && r in g.nodes[g.producer[r]].outputs
  }

  predicate WellFormed(g: Graph) {
    && g.start < |g.nodes| == |g.rank| && |g.producer| == g.regs
    && (forall k :: 0 <= k < |g.nodes| ==> NodeOk(g, k))
    && (forall r :: 0 <= r < g.regs ==> RegOk(g, r))
  }

  /** Kernels fill every result, and there is one argument per output of the start node. */
  ghost predicate Compatible(g: Graph, fn: Kernels, args: seq<Val>)
    requires WellFormed(g)
  {
    && |args| == |g.nodes[g.start].outputs|
    && forall k, vals :: 0 <= k < |g.nodes| ==> |fn(k, vals)| == |g.nodes[k].outputs|
  }

  function IndexOf(s: seq<nat>, r: nat): (i: nat)
    requires r in s
    ensures i < |s| && s[i] == r
  {
    if s[0] == r then 0 else 1 + IndexOf(s[1..], r)
  }

  /** The value of register r in the sequential evaluation. */
  ghost function EvalReg(g: Graph, fn: Kernels, args: seq<Val>, r: nat): Val
    requires WellFormed(g) && Compatible(g, fn, args) && r < g.regs
    decreases assert RegOk(g, r); g.rank[g.producer[r]], 2
  {
    assert RegOk(g, r);
    var k := g.producer[r];
    var j := IndexOf(g.nodes[k].outputs, r);
    EvalNode(g, fn, args, k)[j]
  }

  /** The results of node k in the sequential evaluation. */
  ghost function EvalNode(g: Graph, fn: Kernels, args: seq<Val>, k: nat): (res: seq<Val>)
    requires WellFormed(g) && Compatible(g, fn, args) && k < |g.nodes|
    ensures |res| == |g.nodes[k].outputs|
    decreases g.rank[k], 1
  {
    if k == g.start then args
    else NodeResults(fn, k, EvalInputs(g, fn, args, k, |g.nodes[k].inputs|), |g.nodes[k].outputs|)
  }

  /** The values of the first n inputs of node k. */
  ghost function EvalInputs(g: Graph, fn: Kernels, args: seq<Val>, k: nat, n: nat): (vals: seq<Val>)
    requires WellFormed(g) && Compatible(g, fn, args) && k < |g.nodes| && n <= |g.nodes[k].inputs|
    ensures |vals| == n
    ensures forall i :: 0 <= i < n ==> InputOk(g, k, g.nodes[k].inputs[i]) && vals[i] == EvalReg(g, fn, args, g.nodes[k].inputs[i])
    decreases g.rank[k], 0, n
  {
    if n == 0 then []
    else
      assert NodeOk(g, k);
      assert InputOk(g, k, g.nodes[k].inputs[n - 1]);
      EvalInputs(g, fn, args, k, n - 1) + [EvalReg(g, fn, args, g.nodes[k].inputs[n - 1])]
  }

  lemma OutputValue(g: Graph, fn: Kernels, args: seq<Val>, k: nat, j: nat)
    requires WellFormed(g) && Compatible(g, fn, args) && k < |g.nodes| && j < |g.nodes[k].outputs|
    ensures g.nodes[k].outputs[j] < g.regs
    ensures EvalReg(g, fn, args, g.nodes[k].outputs[j]) == EvalNode(g, fn, args, k)[j]
  {
    var r := g.nodes[k].outputs[j];
    assert NodeOk(g, k);
    assert RegOk(g, r);
    var i := IndexOf(g.nodes[k].outputs, r);
  }

  /** The sequential evaluation as an assignment of values to registers. */
  ghost function EvalAll(g: Graph, fn: Kernels, args: seq<Val>): nat -> Val
    requires WellFormed(g) && Compatible(g, fn, args)
  {
    (r: nat) => if r < g.regs then EvalReg(g, fn, args, r) else Ok(0)
  }

  /** It satisfies the equation of every node. */
  lemma EvaluationIsSolution(g: Graph, fn: Kernels, args: seq<Val>, k: nat)
    requires WellFormed(g) && Compatible(g, fn, args) && k < |g.nodes|
    ensures NodeEquation(g.nodes[k], fn, k, args, EvalAll(g, fn, args))
  {
    var nd, v, res := g.nodes[k], EvalAll(g, fn, args), EvalNode(g, fn, args, k);
    assert NodeOk(g, k);
    forall j | 0 <= j < |nd.outputs| ensures v(nd.outputs[j]) == res[j] {
      OutputValue(g, fn, args, k, j);
    }
    assert ValuesOf(v, nd.outputs) == res;
    if k != g.start {
      var vals := EvalInputs(g, fn, args, k, |nd.inputs|);
      assert ValuesOf(v, nd.inputs) == vals;
      forall i: nat, n | IsLastError(vals, i) && n in nd.outputs ensures v(n) == v(nd.inputs[i]) {
        var last: nat :| IsLastError(vals, last) && LastError(vals)[0] == vals[last];
        assert i == last;
        var j :| 0 <= j < |nd.outputs| && nd.outputs[j] == n;
      }
    }
  }

  /** And it is the only assignment that does. */
  lemma {:induction false} SolutionIsEvaluation(g: Graph, fn: Kernels, args: seq<Val>, v: nat -> Val, r: nat)
    requires WellFormed(g) && Compatible(g, fn, args) && r < g.regs
    requires forall k :: 0 <= k < |g.nodes| ==> NodeEquation(g.nodes[k], fn, k, args, v)
    ensures v(r) == EvalReg(g, fn, args, r)
    decreases assert RegOk(g, r); g.rank[g.producer[r]]
  {
    assert RegOk(g, r);
    var k := g.producer[r];
    assert NodeOk(g, k);
    forall n | n in g.nodes[k].inputs ensures v(n) == EvalAll(g, fn, args)(n) {
      var i :| 0 <= i < |g.nodes[k].inputs| && g.nodes[k].inputs[i] == n;
      assert InputOk(g, k, g.nodes[k].inputs[i]);
      assert RegOk(g, n);
      SolutionIsEvaluation(g, fn, args, v, n);
    }
    EvaluationIsSolution(g, fn, args, k);
    EquationDetermines(g.nodes[k], fn, k, args, v, EvalAll(g, fn, args));
  }

  /** An error in a needed register reaches every result of the node, without calling its kernel. */
  lemma ErrorsFlow(g: Graph, fn: Kernels, args: seq<Val>, k: nat, i: nat)
    requires WellFormed(g) && Compatible(g, fn, args) && k < |g.nodes| && k != g.start && i < |g.nodes[k].inputs|
    requires InputOk(g, k, g.nodes[k].inputs[i]) && EvalReg(g, fn, args, g.nodes[k].inputs[i]).Err?
    ensures forall r :: r in g.nodes[k].outputs ==> r < g.regs && EvalReg(g, fn, args, r).Err?
  {
    var vals := EvalInputs(g, fn, args, k, |g.nodes[k].inputs|);
    assert vals[i].Err?;
    assert NodeOk(g, k);
    forall r | r in g.nodes[k].outputs ensures r < g.regs && EvalReg(g, fn, args, r).Err? {
      assert g.producer[r] == k;
    }
  }

  /** Register r2 is a result of a node that takes r as an input. */
  predicate Feeds(g: Graph, r: nat, r2: nat)
    requires WellFormed(g)
  {
    && r2 < g.regs && g.producer[r2] < |g.nodes|
    && r in g.nodes[g.producer[r2]].inputs && r2 in g.nodes[g.producer[r2]].outputs
  }

  /** Errors reach every register downstream. */
  lemma {:induction false} ErrorsReachDescendants(g: Graph, fn: Kernels, args: seq<Val>, path: seq<nat>)
    requires WellFormed(g) && Compatible(g, fn, args) && |path| > 0 && path[0] < g.regs
    requires forall i :: 0 <= i < |path| - 1 ==> Feeds(g, path[i], path[i + 1])
    requires EvalReg(g, fn, args, path[0]).Err?
    ensures path[|path| - 1] < g.regs && EvalReg(g, fn, args, path[|path| - 1]).Err?
    decreases |path|
  {
    if |path| > 1 {
      var n := |path| - 2;
      assert path[..|path| - 1][n] == path[n];
      ErrorsReachDescendants(g, fn, args, path[..|path| - 1]);
      assert Feeds(g, path[n], path[n + 1]);
      var k := g.producer[path[n + 1]];
      assert NodeOk(g, k);
      var i :| 0 <= i < |g.nodes[k].inputs| && g.nodes[k].inputs[i] == path[n];
      assert InputOk(g, k, g.nodes[k].inputs[i]);
      ErrorsFlow(g, fn, args, k, i);
    }
  }
}
