/**
 A requested output has the same value in the sub-graph as in the whole graph.

 The argument is about solutions: assignments of values to names that satisfy every node.  The
 sequential evaluation of a built graph is a solution, and two solutions, one of the whole graph
 and one of a sub-graph, agree on every name the sub-graph produces.
 */
module SubGraphValues {
  import opened Dataflow
  import opened GraphBuild
  import opened SubGraphs
  import opened Finite

  ghost predicate Solves<N(!new)>(nodes: seq<Node<N>>, fn: Kernels, args: seq<Val>, v: N -> Val) {
    forall k :: 0 <= k < |nodes| ==> NodeEquation(nodes[k], fn, k, args, v)
  }

  /** The kernels of the picked nodes, at their new positions. */
  function SelectedKernels(fn: Kernels, picked: seq<nat>): Kernels {
    (i: nat, vals: seq<Val>) => if i < |picked| then fn(picked[i], vals) else []
  }

  /** They are the functions the walk copied. */
  lemma SelectedKernelsAre(funcs: seq<Function>, picked: seq<nat>, i: nat, vals: seq<Val>)
    requires forall j :: 0 <= j < |picked| ==> picked[j] < |funcs|
    ensures SelectedKernels(KernelsOf(funcs), picked)(i, vals) == KernelsOf(Selected(funcs, picked))(i, vals)
  {
  }

  /** Two solutions agree on the outputs of every picked node. */
  lemma {:induction false} SolutionsAgree<N(!new)>(nodes: seq<Node<N>>, start: nat, rank: seq<nat>, fn: Kernels, args: seq<Val>,
                                             maker: map<N, nat>, picked: seq<nat>, names: seq<N>,
                                             v: N -> Val, w: N -> Val, i: nat)
    requires WellNamed(nodes, start, rank) && LastProducer(maker, nodes)
    requires forall j :: 0 <= j < |picked| ==> picked[j] < |nodes|
    requires Closed(nodes, maker, Elements(picked), names)
    requires Solves(nodes, fn, args, v) && Solves(Selected(nodes, picked), SelectedKernels(fn, picked), args, w)
    requires i < |picked|
    ensures forall n :: n in nodes[picked[i]].outputs ==> v(n) == w(n)
    decreases rank[picked[i]]
  {
    var k, sub := picked[i], Selected(nodes, picked);
    forall j | 0 <= j < |nodes[k].inputs| ensures v(nodes[k].inputs[j]) == w(nodes[k].inputs[j]) {
      var n := nodes[k].inputs[j];
      assert k in Elements(picked);
      var m := PickedMaker(nodes, start, rank, maker, picked, names, k, n);
      SolutionsAgree(nodes, start, rank, fn, args, maker, picked, names, v, w, m);
    }
    assert sub[i] == nodes[k];
    assert NodeEquation(nodes[k], fn, k, args, w);
    EquationDetermines(nodes[k], fn, k, args, v, w);
  }

  /** The producer of an input of a picked node is picked, and of lower rank. */
  lemma PickedMaker<N(!new)>(nodes: seq<Node<N>>, start: nat, rank: seq<nat>, maker: map<N, nat>, picked: seq<nat>,
                       names: seq<N>, k: nat, n: N) returns (m: nat)
    requires WellNamed(nodes, start, rank) && LastProducer(maker, nodes)
    requires forall j :: 0 <= j < |picked| ==> picked[j] < |nodes|
    requires Closed(nodes, maker, Elements(picked), names) && k in picked && Takes(nodes, k, n)
    ensures m < |picked| && Makes(nodes, picked[m], n) && rank[picked[m]] < rank[k]
  {
    assert k in Elements(picked) && n in nodes[k].inputs;
    assert maker[n] in picked && Makes(nodes, maker[n], n);
    m :| 0 <= m < |picked| && picked[m] == maker[n];
    assert NamedNodeOk(nodes, start, rank, k);
    var p: nat :| Makes(nodes, p, n) && rank[p] < rank[k];
  }

  // ------------------------------------------------------------ the sub-graph is well-formed

  /** Descending from a picked node by rank ends at the start node, which is picked. */
  lemma {:induction false} StartPicked<N(!new)>(nodes: seq<Node<N>>, start: nat, rank: seq<nat>, maker: map<N, nat>,
                                          picked: seq<nat>, names: seq<N>, i: nat) returns (j: nat)
    requires WellNamed(nodes, start, rank) && LastProducer(maker, nodes)
    requires forall j :: 0 <= j < |picked| ==> picked[j] < |nodes|
    requires Closed(nodes, maker, Elements(picked), names) && i < |picked|
    ensures j < |picked| && picked[j] == start
    decreases rank[picked[i]]
  {
    var k := picked[i];
    assert NamedNodeOk(nodes, start, rank, k);
    if k == start {
      j := i;
    } else {
      var m := PickedMaker(nodes, start, rank, maker, picked, names, k, nodes[k].inputs[0]);
      j := StartPicked(nodes, start, rank, maker, picked, names, m);
    }
  }

  /** The nodes that the walk of a non-empty request picks form a well-formed graph. */
  lemma SubWellNamed<N(!new)>(nodes: seq<Node<N>>, start: nat, rank: seq<nat>, maker: map<N, nat>,
                        picked: seq<nat>, names: seq<N>) returns (start': nat)
    requires WellNamed(nodes, start, rank) && LastProducer(maker, nodes) && names != [] && Different(picked)
    requires forall j :: 0 <= j < |picked| ==> picked[j] < |nodes|
    requires Closed(nodes, maker, Elements(picked), names)
    ensures WellNamed(Selected(nodes, picked), start', Selected(rank, picked))
    ensures start' < |picked| && picked[start'] == start
  {
    var sub, ranks := Selected(nodes, picked), Selected(rank, picked);
    assert names[0] in names && maker[names[0]] in picked;
    var i :| 0 <= i < |picked| && picked[i] == maker[names[0]];
    start' := StartPicked(nodes, start, rank, maker, picked, names, i);
    forall k | 0 <= k < |sub| ensures NamedNodeOk(sub, start', ranks, k) {
      assert NamedNodeOk(nodes, start, rank, picked[k]);
      forall n | n in sub[k].inputs ensures exists p: nat :: Makes(sub, p, n) && ranks[p] < ranks[k] {
        var m := PickedMaker(nodes, start, rank, maker, picked, names, picked[k], n);
        assert Makes(sub, m, n) && ranks[m] < ranks[k];
      }
    }
    forall p: nat, q: nat, n | Makes(sub, p, n) && Makes(sub, q, n) ensures p == q {
      assert Makes(nodes, picked[p], n) && Makes(nodes, picked[q], n);
    }
  }

  // ------------------------------------------------------------ the evaluation is a solution

  /** There is an argument per output of the start node, and kernels fill every result. */
  ghost predicate Fills<N(!new)>(nodes: seq<Node<N>>, start: nat, fn: Kernels, args: seq<Val>) {
    && start < |nodes| && |args| == |nodes[start].outputs|
    && forall k, vals :: 0 <= k < |nodes| ==> |fn(k, vals)| == |nodes[k].outputs|
  }

  lemma CanEvaluate<N(!new)>(nodes: seq<Node<N>>, ids: map<N, nat>, start: nat, rank: seq<nat>, fn: Kernels, args: seq<Val>)
    requires WellNamed(nodes, start, rank) && Numbers(ids, AllNames(nodes)) && Fills(nodes, start, fn, args)
    ensures WellFormed(ExecutorGraph(nodes, ids, start, rank)) && Compatible(ExecutorGraph(nodes, ids, start, rank), fn, args)
  {
    BuildsWellFormed(nodes, ids, start, rank);
  }

  /** The value of a name in the sequential evaluation of the built graph. */
  ghost function NameValue<N(!new)>(nodes: seq<Node<N>>, ids: map<N, nat>, start: nat, rank: seq<nat>,
                              fn: Kernels, args: seq<Val>): N -> Val
    requires WellNamed(nodes, start, rank) && Numbers(ids, AllNames(nodes)) && Fills(nodes, start, fn, args)
  {
    CanEvaluate(nodes, ids, start, rank, fn, args);
    var g := ExecutorGraph(nodes, ids, start, rank);
    n => if n in ids && ids[n] < g.regs then EvalReg(g, fn, args, ids[n]) else Ok(0)
  }

  lemma EvaluationSolves<N(!new)>(nodes: seq<Node<N>>, ids: map<N, nat>, start: nat, rank: seq<nat>, fn: Kernels, args: seq<Val>)
    requires WellNamed(nodes, start, rank) && Numbers(ids, AllNames(nodes)) && Fills(nodes, start, fn, args)
    ensures Solves(nodes, fn, args, NameValue(nodes, ids, start, rank, fn, args))
  {
    CanEvaluate(nodes, ids, start, rank, fn, args);
    var g := ExecutorGraph(nodes, ids, start, rank);
    var v := NameValue(nodes, ids, start, rank, fn, args);
    forall k | 0 <= k < |nodes| ensures NodeEquation(nodes[k], fn, k, args, v) {
      assert NamedNodeOk(nodes, start, rank, k);
      NodeNames(nodes, ids, k);
      var e, nd := EvalAll(g, fn, args), g.nodes[k];
      EvaluationIsSolution(g, fn, args, k);
      assert NodeOk(g, k);
      forall i | 0 <= i < |nodes[k].inputs| ensures v(nodes[k].inputs[i]) == e(nd.inputs[i]) {
        assert InputOk(g, k, nd.inputs[i]);
      }
      assert ValuesOf(v, nodes[k].inputs) == ValuesOf(e, nd.inputs);
      assert ValuesOf(v, nodes[k].outputs) == ValuesOf(e, nd.outputs);
      forall i: nat, n | IsLastError(ValuesOf(v, nodes[k].inputs), i) && n in nodes[k].outputs
        ensures v(n) == v(nodes[k].inputs[i])
      {
        var j :| 0 <= j < |nodes[k].outputs| && nodes[k].outputs[j] == n;
        assert nd.outputs[j] in nd.outputs;
      }
    }
  }

  lemma SubFills<N(!new)>(nodes: seq<Node<N>>, start: nat, fn: Kernels, args: seq<Val>, picked: seq<nat>, start': nat)
    requires Fills(nodes, start, fn, args) && forall j :: 0 <= j < |picked| ==> picked[j] < |nodes|
    requires start' < |picked| && picked[start'] == start
    ensures Fills(Selected(nodes, picked), start', SelectedKernels(fn, picked), args)
  {
  }

  /** The producer of a requested name is picked, and both graphs number the name. */
  lemma RequestedMaker<N(!new)>(nodes: seq<Node<N>>, ids: map<N, nat>, maker: map<N, nat>, picked: seq<nat>,
                          names: seq<N>, ids': map<N, nat>, n: N) returns (i: nat)
    requires Numbers(ids, AllNames(nodes)) && LastProducer(maker, nodes)
    requires forall j :: 0 <= j < |picked| ==> picked[j] < |nodes|
    requires Closed(nodes, maker, Elements(picked), names) && n in names
    requires Numbers(ids', AllNames(Selected(nodes, picked)))
    ensures i < |picked| && n in nodes[picked[i]].outputs && n in ids && n in ids'
  {
    assert maker[n] in picked && Makes(nodes, maker[n], n);
    i :| 0 <= i < |picked| && picked[i] == maker[n];
    NodeNames(nodes, ids, maker[n]);
    assert Makes(Selected(nodes, picked), i, n);
    NodeNames(Selected(nodes, picked), ids', i);
  }

  /** Each requested output evaluates to the same value in the sub-graph, built and numbered anew, as in
      the whole graph. */
  lemma SubGraphSameValues<N(!new)>(nodes: seq<Node<N>>, ids: map<N, nat>, start: nat, rank: seq<nat>, fn: Kernels, args: seq<Val>,
                              maker: map<N, nat>, picked: seq<nat>, names: seq<N>, ids': map<N, nat>, n: N)
    returns (start': nat)
    requires WellNamed(nodes, start, rank) && Numbers(ids, AllNames(nodes)) && LastProducer(maker, nodes)
    requires Fills(nodes, start, fn, args)
    requires Different(picked) && forall j :: 0 <= j < |picked| ==> picked[j] < |nodes|
    requires Closed(nodes, maker, Elements(picked), names) && n in names
    requires Numbers(ids', AllNames(Selected(nodes, picked)))
    ensures WellNamed(Selected(nodes, picked), start', Selected(rank, picked))
    ensures Fills(Selected(nodes, picked), start', SelectedKernels(fn, picked), args)
    ensures n in ids && n in ids'
    ensures NameValue(nodes, ids, start, rank, fn, args)(n) ==
            NameValue(Selected(nodes, picked), ids', start', Selected(rank, picked), SelectedKernels(fn, picked), args)(n)
  {
    var sub, ranks := Selected(nodes, picked), Selected(rank, picked);
    start' := SubWellNamed(nodes, start, rank, maker, picked, names);
    SubFills(nodes, start, fn, args, picked, start');
    EvaluationSolves(nodes, ids, start, rank, fn, args);
    EvaluationSolves(sub, ids', start', ranks, SelectedKernels(fn, picked), args);
    var i := RequestedMaker(nodes, ids, maker, picked, names, ids', n);
    SolutionsAgree(nodes, start, rank, fn, args, maker, picked, names,
                   NameValue(nodes, ids, start, rank, fn, args),
                   NameValue(sub, ids', start', ranks, SelectedKernels(fn, picked), args), i);
  }

  /** An argument is used in the sub-graph exactly if some picked node takes it; the others come back
      among the outputs of its execution. */
  lemma SubGraphUses<N(!new)>(nodes: seq<Node<N>>, picked: seq<nat>, ids': map<N, nat>, n: N)
    requires forall j :: 0 <= j < |picked| ==> picked[j] < |nodes|
    requires Numbers(ids', AllNames(Selected(nodes, picked))) && n in ids'
    ensures |Users(Numbered(Selected(nodes, picked), ids'), ids'[n])| > 0 <==> exists k: nat :: k in picked && Takes(nodes, k, n)
  {
    var sub := Selected(nodes, picked);
    NumberedUsers(sub, ids', n);
    var users := Users(sub, n);
    if users != [] {
      assert users[0] in users && Takes(sub, users[0], n);
      assert picked[users[0]] in picked && Takes(nodes, picked[users[0]], n);
    }
    if k: nat :| k in picked && Takes(nodes, k, n) {
      var i :| 0 <= i < |picked| && picked[i] == k;
      assert Takes(sub, i, n);
    }
  }
}
