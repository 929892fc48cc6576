/**
 AsyncGraph::SubGraph (async/runtime/graph.cpp): a breadth-first walk from the requested outputs
 that copies each node they depend on, once, into a new graph.
 */
module SubGraphs {
  import opened Dataflow
  import opened GraphBuild
  import opened Finite

  /** The elements at the picked positions. */
  function Selected<T>(s: seq<T>, picked: seq<nat>): (sub: seq<T>)
    requires forall i :: 0 <= i < |picked| ==> picked[i] < |s|
    ensures |sub| == |picked| && forall i :: 0 <= i < |sub| ==> sub[i] == s[picked[i]]
  {
    seq(|picked|, i requires 0 <= i < |picked| => s[picked[i]])
  }

  predicate MadeIn<N(==)>(maker: map<N, nat>, s: set<nat>, names: seq<N>) {
    forall n :: n in names ==> n in maker && maker[n] in s
  }

  /** s holds the producers of the names and, with a node, the producers of its inputs. */
  predicate Closed<N(==)>(nodes: seq<Node<N>>, maker: map<N, nat>, s: set<nat>, names: seq<N>) {
    && (forall k :: k in s ==> k < |nodes|)
    && MadeIn(maker, s, names)
    && (forall k :: k in s ==> k < |nodes| && MadeIn(maker, s, nodes[k].inputs))
  }

  /** Exactly the nodes the names transitively depend on: the least closed set. */
  ghost predicate LeastClosed<N(!new)>(nodes: seq<Node<N>>, maker: map<N, nat>, s: set<nat>, names: seq<N>) {
    Closed(nodes, maker, s, names) && forall t :: Closed(nodes, maker, t, names) ==> s <= t
  }

  /** Every name the walk can meet has a producer. */
  ghost predicate AllProduced<N(!new)>(nodes: seq<Node<N>>, names: seq<N>) {
    && (forall n :: n in names ==> n in AllOutputs(nodes))
    && (forall k, n :: Takes(nodes, k, n) ==> n in AllOutputs(nodes))
  }

  method NameNodeMap<N(==,!new)>(nodes: seq<Node<N>>) returns (maker: map<N, nat>)
    ensures LastProducer(maker, nodes)
  {
    maker := map[];
    for i := 0 to |nodes|
      invariant LastProducer(maker, nodes[..i])
    {
      assert nodes[..i + 1][..i] == nodes[..i];
      MapStart(maker, nodes, i);
      for j := 0 to |nodes[i].outputs|
        invariant LastProducer(maker, Outputs(nodes, i, j))
      {
        MapStep(maker, nodes, i, j);
        maker := maker[nodes[i].outputs[j] := i];
      }
      MapFull(maker, nodes, i);
    }
    assert nodes[..|nodes|] == nodes;
  }

  function Outputs<N>(nodes: seq<Node<N>>, i: nat, l: nat): seq<Node<N>>
    requires i < |nodes| && l <= |nodes[i].outputs|
  {
    nodes[..i] + [Node([], nodes[i].outputs[..l])]
  }

  lemma MapStart<N(!new)>(maker: map<N, nat>, nodes: seq<Node<N>>, i: nat)
    requires i < |nodes| && LastProducer(maker, nodes[..i])
    ensures LastProducer(maker, Outputs(nodes, i, 0))
  {
    var p := Outputs(nodes, i, 0);
    assert p[..i] == nodes[..i];
    forall n, k: nat ensures Makes(p, k, n) == Makes(nodes[..i], k, n) {}
  }

  lemma MapStep<N(!new)>(maker: map<N, nat>, nodes: seq<Node<N>>, i: nat, l: nat)
    requires i < |nodes| && l < |nodes[i].outputs| && LastProducer(maker, Outputs(nodes, i, l))
    ensures LastProducer(maker[nodes[i].outputs[l] := i], Outputs(nodes, i, l + 1))
  {
    var p, q, n := Outputs(nodes, i, l), Outputs(nodes, i, l + 1), nodes[i].outputs[l];
    assert p[..i] == nodes[..i] && q[..i] == nodes[..i];
    assert nodes[i].outputs[..l + 1] == nodes[i].outputs[..l] + [n];
    forall x, k: nat ensures Makes(q, k, x) == (Makes(p, k, x) || (x == n && k == i)) {}
  }

  lemma MapFull<N(!new)>(maker: map<N, nat>, nodes: seq<Node<N>>, i: nat)
    requires i < |nodes| && LastProducer(maker, Outputs(nodes, i, |nodes[i].outputs|))
    ensures LastProducer(maker, nodes[..i + 1])
  {
    var p, q := Outputs(nodes, i, |nodes[i].outputs|), nodes[..i + 1];
    assert p[..i] == nodes[..i] && q[..i] == nodes[..i];
    forall n, k: nat ensures Makes(p, k, n) == Makes(q, k, n) {}
  }

  /** What the walk keeps: every name asked for so far is queued or produced by a picked node, and
      every picked node and queued producer is needed. */
  ghost predicate Walking<N(!new)>(nodes: seq<Node<N>>, maker: map<N, nat>, picked: seq<nat>, queue: seq<N>, names: seq<N>) {
    && Different(picked)
    && (forall k :: k in picked ==> k < |nodes|)
    && (forall n :: n in queue ==> n in maker)
    && AskedFor(maker, picked, queue, names)
    && (forall k :: k in picked ==> k < |nodes| && AskedFor(maker, picked, queue, nodes[k].inputs))
    && (forall t :: Closed(nodes, maker, t, names) ==> Elements(picked) <= t && MadeIn(maker, t, queue))
  }

  predicate AskedFor<N(==)>(maker: map<N, nat>, picked: seq<nat>, queue: seq<N>, names: seq<N>) {
    forall n :: n in names ==> n in queue || (n in maker && maker[n] in picked)
  }

  lemma SkipName<N(!new)>(nodes: seq<Node<N>>, maker: map<N, nat>, picked: seq<nat>, queue: seq<N>, names: seq<N>)
    requires Walking(nodes, maker, picked, queue, names) && queue != [] && maker[queue[0]] in picked
    ensures Walking(nodes, maker, picked, queue[1..], names)
  {
    assert queue == [queue[0]] + queue[1..];
  }

  lemma PickNode<N(!new)>(nodes: seq<Node<N>>, maker: map<N, nat>, picked: seq<nat>, queue: seq<N>, names: seq<N>)
    requires Walking(nodes, maker, picked, queue, names) && queue != [] && maker[queue[0]] !in picked
    requires LastProducer(maker, nodes) && AllProduced(nodes, names)
    ensures var k := maker[queue[0]];
            k < |nodes| && Walking(nodes, maker, picked + [k], queue + nodes[k].inputs, names)
  {
    var k := maker[queue[0]];
    assert Makes(nodes, k, queue[0]);
    forall n | n in nodes[k].inputs ensures n in maker {
      assert Takes(nodes, k, n);
    }
    forall t | Closed(nodes, maker, t, names)
      ensures Elements(picked + [k]) <= t && MadeIn(maker, t, queue + nodes[k].inputs)
    {
      assert Elements(picked + [k]) == Elements(picked) + {k};
      assert queue[0] in queue;
    }
  }

  method SubGraph<N(==,!new)>(graph: AsyncGraph<N>, outputNames: seq<N>)
    returns (sub: AsyncGraph<N>, ghost maker: map<N, nat>, ghost picked: seq<nat>)
    requires graph.Valid() && AllProduced(graph.nodes, outputNames)
    ensures fresh(sub) && sub.Valid() && !sub.isConstructed
    ensures LastProducer(maker, graph.nodes)
    ensures Different(picked) && (forall i :: 0 <= i < |picked| ==> picked[i] < |graph.nodes|)
    ensures LeastClosed(graph.nodes, maker, Elements(picked), outputNames)
    ensures sub.nodes == Selected(graph.nodes, picked)
    ensures sub.funcs == Selected(graph.funcs, picked) && sub.funcNames == Selected(graph.funcNames, picked)
  {
    sub := new AsyncGraph<N>();
    var nodeOf := NameNodeMap(graph.nodes);
    maker := nodeOf;
    var travelled: set<nat> := {};
    picked := [];
    var queue := outputNames;
    while queue != []
      invariant fresh(sub) && sub.Valid() && !sub.isConstructed
      invariant travelled == Elements(picked)
      invariant Walking(graph.nodes, nodeOf, picked, queue, outputNames)
      invariant forall i :: 0 <= i < |picked| ==> picked[i] in picked
      invariant sub.nodes == Selected(graph.nodes, picked)
      invariant sub.funcs == Selected(graph.funcs, picked) && sub.funcNames == Selected(graph.funcNames, picked)
      decreases |graph.nodes| - |picked|, |queue|
    {
      FewDifferent(picked, |graph.nodes|);
      var name := queue[0];
      assert name in queue;
      var node := nodeOf[name];
      if node !in travelled {
        PickNode(graph.nodes, nodeOf, picked, queue, outputNames);
        travelled := travelled + {node};
        assert Elements(picked + [node]) == Elements(picked) + {node};
        sub.Emplace(graph.nodes[node].inputs, graph.nodes[node].outputs, graph.funcs[node], graph.funcNames[node]);
        picked := picked + [node];
        FewDifferent(picked, |graph.nodes|);
        queue := queue + graph.nodes[node].inputs;
      }
      SkipName(graph.nodes, nodeOf, picked, queue, outputNames);
      queue := queue[1..];
    }
    assert Closed(graph.nodes, nodeOf, Elements(picked), outputNames);
  }
}
