/**
 Task graphs (async/runtime/task_graph.cpp): nodes with edge lists that may repeat an edge, and the
 executor that runs every node once its dependency counter reaches zero.
 */
module TaskGraphs {
  import opened Counting
  import opened Finite

  // ------------------------------------------------------------ building

  class TaskNode {
    var dependencies: seq<TaskNode>   // mDependencies
    var successors: seq<TaskNode>     // mSuccessories

    constructor ()
      ensures dependencies == [] && successors == []
    {
      dependencies, successors := [], [];
    }

    /** This node runs after node. */
    method AddDependency(node: TaskNode)
      modifies this, node
      ensures node.successors == old(node.successors) + [this]
      ensures dependencies == old(dependencies) + [node]
      ensures node != this ==> node.dependencies == old(node.dependencies) && successors == old(successors)
    {
      node.successors := node.successors + [this];
      dependencies := dependencies + [node];
    }

    /** Node runs after this one. */
    method AddSuccessor(node: TaskNode)
      modifies this, node
      ensures successors == old(successors) + [node]
      ensures node.dependencies == old(node.dependencies) + [this]
      ensures node != this ==> node.successors == old(node.successors) && dependencies == old(dependencies)
    {
      successors := successors + [node];
      node.dependencies := node.dependencies + [this];
    }
  }

  /** Every edge is in both lists, as often. */
  ghost predicate Matched(a: TaskNode, b: TaskNode)
    reads a, b
  {
    multiset(a.successors)[b] == multiset(b.dependencies)[a]
  }

  ghost predicate AllMatched(nodes: set<TaskNode>)
    reads nodes
  {
    forall a, b :: a in nodes && b in nodes ==> Matched(a, b)
  }

  /** Adding an edge in either way keeps the two lists in step, duplicates included. */
  method AddEdge(before: TaskNode, after: TaskNode, asDependency: bool, ghost nodes: set<TaskNode>)
    requires before in nodes && after in nodes && AllMatched(nodes)
    modifies before, after
    ensures AllMatched(nodes)
    ensures before.successors == old(before.successors) + [after]
    ensures after.dependencies == old(after.dependencies) + [before]
  {
    if asDependency { after.AddDependency(before); } else { before.AddSuccessor(after); }
    forall a, b | a in nodes && b in nodes ensures Matched(a, b) {
      assert old(Matched(a, b));
    }
  }

  /** TaskGraph::BuildGraph: the index and the number of dependencies of every node. */
  method BuildGraph(nodes: seq<TaskNode>) returns (index: map<TaskNode, nat>, count: map<TaskNode, nat>)
    requires Different(nodes)
    ensures Indexes(index, nodes)
    ensures forall k :: 0 <= k < |nodes| ==> nodes[k] in count && count[nodes[k]] == |nodes[k].dependencies|
  {
    index, count := map[], map[];
    for i := 0 to |nodes|
      invariant forall k :: 0 <= k < i ==> nodes[k] in index && index[nodes[k]] == k
      invariant forall n :: n in index ==> index[n] < i && nodes[index[n]] == n
      invariant forall k :: 0 <= k < i ==> nodes[k] in count && count[nodes[k]] == |nodes[k].dependencies|
    {
      index := index[nodes[i] := i];
      count := count[nodes[i] := |nodes[i].dependencies|];
    }
  }

  ghost predicate Indexes(index: map<TaskNode, nat>, nodes: seq<TaskNode>) {
    && (forall k :: 0 <= k < |nodes| ==> nodes[k] in index && index[nodes[k]] == k)
    && (forall n :: n in index ==> index[n] < |nodes| && nodes[index[n]] == n)
  }

  /** An edge list by index. */
  function Renumbered(s: seq<TaskNode>, index: map<TaskNode, nat>): (r: seq<nat>)
    ensures |r| == |s|
  {
    if s == [] then [] else Renumbered(s[..|s| - 1], index) + [if s[|s| - 1] in index then index[s[|s| - 1]] else 0]
  }

  lemma {:induction false} RenumberedTimes(s: seq<TaskNode>, index: map<TaskNode, nat>, nodes: seq<TaskNode>, k: nat)
    requires Indexes(index, nodes) && k < |nodes| && forall n :: n in s ==> n in index
    ensures Times(Renumbered(s, index), k) == multiset(s)[nodes[k]]
  {
    if s != [] {
      var m := |s| - 1;
      assert s == s[..m] + [s[m]] && s[m] in s;
      RenumberedTimes(s[..m], index, nodes, k);
    }
  }

  /** The indexed edge lists of matched nodes agree: the graphs below are those built this way. */
  lemma EdgesMatch(nodes: seq<TaskNode>, index: map<TaskNode, nat>, j: nat, k: nat)
    requires Indexes(index, nodes) && j < |nodes| && k < |nodes| && Matched(nodes[j], nodes[k])
    requires forall n :: n in nodes[j].successors || n in nodes[k].dependencies ==> n in index
    ensures Times(Renumbered(nodes[j].successors, index), k) == Times(Renumbered(nodes[k].dependencies, index), j)
    ensures |Renumbered(nodes[k].dependencies, index)| == |nodes[k].dependencies|
  {
    RenumberedTimes(nodes[j].successors, index, nodes, k);
    RenumberedTimes(nodes[k].dependencies, index, nodes, j);
  }

  // ------------------------------------------------------------ the executor

  /** Nodes by index: succ[j] and deps[j] are the edge lists of node j.  rank witnesses acyclicity. */
  datatype Graph = Graph(succ: seq<seq<nat>>, deps: seq<seq<nat>>, rank: seq<nat>)

  predicate EdgeFits(g: Graph, j: nat, k: nat)
    requires j < |g.succ| == |g.deps| == |g.rank| && k < |g.succ|
  {
    Times(g.succ[j], k) == Times(g.deps[k], j) && (Times(g.succ[j], k) > 0 ==> g.rank[j] < g.rank[k])
  }

  predicate InRange(s: seq<nat>, n: nat) { forall i :: 0 <= i < |s| ==> s[i] < n }

  predicate WellFormed(g: Graph) {
    && |g.succ| == |g.deps| == |g.rank|
    && (forall j :: 0 <= j < |g.succ| ==> InRange(g.succ[j], |g.succ|) && InRange(g.deps[j], |g.succ|))
    && (forall j, k :: 0 <= j < |g.succ| && 0 <= k < |g.succ| ==> EdgeFits(g, j, k))
  }

  datatype Node =
    | Waiting
    | Ready
    | Running
    | Returned                            // its function returned
    | Releasing(count: int, i: nat)       // mTotalTaskCount was count; the first i successors are told
    | Done

  /** counters: mNodeCountInfo; total: mTotalTaskCount; chain: how often the finish chain was set;
      runs[k]: how often the function of k was called; last: the node that took total to zero, or -1. */
  datatype State = State(nodes: seq<Node>, counters: seq<int>, total: int, chain: nat, runs: seq<nat>, last: int)

  datatype Action = Start(k: nat) | Step(k: nat)

  predicate Sized(g: Graph, s: State) { |s.nodes| == |s.counters| == |s.runs| == |g.succ| }

  predicate Enabled(g: Graph, s: State, act: Action) {
    && Sized(g, s)
    && match act
       case Start(k) => k < |s.nodes| && s.nodes[k].Ready?
       case Step(k) => k < |s.nodes| && (s.nodes[k].Running? || s.nodes[k].Returned? || s.nodes[k].Releasing?)
                       && (s.nodes[k].Releasing? && s.nodes[k].i < |g.succ[k]| ==> g.succ[k][s.nodes[k].i] < |s.nodes|)
  }

  function RunRelease(g: Graph, s: State, k: nat): State
    requires Enabled(g, s, Step(k)) && s.nodes[k].Releasing? && s.nodes[k].i < |g.succ[k]|
  {
    var u := g.succ[k][s.nodes[k].i];
    var nodes := s.nodes[k := Releasing(s.nodes[k].count, s.nodes[k].i + 1)];
    s.(counters := s.counters[u := s.counters[u] - 1],
       nodes := if s.counters[u] == 1 then nodes[u := Ready] else nodes)
  }

  /** ProcessReadyNodeIndex. */
  function RunStep(g: Graph, s: State, k: nat): State
    requires Enabled(g, s, Step(k))
  {
    match s.nodes[k]
    case Running => s.(nodes := s.nodes[k := Returned])
    case Returned =>
      s.(nodes := s.nodes[k := Releasing(s.total, 0)], total := s.total - 1, last := if s.total == 1 then k else s.last)
    case Releasing(count, i) =>
      if i < |g.succ[k]| then RunRelease(g, s, k)
      else s.(nodes := s.nodes[k := Done], chain := if count == 1 then s.chain + 1 else s.chain)
    case _ => s
  }

  function Apply(g: Graph, s: State, act: Action): State
    requires Enabled(g, s, act)
  {
    match act
    case Start(k) => s.(nodes := s.nodes[k := Running], runs := s.runs[k := s.runs[k] + 1])
    case Step(k) => RunStep(g, s, k)
  }

  predicate InitAt(g: Graph, s: State, k: nat)
    requires WellFormed(g) && Sized(g, s) && k < |g.succ|
  {
    && s.counters[k] == |g.deps[k]| && s.runs[k] == 0
    && s.nodes[k] == if |g.deps[k]| == 0 then Ready else Waiting
  }

  predicate Init(g: Graph, s: State)
    requires WellFormed(g)
  {
    && Sized(g, s) && |g.succ| > 0 && s.total == |g.succ| && s.chain == 0 && s.last == -1
    && forall k :: 0 <= k < |g.succ| ==> InitAt(g, s, k)
  }

  ghost predicate Next(g: Graph, s: State, s': State) { exists act :: Enabled(g, s, act) && s' == Apply(g, s, act) }

  // ------------------------------------------------------------ edges not yet released

  /** How many of its n successors a node has told. */
  function Told(x: Node, n: nat): nat {
    if x.Done? then n else if x.Releasing? then (if x.i <= n then x.i else n) else 0
  }

  /** Edges from the first m nodes into k that are not yet released. */
  function Owed(succ: seq<seq<nat>>, nodes: seq<Node>, k: nat, m: nat): nat
    requires m <= |succ| == |nodes|
  {
    if m == 0 then 0
    else Owed(succ, nodes, k, m - 1) + Times(succ[m - 1][Told(nodes[m - 1], |succ[m - 1]|)..], k)
  }

  lemma {:induction false} OwedUpdate(succ: seq<seq<nat>>, nodes: seq<Node>, j: nat, x: Node, k: nat, m: nat)
    requires m <= |succ| == |nodes| && j < |succ|
    ensures Owed(succ, nodes[j := x], k, m) ==
            if j < m then Owed(succ, nodes, k, m) - Times(succ[j][Told(nodes[j], |succ[j]|)..], k) + Times(succ[j][Told(x, |succ[j]|)..], k)
            else Owed(succ, nodes, k, m)
  {
    if m > 0 { OwedUpdate(succ, nodes, j, x, k, m - 1); }
  }

  /** Releasing one more edge lowers what is owed to its end by one, and to nobody else. */
  lemma TimesTail(s: seq<nat>, i: nat, k: nat)
    requires i < |s|
    ensures Times(s[i..], k) == Times(s[i + 1..], k) + (if s[i] == k then 1 else 0)
  {
    assert s[i..] == [s[i]] + s[i + 1..];
  }

  lemma {:induction false} OwedPositive(succ: seq<seq<nat>>, nodes: seq<Node>, j: nat, k: nat, m: nat)
    requires j < m <= |succ| == |nodes|
    ensures Owed(succ, nodes, k, m) >= Times(succ[j][Told(nodes[j], |succ[j]|)..], k)
  {
    if j < m - 1 { OwedPositive(succ, nodes, j, k, m - 1); }
  }

  /** Occurrences of the indices below m. */
  function TimesBelow(s: seq<nat>, m: nat): nat { if m == 0 then 0 else TimesBelow(s, m - 1) + Times(s, m - 1) }

  lemma {:induction false} TimesBelowSnoc(s: seq<nat>, x: nat, m: nat)
    ensures TimesBelow(s + [x], m) == TimesBelow(s, m) + (if x < m then 1 else 0)
  {
    if m > 0 { TimesBelowSnoc(s, x, m - 1); }
  }

  lemma {:induction false} TimesBelowNone(m: nat)
    ensures TimesBelow([], m) == 0
  {
    if m > 0 { TimesBelowNone(m - 1); }
  }

  lemma {:induction false} TimesBelowAll(s: seq<nat>, m: nat)
    requires InRange(s, m)
    ensures TimesBelow(s, m) == |s|
  {
    if s == [] {
      TimesBelowNone(m);
    } else {
      var n := |s| - 1;
      assert s == s[..n] + [s[n]];
      TimesBelowAll(s[..n], m);
      TimesBelowSnoc(s[..n], s[n], m);
    }
  }

  /** Before anything ran, what is owed to k is the number of its dependencies. */
  lemma {:induction false} OwedAtStart(g: Graph, nodes: seq<Node>, k: nat, m: nat)
    requires WellFormed(g) && |nodes| == |g.succ| && k < |g.succ| && m <= |g.succ|
    requires forall j :: 0 <= j < m ==> nodes[j].Waiting? || nodes[j].Ready?
    ensures Owed(g.succ, nodes, k, m) == TimesBelow(g.deps[k], m)
  {
    if m > 0 {
      OwedAtStart(g, nodes, k, m - 1);
      assert EdgeFits(g, m - 1, k);
      assert g.succ[m - 1][0..] == g.succ[m - 1];
    }
  }

  // ------------------------------------------------------------ the invariant

  function Unfinished(): Node -> bool { (x: Node) => !x.Releasing? && !x.Done? }

  predicate NodeFits(x: Node, counter: int, runs: nat, n: nat, isLast: bool) {
    && (x.Waiting? <==> counter > 0)
    && runs == (if x.Waiting? || x.Ready? then 0 else 1)
    && (x.Releasing? ==> x.i <= n && (x.count == 1 <==> isLast))
    && (isLast ==> x.Releasing? || x.Done?)
  }

  predicate NodeAt(g: Graph, s: State, k: nat)
    requires Sized(g, s) && k < |g.succ|
  {
    NodeFits(s.nodes[k], s.counters[k], s.runs[k], |g.succ[k]|, s.last == k)
  }

  predicate CounterAt(g: Graph, s: State, k: nat)
    requires Sized(g, s) && k < |g.succ|
  {
    s.counters[k] == Owed(g.succ, s.nodes, k, |g.succ|)
  }

  predicate Inv(g: Graph, s: State) {
    && Sized(g, s) && |g.succ| > 0
    && (forall k :: 0 <= k < |g.succ| ==> NodeAt(g, s, k))
    && (forall k :: 0 <= k < |g.succ| ==> CounterAt(g, s, k))
    && s.total == Count(s.nodes, Unfinished())
    && -1 <= s.last < |g.succ| && (s.last >= 0 <==> s.total == 0)
    && s.chain == (if s.last >= 0 && s.nodes[s.last].Done? then 1 else 0)
  }

  lemma InitInv(g: Graph, s: State)
    requires WellFormed(g) && Init(g, s)
    ensures Inv(g, s)
  {
    CountAllUnfinished(g, s);
    forall k | 0 <= k < |g.succ| ensures NodeAt(g, s, k) && CounterAt(g, s, k) {
      assert InitAt(g, s, k);
      forall j | 0 <= j < |g.succ| ensures s.nodes[j].Waiting? || s.nodes[j].Ready? { assert InitAt(g, s, j); }
      OwedAtStart(g, s.nodes, k, |g.succ|);
      TimesBelowAll(g.deps[k], |g.succ|);
    }
  }

  lemma CountAllUnfinished(g: Graph, s: State)
    requires WellFormed(g) && Init(g, s)
    ensures Count(s.nodes, Unfinished()) == |s.nodes|
  {
    forall j | 0 <= j < |s.nodes| ensures Unfinished()(s.nodes[j]) { assert InitAt(g, s, j); }
    CountAll(s.nodes, Unfinished());
  }

  /** Steps of k that release no edge. */
  lemma QuietInv(g: Graph, s: State, s': State, k: nat, x: Node)
    requires Inv(g, s) && k < |g.succ| && Sized(g, s')
    requires s'.nodes == s.nodes[k := x] && s'.counters == s.counters
    requires Told(x, |g.succ[k]|) == Told(s.nodes[k], |g.succ[k]|)
    requires s'.runs == s.runs[k := s'.runs[k]] && (s'.last == s.last || (s'.last == k && s.last == -1))
    requires NodeFits(x, s.counters[k], s'.runs[k], |g.succ[k]|, s'.last == k)
    requires s'.total == s.total - (if Unfinished()(s.nodes[k]) && !Unfinished()(x) then 1 else 0)
    requires Unfinished()(x) ==> Unfinished()(s.nodes[k])
    requires -1 <= s'.last < |g.succ| && (s'.last >= 0 <==> s'.total == 0)
    requires s'.chain == (if s'.last >= 0 && s'.nodes[s'.last].Done? then 1 else 0)
    ensures Inv(g, s')
  {
    CountUpdate(s.nodes, k, x, Unfinished());
    forall u | 0 <= u < |g.succ| ensures NodeAt(g, s', u) && CounterAt(g, s', u) {
      assert NodeAt(g, s, u) && CounterAt(g, s, u);
      OwedUpdate(g.succ, s.nodes, k, x, u, |g.succ|);
    }
  }

  lemma ReleaseInv(g: Graph, s: State, k: nat)
    requires WellFormed(g) && Inv(g, s) && Enabled(g, s, Step(k)) && s.nodes[k].Releasing? && s.nodes[k].i < |g.succ[k]|
    ensures Inv(g, RunRelease(g, s, k))
  {
    var s' := RunRelease(g, s, k);
    var i := s.nodes[k].i;
    var u, x := g.succ[k][i], Releasing(s.nodes[k].count, i + 1);
    ReleasedIsWaiting(g, s, k);
    var nodes := s.nodes[k := x];
    CountUpdate(s.nodes, k, x, Unfinished());
    CountUpdate(nodes, u, Ready, Unfinished());
    forall v | 0 <= v < |g.succ| ensures CounterAt(g, s', v) {
      assert CounterAt(g, s, v);
      OwedUpdate(g.succ, s.nodes, k, x, v, |g.succ|);
      TimesTail(g.succ[k], i, v);
      OwedUpdate(g.succ, nodes, u, Ready, v, |g.succ|);
    }
    forall v | 0 <= v < |g.succ| ensures NodeAt(g, s', v) {
      assert NodeAt(g, s, v) && NodeAt(g, s, k);
    }
  }

  /** The successor told next is still waiting, and is another node. */
  lemma ReleasedIsWaiting(g: Graph, s: State, k: nat)
    requires WellFormed(g) && Inv(g, s) && Enabled(g, s, Step(k)) && s.nodes[k].Releasing? && s.nodes[k].i < |g.succ[k]|
    ensures var u := g.succ[k][s.nodes[k].i]; u != k && u < |g.succ| && s.nodes[u].Waiting? && s.last != u
  {
    var i := s.nodes[k].i;
    var u := g.succ[k][i];
    assert g.succ[k][i..][0] == u;
    assert u in g.succ[k];
    assert EdgeFits(g, k, u);
    OwedPositive(g.succ, s.nodes, k, u, |g.succ|);
    TimesTail(g.succ[k], i, u);
    assert CounterAt(g, s, u) && NodeAt(g, s, u);
  }

  lemma StepInv(g: Graph, s: State, k: nat)
    requires WellFormed(g) && Inv(g, s) && Enabled(g, s, Step(k))
    ensures Inv(g, RunStep(g, s, k))
  {
    var s' := RunStep(g, s, k);
    assert NodeAt(g, s, k);
    if s.nodes[k].Releasing? && s.nodes[k].i < |g.succ[k]| {
      ReleaseInv(g, s, k);
    } else {
      CountHitUnfinished(s, k);
      QuietInv(g, s, s', k, s'.nodes[k]);
    }
  }

  lemma CountHitUnfinished(s: State, k: nat)
    requires k < |s.nodes|
    ensures Unfinished()(s.nodes[k]) ==> Count(s.nodes, Unfinished()) >= 1
  {
    if Unfinished()(s.nodes[k]) { CountHit(s.nodes, k, Unfinished()); }
  }

  lemma NextInv(g: Graph, s: State, s': State)
    requires WellFormed(g) && Inv(g, s) && Next(g, s, s')
    ensures Inv(g, s')
  {
    var act :| Enabled(g, s, act) && s' == Apply(g, s, act);
    match act
    case Start(k) => assert NodeAt(g, s, k); QuietInv(g, s, s', k, Running);
    case Step(k) => StepInv(g, s, k);
  }

  // ------------------------------------------------------------ runs

  ghost predicate StepAt(g: Graph, run: seq<State>, i: nat)
    requires i + 1 < |run|
  {
    Next(g, run[i], run[i + 1])
  }

  ghost predicate IsRun(g: Graph, run: seq<State>)
    requires WellFormed(g)
  {
    |run| > 0 && Init(g, run[0]) && forall i :: 0 <= i < |run| - 1 ==> StepAt(g, run, i)
  }

  lemma {:induction false} RunInv(g: Graph, run: seq<State>, i: nat)
    requires WellFormed(g) && IsRun(g, run) && i < |run|
    ensures Inv(g, run[i])
  {
    if i == 0 {
      InitInv(g, run[0]);
    } else {
      RunInv(g, run, i - 1);
      assert StepAt(g, run, i - 1);
      NextInv(g, run[i - 1], run[i]);
    }
  }

  /** The function of the node has returned. */
  predicate HasReturned(x: Node) { x.Returned? || x.Releasing? || x.Done? }

  /** In every reachable state every node has run at most once. */
  lemma RunsAtMostOnce(g: Graph, run: seq<State>, i: nat, k: nat)
    requires WellFormed(g) && IsRun(g, run) && i < |run| && k < |g.succ|
    ensures Sized(g, run[i]) && run[i].runs[k] <= 1
  {
    RunInv(g, run, i);
    assert NodeAt(g, run[i], k);
  }

  /** In every reachable state a node that has started did so after the functions of all its
      dependencies returned. */
  lemma RunsAfterDependencies(g: Graph, run: seq<State>, i: nat, k: nat)
    requires WellFormed(g) && IsRun(g, run) && i < |run| && k < |g.succ|
    ensures Sized(g, run[i])
    ensures run[i].runs[k] > 0 ==>
              forall j :: j in g.deps[k] ==> j < |g.succ| && HasReturned(run[i].nodes[j]) && run[i].runs[j] == 1
  {
    RunInv(g, run, i);
    forall j | run[i].runs[k] > 0 && j in g.deps[k]
      ensures j < |g.succ| && HasReturned(run[i].nodes[j]) && run[i].runs[j] == 1
    {
      DependencyReturned(g, run[i], k, j);
    }
  }

  lemma DependencyReturned(g: Graph, s: State, k: nat, j: nat)
    requires WellFormed(g) && Inv(g, s) && k < |g.succ| && s.runs[k] > 0 && j in g.deps[k]
    ensures j < |g.succ| && HasReturned(s.nodes[j]) && s.runs[j] == 1
  {
    assert NodeAt(g, s, k) && CounterAt(g, s, k);
    assert InRange(g.deps[k], |g.succ|);
    assert j < |g.succ|;
    assert EdgeFits(g, j, k) && NodeAt(g, s, j);
    OwedPositive(g.succ, s.nodes, j, k, |g.succ|);
    assert g.succ[j][0..] == g.succ[j];
  }

  /** The finish chain is set at most once, and only when the function of every node has returned. */
  lemma ChainSetAfterAll(g: Graph, run: seq<State>, i: nat, k: nat)
    requires WellFormed(g) && IsRun(g, run) && i < |run| && k < |g.succ|
    ensures Sized(g, run[i]) && run[i].chain <= 1
    ensures run[i].chain == 1 ==> HasReturned(run[i].nodes[k]) && run[i].runs[k] == 1
  {
    RunInv(g, run, i);
    assert NodeAt(g, run[i], k);
    CountHitUnfinished(run[i], k);
  }

  ghost predicate Quiescent(g: Graph, s: State) { forall act :: !Enabled(g, s, act) }

  lemma {:induction false} NodesFinish(g: Graph, s: State, k: nat)
    requires WellFormed(g) && Inv(g, s) && Quiescent(g, s) && k < |g.succ|
    ensures s.nodes[k].Done?
    decreases g.rank[k]
  {
    assert NodeAt(g, s, k) && CounterAt(g, s, k);
    assert !Enabled(g, s, Start(k)) && !Enabled(g, s, Step(k));
    assert InRange(g.succ[k], |g.succ|);
    if s.nodes[k].Waiting? {
      forall j | 0 <= j < |g.succ| ensures Times(g.succ[j][Told(s.nodes[j], |g.succ[j]|)..], k) == 0 {
        assert EdgeFits(g, j, k);
        if Times(g.succ[j], k) > 0 {
          NodesFinish(g, s, j);
        } else {
          TailHasNone(g.succ[j], Told(s.nodes[j], |g.succ[j]|), k);
        }
      }
      NothingOwed(g.succ, s.nodes, k, |g.succ|);
    }
  }

  lemma TailHasNone(s: seq<nat>, i: nat, k: nat)
    requires i <= |s| && Times(s, k) == 0
    ensures Times(s[i..], k) == 0
  {
    assert s == s[..i] + s[i..];
  }

  lemma {:induction false} NothingOwed(succ: seq<seq<nat>>, nodes: seq<Node>, k: nat, m: nat)
    requires m <= |succ| == |nodes|
    requires forall j :: 0 <= j < m ==> Times(succ[j][Told(nodes[j], |succ[j]|)..], k) == 0
    ensures Owed(succ, nodes, k, m) == 0
  {
    if m > 0 { NothingOwed(succ, nodes, k, m - 1); }
  }

  /** When nothing is left to do, every node has run exactly once and the finish chain is set. */
  lemma EverythingRuns(g: Graph, run: seq<State>, i: nat)
    requires WellFormed(g) && IsRun(g, run) && i < |run| && Quiescent(g, run[i])
    ensures Sized(g, run[i]) && run[i].chain == 1
    ensures forall k :: 0 <= k < |g.succ| ==> run[i].runs[k] == 1
  {
    RunInv(g, run, i);
    var s := run[i];
    forall k | 0 <= k < |g.succ| ensures s.nodes[k].Done? && s.runs[k] == 1 {
      NodesFinish(g, s, k);
      assert NodeAt(g, s, k);
    }
    CountNone(s.nodes, Unfinished());
  }

  // ------------------------------------------------------------ every run ends

  /** Steps a node with n successors still has before it. */
  function NodeWork(x: Node, n: nat): nat {
    match x
    case Waiting => n + 6
    case Ready => n + 5
    case Running => n + 4
    case Returned => n + 3
    case Releasing(_, i) => if i <= n then n - i + 1 else 1
    case Done => 0
  }

  function NodesWork(succ: seq<seq<nat>>, nodes: seq<Node>): seq<nat>
    requires |nodes| == |succ|
  {
    seq(|nodes|, k requires 0 <= k < |nodes| => NodeWork(nodes[k], |succ[k]|))
  }

  function Work(g: Graph, s: State): nat
    requires Sized(g, s)
  {
    Total(NodesWork(g.succ, s.nodes))
  }

  lemma WorkUpdate(succ: seq<seq<nat>>, nodes: seq<Node>, k: nat, x: Node)
    requires |nodes| == |succ| && k < |nodes|
    ensures Total(NodesWork(succ, nodes[k := x])) ==
            Total(NodesWork(succ, nodes)) - NodeWork(nodes[k], |succ[k]|) + NodeWork(x, |succ[k]|)
  {
    TotalUpdate(NodesWork(succ, nodes), k, NodeWork(x, |succ[k]|));
    assert NodesWork(succ, nodes[k := x]) == NodesWork(succ, nodes)[k := NodeWork(x, |succ[k]|)];
  }

  lemma StepWorks(g: Graph, s: State, s': State)
    requires WellFormed(g) && Inv(g, s) && Next(g, s, s')
    ensures Sized(g, s') && Work(g, s') < Work(g, s)
  {
    var act :| Enabled(g, s, act) && s' == Apply(g, s, act);
    var k := act.k;
    if act.Step? && s.nodes[k].Releasing? && s.nodes[k].i < |g.succ[k]| {
      ReleaseWorks(g, s, k);
    } else {
      QuietWorks(g, s, act);
    }
  }

  lemma QuietWorks(g: Graph, s: State, act: Action)
    requires WellFormed(g) && Inv(g, s) && Enabled(g, s, act)
    requires act.Step? && s.nodes[act.k].Releasing? ==> s.nodes[act.k].i >= |g.succ[act.k]|
    ensures Sized(g, Apply(g, s, act)) && Work(g, Apply(g, s, act)) < Work(g, s)
  {
    var k, s' := act.k, Apply(g, s, act);
    assert NodeAt(g, s, k);
    assert s'.nodes == s.nodes[k := s'.nodes[k]];
    WorkUpdate(g.succ, s.nodes, k, s'.nodes[k]);
  }

  lemma ReleaseWorks(g: Graph, s: State, k: nat)
    requires WellFormed(g) && Inv(g, s) && Enabled(g, s, Step(k)) && s.nodes[k].Releasing? && s.nodes[k].i < |g.succ[k]|
    ensures Sized(g, RunRelease(g, s, k)) && Work(g, RunRelease(g, s, k)) < Work(g, s)
  {
    var x := Releasing(s.nodes[k].count, s.nodes[k].i + 1);
    ReleasedIsWaiting(g, s, k);
    WorkUpdate(g.succ, s.nodes, k, x);
    WorkUpdate(g.succ, s.nodes[k := x], g.succ[k][s.nodes[k].i], Ready);
  }

  /** No run takes more steps than the work of its first state. */
  lemma {:induction false} RunsEnd(g: Graph, run: seq<State>, i: nat)
    requires WellFormed(g) && IsRun(g, run) && i < |run|
    ensures Sized(g, run[0]) && Sized(g, run[i]) && Work(g, run[i]) + i <= Work(g, run[0])
  {
    if i > 0 {
      RunsEnd(g, run, i - 1);
      RunInv(g, run, i - 1);
      assert StepAt(g, run, i - 1);
      StepWorks(g, run[i - 1], run[i]);
    }
  }

  lemma OneMore(g: Graph, run: seq<State>) returns (more: bool, longer: seq<State>)
    requires WellFormed(g) && IsRun(g, run) && Sized(g, run[|run| - 1])
    ensures more ==> IsRun(g, longer) && run <= longer && |longer| == |run| + 1 && Sized(g, longer[|run|])
                     && Work(g, longer[|run|]) < Work(g, run[|run| - 1])
    ensures !more ==> Quiescent(g, run[|run| - 1])
  {
    var s := run[|run| - 1];
    more, longer := false, run;
    if act :| Enabled(g, s, act) {
      RunInv(g, run, |run| - 1);
      more, longer := true, run + [Apply(g, s, act)];
      StepWorks(g, s, Apply(g, s, act));
      forall i | 0 <= i < |longer| - 1 ensures StepAt(g, longer, i) {
        if i < |run| - 1 { assert StepAt(g, run, i); }
      }
    }
  }

  /** So every run can be continued, in whatever order, until nothing is left to do; then every node has run
      exactly once and the finish chain is set. */
  lemma {:induction false} RunsComplete(g: Graph, run: seq<State>) returns (full: seq<State>)
    requires WellFormed(g) && IsRun(g, run) && Sized(g, run[|run| - 1])
    ensures IsRun(g, full) && run <= full && Quiescent(g, full[|full| - 1])
    ensures Sized(g, full[|full| - 1]) && full[|full| - 1].chain == 1
    ensures var runs := full[|full| - 1].runs; forall k :: 0 <= k < |runs| ==> runs[k] == 1
    decreases Work(g, run[|run| - 1])
  {
    var more, longer := OneMore(g, run);
    if more {
      full := RunsComplete(g, longer);
    } else {
      full := run;
      EverythingRuns(g, run, |run| - 1);
    }
  }
}
