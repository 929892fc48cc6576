/**
 AsyncGraph::BuildGraph (async/runtime/graph.cpp): one pass over the nodes counts the uses of
 every name and numbers the names, a second one fills the user tables and ready counters, and the
 last ones derive the use counts and the names of the outputs.

 Names are of any type with equality.
 */
module GraphBuild {
  import opened Dataflow
  import opened Finite

  // ------------------------------------------------------------ what the tables mean

  function AllInputs<N>(nodes: seq<Node<N>>): seq<N> {
    if nodes == [] then [] else AllInputs(nodes[..|nodes| - 1]) + nodes[|nodes| - 1].inputs
  }

  function AllOutputs<N>(nodes: seq<Node<N>>): seq<N> {
    if nodes == [] then [] else AllOutputs(nodes[..|nodes| - 1]) + nodes[|nodes| - 1].outputs
  }

  /** Every name, in the order in which the build meets them. */
  function AllNames<N>(nodes: seq<Node<N>>): seq<N> {
    if nodes == [] then []
    else AllNames(nodes[..|nodes| - 1]) + (nodes[|nodes| - 1].inputs + nodes[|nodes| - 1].outputs)
  }

  /** The distinct elements of s, in order of first occurrence. */
  function Distinct<N(==,!new)>(s: seq<N>): (d: seq<N>)
    ensures forall n :: n in d <==> n in s
    ensures Different(d)
  {
    if s == [] then []
    else
      var d := Distinct(s[..|s| - 1]);
      if s[|s| - 1] in d then d else d + [s[|s| - 1]]
  }

  /** m gives the number of occurrences in s of every element of s. */
  ghost predicate Counts<N(!new)>(m: map<N, nat>, s: seq<N>) {
    && (forall n :: n in m <==> n in s)
    && (forall n :: n in m ==> m[n] == multiset(s)[n])
  }

  /** ids numbers the distinct elements of s in order of first occurrence. */
  ghost predicate Numbers<N(!new)>(ids: map<N, nat>, s: seq<N>) {
    && (forall n :: n in ids <==> n in s)
    && (forall i :: 0 <= i < |Distinct(s)| ==> Distinct(s)[i] in ids && ids[Distinct(s)[i]] == i)
  }

  /** used lists, for each name taken as an input, the nodes that take it. */
  ghost predicate UsedBy<N(!new)>(used: map<N, set<nat>>, nodes: seq<Node<N>>) {
    && (forall n :: n in used <==> n in AllInputs(nodes))
    && (forall n, k :: n in used ==> (k in used[n] <==> Takes(nodes, k, n)))
  }

  predicate Makes<N(==,!new)>(nodes: seq<Node<N>>, k: nat, n: N) { k < |nodes| && n in nodes[k].outputs }

  /** maker gives the last node that has the name among its outputs. */
  ghost predicate LastProducer<N(!new)>(maker: map<N, nat>, nodes: seq<Node<N>>) {
    && (forall n :: n in maker <==> n in AllOutputs(nodes))
    && (forall n :: n in maker ==> Makes(nodes, maker[n], n))
    && (forall n, k :: n in maker && Makes(nodes, k, n) ==> k <= maker[n])
  }

  // ------------------------------------------------------------ one name at a time

  /** ProcessNameAndRefCount. */
  method ProcessName<N(==,!new)>(name: N, counts: map<N, nat>, ids: map<N, nat>, ghost counted: seq<N>, ghost seen: seq<N>)
    returns (counts': map<N, nat>, ids': map<N, nat>)
    requires Counts(counts, counted) && Numbers(ids, seen)
    ensures Counts(counts', counted + [name]) && Numbers(ids', seen + [name])
  {
    if name in counts {
      counts' := counts[name := counts[name] + 1];
    } else {
      counts' := counts[name := 1];
    }
    if name !in ids {
      NumbersSize(ids, seen);
      ids' := ids[name := |ids|];
    } else {
      ids' := ids;
    }
    assert (seen + [name])[..|seen|] == seen;
    NumbersStep(ids, ids', seen, name);
  }

  lemma NumbersSize<N(!new)>(ids: map<N, nat>, s: seq<N>)
    requires Numbers(ids, s)
    ensures |ids| == |Distinct(s)|
  {
    var d := Distinct(s);
    assert ids.Keys == set n | n in d;
    SetOfSeq(d);
  }

  lemma NumbersStep<N(!new)>(ids: map<N, nat>, ids': map<N, nat>, s: seq<N>, name: N)
    requires Numbers(ids, s)
    requires ids' == if name in ids then ids else ids[name := |Distinct(s)|]
    ensures Numbers(ids', s + [name])
  {
    assert (s + [name])[..|s|] == s;
    assert Distinct(s + [name]) == if name in Distinct(s) then Distinct(s) else Distinct(s) + [name];
  }

  // ------------------------------------------------------------ the first pass

  /** nodes[..i] and the first j inputs and l outputs of node i. */
  function Prefix<N>(nodes: seq<Node<N>>, i: nat, j: nat, l: nat): (p: seq<Node<N>>)
    requires i < |nodes| && j <= |nodes[i].inputs| && l <= |nodes[i].outputs|
  {
    nodes[..i] + [Node(nodes[i].inputs[..j], nodes[i].outputs[..l])]
  }

  /** What the first pass keeps track of. */
  datatype Tables<N> = Tables(args: map<N, nat>, res: map<N, nat>, ids: map<N, nat>,
                              used: map<N, set<nat>>, maker: map<N, nat>)

  ghost predicate Scanned<N(!new)>(t: Tables<N>, p: seq<Node<N>>) {
    && Counts(t.args, AllInputs(p)) && Counts(t.res, AllOutputs(p)) && Numbers(t.ids, AllNames(p))
    && UsedBy(t.used, p) && LastProducer(t.maker, p)
  }

  lemma PrefixInput<N(!new)>(nodes: seq<Node<N>>, i: nat, j: nat)
    requires i < |nodes| && j < |nodes[i].inputs|
    ensures var p, q, n := Prefix(nodes, i, j, 0), Prefix(nodes, i, j + 1, 0), nodes[i].inputs[j];
            AllInputs(q) == AllInputs(p) + [n] && AllOutputs(q) == AllOutputs(p) && AllNames(q) == AllNames(p) + [n]
  {
    var p, q, n := Prefix(nodes, i, j, 0), Prefix(nodes, i, j + 1, 0), nodes[i].inputs[j];
    assert p[..i] == nodes[..i] && q[..i] == nodes[..i];
    assert q[i].inputs == p[i].inputs + [n] && p[i].outputs == q[i].outputs == [];
    assert AllNames(q) == AllNames(nodes[..i]) + q[i].inputs;
    assert AllNames(p) == AllNames(nodes[..i]) + p[i].inputs;
  }

  lemma PrefixOutput<N(!new)>(nodes: seq<Node<N>>, i: nat, l: nat)
    requires i < |nodes| && l < |nodes[i].outputs|
    ensures var m := |nodes[i].inputs|;
            var p, q, n := Prefix(nodes, i, m, l), Prefix(nodes, i, m, l + 1), nodes[i].outputs[l];
            AllInputs(q) == AllInputs(p) && AllOutputs(q) == AllOutputs(p) + [n] && AllNames(q) == AllNames(p) + [n]
  {
    var m := |nodes[i].inputs|;
    var p, q := Prefix(nodes, i, m, l), Prefix(nodes, i, m, l + 1);
    assert p[..i] == nodes[..i] && q[..i] == nodes[..i];
    assert nodes[i].outputs[..l + 1] == nodes[i].outputs[..l] + [nodes[i].outputs[l]];
  }

  lemma PrefixStart<N(!new)>(nodes: seq<Node<N>>, i: nat)
    requires i < |nodes|
    ensures var p := Prefix(nodes, i, 0, 0);
            AllInputs(p) == AllInputs(nodes[..i]) && AllOutputs(p) == AllOutputs(nodes[..i]) && AllNames(p) == AllNames(nodes[..i])
  {
    assert Prefix(nodes, i, 0, 0)[..i] == nodes[..i];
  }

  lemma PrefixFull<N(!new)>(nodes: seq<Node<N>>, i: nat)
    requires i < |nodes|
    ensures Prefix(nodes, i, |nodes[i].inputs|, |nodes[i].outputs|) == nodes[..i + 1]
  {
    assert nodes[i].inputs[..|nodes[i].inputs|] == nodes[i].inputs;
    assert nodes[i].outputs[..|nodes[i].outputs|] == nodes[i].outputs;
    assert nodes[..i + 1] == nodes[..i] + [nodes[i]];
  }

  lemma UsedStart<N(!new)>(used: map<N, set<nat>>, maker: map<N, nat>, nodes: seq<Node<N>>, i: nat)
    requires i < |nodes| && UsedBy(used, nodes[..i]) && LastProducer(maker, nodes[..i])
    ensures UsedBy(used, Prefix(nodes, i, 0, 0)) && LastProducer(maker, Prefix(nodes, i, 0, 0))
  {
    PrefixStart(nodes, i);
    var p := Prefix(nodes, i, 0, 0);
    forall n, k: nat ensures Takes(p, k, n) == Takes(nodes[..i], k, n) && Makes(p, k, n) == Makes(nodes[..i], k, n) {
    }
  }

  lemma UsedStep<N(!new)>(used: map<N, set<nat>>, maker: map<N, nat>, nodes: seq<Node<N>>, i: nat, j: nat)
    requires i < |nodes| && j < |nodes[i].inputs|
    requires UsedBy(used, Prefix(nodes, i, j, 0)) && LastProducer(maker, Prefix(nodes, i, j, 0))
    ensures var n := nodes[i].inputs[j];
            UsedBy(used[n := (if n in used then used[n] else {}) + {i}], Prefix(nodes, i, j + 1, 0))
    ensures LastProducer(maker, Prefix(nodes, i, j + 1, 0))
  {
    PrefixInput(nodes, i, j);
    var p, q, n := Prefix(nodes, i, j, 0), Prefix(nodes, i, j + 1, 0), nodes[i].inputs[j];
    assert nodes[i].inputs[..j + 1] == nodes[i].inputs[..j] + [n];
    forall m, k: nat
      ensures Takes(q, k, m) == (Takes(p, k, m) || (m == n && k == i)) && Makes(q, k, m) == Makes(p, k, m)
    {
    }
    if n !in used { UnusedSoFar(p, n); }
  }

  lemma {:induction false} UnusedSoFar<N(!new)>(nodes: seq<Node<N>>, n: N)
    requires n !in AllInputs(nodes)
    ensures forall k: nat :: !Takes(nodes, k, n)
  {
    if nodes != [] {
      var m := |nodes| - 1;
      UnusedSoFar(nodes[..m], n);
      forall k: nat ensures !Takes(nodes, k, n) {
        assert k < m ==> !Takes(nodes[..m], k, n);
      }
    }
  }

  lemma ProducedStep<N(!new)>(used: map<N, set<nat>>, maker: map<N, nat>, nodes: seq<Node<N>>, i: nat, l: nat)
    requires i < |nodes| && l < |nodes[i].outputs|
    requires UsedBy(used, Prefix(nodes, i, |nodes[i].inputs|, l)) && LastProducer(maker, Prefix(nodes, i, |nodes[i].inputs|, l))
    ensures UsedBy(used, Prefix(nodes, i, |nodes[i].inputs|, l + 1))
    ensures LastProducer(maker[nodes[i].outputs[l] := i], Prefix(nodes, i, |nodes[i].inputs|, l + 1))
  {
    PrefixOutput(nodes, i, l);
    var m := |nodes[i].inputs|;
    var p, q, n := Prefix(nodes, i, m, l), Prefix(nodes, i, m, l + 1), nodes[i].outputs[l];
    assert nodes[i].outputs[..l + 1] == nodes[i].outputs[..l] + [n];
    forall x, k: nat
      ensures Takes(q, k, x) == Takes(p, k, x) && Makes(q, k, x) == (Makes(p, k, x) || (x == n && k == i))
    {
    }
  }

  method ScanInput<N(==,!new)>(nodes: seq<Node<N>>, i: nat, j: nat, t: Tables<N>) returns (t': Tables<N>)
    requires i < |nodes| && j < |nodes[i].inputs| && Scanned(t, Prefix(nodes, i, j, 0))
    ensures Scanned(t', Prefix(nodes, i, j + 1, 0))
  {
    var name := nodes[i].inputs[j];
    ghost var p := Prefix(nodes, i, j, 0);
    PrefixInput(nodes, i, j);
    UsedStep(t.used, t.maker, nodes, i, j);
    var args, ids := ProcessName(name, t.args, t.ids, AllInputs(p), AllNames(p));
    t' := Tables(args, t.res, ids, t.used[name := (if name in t.used then t.used[name] else {}) + {i}], t.maker);
  }

  method ScanOutput<N(==,!new)>(nodes: seq<Node<N>>, i: nat, l: nat, t: Tables<N>) returns (t': Tables<N>)
    requires i < |nodes| && l < |nodes[i].outputs| && Scanned(t, Prefix(nodes, i, |nodes[i].inputs|, l))
    ensures Scanned(t', Prefix(nodes, i, |nodes[i].inputs|, l + 1))
  {
    var name := nodes[i].outputs[l];
    ghost var p := Prefix(nodes, i, |nodes[i].inputs|, l);
    PrefixOutput(nodes, i, l);
    ProducedStep(t.used, t.maker, nodes, i, l);
    var res, ids := ProcessName(name, t.res, t.ids, AllOutputs(p), AllNames(p));
    t' := Tables(t.args, res, ids, t.used, t.maker[name := i]);
  }

  /** The first loop: counts, numbers, users and producers of all names. */
  method ScanNodes<N(==,!new)>(nodes: seq<Node<N>>) returns (t: Tables<N>)
    ensures Scanned(t, nodes)
  {
    t := Tables(map[], map[], map[], map[], map[]);
    for i := 0 to |nodes|
      invariant Scanned(t, nodes[..i])
    {
      PrefixStart(nodes, i);
      UsedStart(t.used, t.maker, nodes, i);
      for j := 0 to |nodes[i].inputs|
        invariant Scanned(t, Prefix(nodes, i, j, 0))
      {
        t := ScanInput(nodes, i, j, t);
      }
      for l := 0 to |nodes[i].outputs|
        invariant Scanned(t, Prefix(nodes, i, |nodes[i].inputs|, l))
      {
        t := ScanOutput(nodes, i, l, t);
      }
      PrefixFull(nodes, i);
    }
    assert nodes[..|nodes|] == nodes;
  }

  // ------------------------------------------------------------ the later passes

  /** The elements of s below hi, in increasing order: a std::set copied into a vector. */
  method Ascending(s: set<nat>, hi: nat) returns (u: seq<nat>)
    requires forall k :: k in s ==> k < hi
    ensures Increasing(u) && forall k :: k in u <==> k in s
  {
    u := [];
    for k := 0 to hi
      invariant Increasing(u) && (forall j :: j in u <==> j in s && j < k)
    {
      if k in s {
        assert forall i :: 0 <= i < |u| ==> u[i] in u;
        u := u + [k];
      }
    }
  }

  lemma LastIsLargest(u: seq<nat>, k: nat)
    requires u != [] && Increasing(u)
    ensures k in u[..|u| - 1] <==> k in u && k != u[|u| - 1]
    ensures k in u ==> k <= u[|u| - 1]
  {
  }

  ghost predicate SameElements(u: seq<nat>, v: seq<nat>) { forall k: nat :: k in u <==> k in v }

  lemma NotEmpty(u: seq<nat>, v: seq<nat>)
    requires SameElements(u, v) && u != []
    ensures v != []
  {
    assert u[0] in u;
  }

  lemma SameButLast(u: seq<nat>, v: seq<nat>)
    requires u != [] && v != [] && Increasing(u) && Increasing(v) && SameElements(u, v)
    ensures u[|u| - 1] == v[|v| - 1] && SameElements(u[..|u| - 1], v[..|v| - 1])
  {
    var a, b := |u| - 1, |v| - 1;
    assert u[a] in u && v[b] in v;
    LastIsLargest(u, v[b]);
    LastIsLargest(v, u[a]);
    forall k: nat ensures k in u[..a] <==> k in v[..b] {
      LastIsLargest(u, k);
      LastIsLargest(v, k);
    }
  }

  lemma {:induction false} IncreasingUnique(u: seq<nat>, v: seq<nat>)
    requires Increasing(u) && Increasing(v) && SameElements(u, v)
    ensures u == v
  {
    if u != [] { NotEmpty(u, v); }
    if v != [] { NotEmpty(v, u); }
    if u != [] && v != [] {
      SameButLast(u, v);
      IncreasingUnique(u[..|u| - 1], v[..|v| - 1]);
      assert u == u[..|u| - 1] + [u[|u| - 1]] && v == v[..|v| - 1] + [v[|v| - 1]];
    }
  }

  /** The user lists of the results of node i, as in mUsedByKernlTable. */
  predicate RowsFor<N(==)>(rows: seq<seq<nat>>, nodes: seq<Node<N>>, i: nat)
    requires i < |nodes|
  {
    |rows| == |nodes[i].outputs| && forall j :: 0 <= j < |rows| ==> rows[j] == Users(nodes, nodes[i].outputs[j])
  }

  method UserRows<N(==,!new)>(nodes: seq<Node<N>>, i: nat, used: map<N, set<nat>>) returns (rows: seq<seq<nat>>)
    requires i < |nodes| && UsedBy(used, nodes)
    ensures RowsFor(rows, nodes, i)
  {
    rows := [];
    for j := 0 to |nodes[i].outputs|
      invariant |rows| == j && forall l :: 0 <= l < j ==> rows[l] == Users(nodes, nodes[i].outputs[l])
    {
      var name := nodes[i].outputs[j];
      var container := if name in used then used[name] else {};
      if name !in used { UnusedSoFar(nodes, name); }
      assert forall k :: k in container <==> Takes(nodes, k, name);
      var row := Ascending(container, |nodes|);
      UsersIncrease(nodes, name);
      IncreasingUnique(row, Users(nodes, name));
      rows := rows + [row];
    }
  }

  method AllRows<N(==,!new)>(nodes: seq<Node<N>>, used: map<N, set<nat>>) returns (rows: seq<seq<seq<nat>>>)
    requires UsedBy(used, nodes)
    ensures |rows| == |nodes| && forall k :: 0 <= k < |nodes| ==> RowsFor(rows[k], nodes, k)
  {
    rows := [];
    for i := 0 to |nodes|
      invariant |rows| == i && forall k :: 0 <= k < i ==> RowsFor(rows[k], nodes, k)
    {
      var row := UserRows(nodes, i, used);
      rows := rows + [row];
    }
  }

  /** Counters after the names in done were handled: the inputs of each name's last producer. */
  ghost predicate Counted<N(!new)>(counters: seq<nat>, nodes: seq<Node<N>>, maker: map<N, nat>, done: seq<N>)
  {
    && |counters| == |nodes|
    && (forall n :: n in done ==> n in maker && maker[n] < |nodes| && counters[maker[n]] == |nodes[maker[n]].inputs|)
    && (forall k :: 0 <= k < |nodes| && counters[k] != 0 ==> exists n :: n in done && n in maker && maker[n] == k)
  }

  method ReadyCounters<N(==,!new)>(nodes: seq<Node<N>>, maker: map<N, nat>) returns (counters: seq<nat>)
    requires LastProducer(maker, nodes)
    ensures Counted(counters, nodes, maker, AllOutputs(nodes))
  {
    counters := seq(|nodes|, _ => 0);
    for i := 0 to |nodes|
      invariant Counted(counters, nodes, maker, AllOutputs(nodes[..i]))
    {
      assert nodes[..i + 1][..i] == nodes[..i];
      ghost var before := AllOutputs(nodes[..i]);
      for j := 0 to |nodes[i].outputs|
        invariant Counted(counters, nodes, maker, before + nodes[i].outputs[..j])
      {
        var name := nodes[i].outputs[j];
        assert name in maker by { OutputsOf(nodes, i, name); }
        assert Makes(nodes, maker[name], name);
        counters := CountName(nodes, maker, counters, name, before + nodes[i].outputs[..j]);
        assert before + nodes[i].outputs[..j] + [name] == before + nodes[i].outputs[..j + 1];
      }
      assert nodes[i].outputs[..|nodes[i].outputs|] == nodes[i].outputs;
    }
    assert nodes[..|nodes|] == nodes;
  }

  lemma {:induction false} OutputsOf<N(!new)>(nodes: seq<Node<N>>, i: nat, n: N)
    requires Makes(nodes, i, n)
    ensures n in AllOutputs(nodes)
  {
    var m := |nodes| - 1;
    if i < m {
      assert Makes(nodes[..m], i, n);
      OutputsOf(nodes[..m], i, n);
    }
  }

  lemma {:induction false} InputsOf<N(!new)>(nodes: seq<Node<N>>, i: nat, n: N)
    requires Takes(nodes, i, n)
    ensures n in AllInputs(nodes)
  {
    var m := |nodes| - 1;
    if i < m {
      assert Takes(nodes[..m], i, n);
      InputsOf(nodes[..m], i, n);
    }
  }

  method CountName<N(==,!new)>(nodes: seq<Node<N>>, maker: map<N, nat>, counters: seq<nat>, name: N, ghost done: seq<N>)
    returns (counters': seq<nat>)
    requires Counted(counters, nodes, maker, done) && name in maker && maker[name] < |nodes|
    ensures Counted(counters', nodes, maker, done + [name])
  {
    var p := maker[name];
    counters' := counters[p := |nodes[p].inputs|];
    assert name in done + [name];
    forall k | 0 <= k < |nodes| && counters'[k] != 0 ensures exists n :: n in done + [name] && n in maker && maker[n] == k {
      if k != p {
        var n :| n in done && n in maker && maker[n] == k;
        assert n in done + [name];
      }
    }
  }

  /** Uses of a name: its occurrences among all inputs and outputs, less one. */
  function Uses<N(==)>(nodes: seq<Node<N>>, n: N): int {
    var total: int := multiset(AllInputs(nodes))[n] + multiset(AllOutputs(nodes))[n];
    total - 1
  }

  lemma {:induction false} NamesAreInputsAndOutputs<N(!new)>(nodes: seq<Node<N>>, n: N)
    ensures n in AllNames(nodes) <==> n in AllInputs(nodes) || n in AllOutputs(nodes)
  {
    if nodes != [] { NamesAreInputsAndOutputs(nodes[..|nodes| - 1], n); }
  }

  lemma NumbersInjective<N(!new)>(ids: map<N, nat>, s: seq<N>, n: N)
    requires Numbers(ids, s) && n in ids
    ensures |ids| == |Distinct(s)| && ids[n] < |ids| && Distinct(s)[ids[n]] == n
  {
    NumbersSize(ids, s);
    var i :| 0 <= i < |Distinct(s)| && Distinct(s)[i] == n;
  }

  method UseCounts<N(==,!new)>(nodes: seq<Node<N>>, t: Tables<N>) returns (counts: seq<int>)
    requires Scanned(t, nodes)
    ensures |counts| == |t.ids| && forall n :: n in t.ids ==> t.ids[n] < |counts| && counts[t.ids[n]] == Uses(nodes, n)
  {
    counts := seq(|t.ids|, _ => 0);
    var left := t.ids.Keys;
    forall n | n in t.ids ensures t.ids[n] < |t.ids| { NumbersInjective(t.ids, AllNames(nodes), n); }
    while left != {}
      invariant left <= t.ids.Keys && |counts| == |t.ids|
      invariant forall n :: n in t.ids ==> t.ids[n] < |counts|
      invariant forall n :: n in t.ids && n !in left ==> counts[t.ids[n]] == Uses(nodes, n)
      decreases |left|
    {
      var name :| name in left;
      var total: int := (if name in t.args then t.args[name] else 0) + (if name in t.res then t.res[name] else 0);
      forall n | n in t.ids && t.ids[n] == t.ids[name] ensures n == name {
        NumbersInjective(t.ids, AllNames(nodes), n);
        NumbersInjective(t.ids, AllNames(nodes), name);
      }
      counts := counts[t.ids[name] := total - 1];
      left := left - {name};
    }
  }

  /** The names whose use count is zero, each once. */
  method OutputNames<N(==,!new)>(ids: map<N, nat>, counts: seq<int>) returns (names: seq<N>)
    requires forall n :: n in ids ==> ids[n] < |counts|
    ensures forall n :: n in names <==> n in ids && counts[ids[n]] == 0
    ensures Different(names)
  {
    names := [];
    var left := ids.Keys;
    while left != {}
      invariant left <= ids.Keys
      invariant forall n :: n in names <==> n in ids && n !in left && counts[ids[n]] == 0
      invariant Different(names)
      decreases |left|
    {
      var name :| name in left;
      if counts[ids[name]] == 0 { names := names + [name]; }
      left := left - {name};
    }
  }

  // ------------------------------------------------------------ the graph

  ghost predicate CountersFit<N(!new)>(counters: seq<nat>, nodes: seq<Node<N>>) {
    exists maker: map<N, nat> :: LastProducer(maker, nodes) && Counted(counters, nodes, maker, AllOutputs(nodes))
  }

  ghost predicate UsesFit<N(!new)>(nodes: seq<Node<N>>, ids: map<N, nat>, userCounts: seq<int>, outputNames: seq<N>) {
    && |userCounts| == |ids|
    && (forall n :: n in ids ==> ids[n] < |userCounts| && userCounts[ids[n]] == Uses(nodes, n))
    && (forall n :: n in outputNames <==> n in ids && Uses(nodes, n) == 0)
    && Different(outputNames)
  }

  /** Register numbers, user lists, ready counters, use counts and output names of the nodes. */
  ghost predicate TablesFit<N(!new)>(nodes: seq<Node<N>>, ids: map<N, nat>, usedBy: seq<seq<seq<nat>>>, counters: seq<nat>,
                                userCounts: seq<int>, outputNames: seq<N>)
  {
    && Numbers(ids, AllNames(nodes))
    && |usedBy| == |nodes| && (forall k :: 0 <= k < |nodes| ==> RowsFor(usedBy[k], nodes, k))
    && CountersFit(counters, nodes)
    && UsesFit(nodes, ids, userCounts, outputNames)
  }

  method BuildTables<N(==,!new)>(nodes: seq<Node<N>>)
    returns (ids: map<N, nat>, usedBy: seq<seq<seq<nat>>>, counters: seq<nat>, userCounts: seq<int>, outputNames: seq<N>)
    ensures TablesFit(nodes, ids, usedBy, counters, userCounts, outputNames)
  {
    var t := ScanNodes(nodes);
    usedBy := AllRows(nodes, t.used);
    counters := ReadyCounters(nodes, t.maker);
    assert CountersFit(counters, nodes);
    userCounts := UseCounts(nodes, t);
    ids := t.ids;
    outputNames := OutputNames(ids, userCounts);
    assert UsesFit(nodes, ids, userCounts, outputNames);
  }

  class AsyncGraph<N(==,!new)> {
    var nodes: seq<Node<N>>              // mAsyncNodes, their input and output names
    var funcs: seq<Function>             // mFunc of each node
    var funcNames: seq<N>                // mFuncName of each node
    var ids: map<N, nat>                 // mNameAndAsyncIdPair
    var usedBy: seq<seq<seq<nat>>>       // mUsedByKernlTable, by node and result
    var counters: seq<nat>               // mArgumentsNotReady of each kernel
    var userCounts: seq<int>             // mUserCount of each register
    var outputNames: seq<N>              // mOutputNames
    var isConstructed: bool              // mIsConstructed

    /** Every node has its function and its name. */
    predicate Valid()
      reads this
    {
      |funcs| == |funcNames| == |nodes|
    }

    /** The tables describe the nodes. */
    ghost predicate Built()
      reads this
    {
      TablesFit(nodes, ids, usedBy, counters, userCounts, outputNames)
    }

    constructor ()
      ensures Valid() && nodes == [] && !isConstructed
    {
      nodes, funcs, funcNames := [], [], [];
      ids, usedBy, counters, userCounts, outputNames, isConstructed := map[], [], [], [], [], false;
    }

    method Emplace(inputs: seq<N>, outputs: seq<N>, func: Function, funcName: N)
      requires Valid()
      modifies this
      ensures Valid() && nodes == old(nodes) + [Node(inputs, outputs)]
      ensures funcs == old(funcs) + [func] && funcNames == old(funcNames) + [funcName]
      ensures isConstructed == old(isConstructed)
      ensures ids == old(ids) && usedBy == old(usedBy) && counters == old(counters)
      ensures userCounts == old(userCounts) && outputNames == old(outputNames)
    {
      nodes := nodes + [Node(inputs, outputs)];
      funcs, funcNames := funcs + [func], funcNames + [funcName];
    }

    method BuildGraph()
      requires !isConstructed
      modifies this
      ensures nodes == old(nodes) && funcs == old(funcs) && funcNames == old(funcNames) && isConstructed && Built()
    {
      ids, usedBy, counters, userCounts, outputNames := BuildTables(nodes);
      isConstructed := true;
    }
  }

  // ------------------------------------------------------------ well-formed graphs of names

  ghost predicate NamedNodeOk<N(!new)>(nodes: seq<Node<N>>, start: nat, rank: seq<nat>, k: nat)
    requires k < |nodes| == |rank|
  {
    var nd := nodes[k];
    && (nd.inputs == [] <==> k == start)
    && nd.outputs != []
    && Different(nd.inputs)
    && Different(nd.outputs)
    && (forall n :: n in nd.inputs ==> exists p: nat :: Makes(nodes, p, n) && rank[p] < rank[k])
  }

  /** One start node, one producer for every name, distinct names within a node, no cycle. */
  ghost predicate WellNamed<N(!new)>(nodes: seq<Node<N>>, start: nat, rank: seq<nat>) {
    && start < |nodes| == |rank|
    && (forall k :: 0 <= k < |nodes| ==> NamedNodeOk(nodes, start, rank, k))
    && (forall p: nat, q: nat, n :: Makes(nodes, p, n) && Makes(nodes, q, n) ==> p == q)
  }

  lemma {:induction false} DistinctOnce<N(!new)>(s: seq<N>, n: N)
    requires Different(s)
    ensures multiset(s)[n] == if n in s then 1 else 0
  {
    if s != [] {
      var m := |s| - 1;
      assert s == s[..m] + [s[m]];
      DistinctOnce(s[..m], n);
    }
  }

  lemma {:induction false} UsersFromSnoc<N(!new)>(nodes: seq<Node<N>>, n: N, lo: nat)
    requires |nodes| > 0 && lo <= |nodes| - 1
    ensures var m := |nodes| - 1;
            UsersFrom(nodes, n, lo) == UsersFrom(nodes[..m], n, lo) + (if Takes(nodes, m, n) then [m] else [])
    decreases |nodes| - lo
  {
    var m := |nodes| - 1;
    if lo < m {
      UsersFromSnoc(nodes, n, lo + 1);
      assert Takes(nodes[..m], lo, n) == Takes(nodes, lo, n);
    } else {
      assert UsersFrom(nodes, n, lo + 1) == [];
    }
  }

  lemma {:induction false} InputOccurrences<N(!new)>(nodes: seq<Node<N>>, n: N)
    requires forall k :: 0 <= k < |nodes| ==> Different(nodes[k].inputs)
    ensures multiset(AllInputs(nodes))[n] == |Users(nodes, n)|
  {
    if nodes != [] {
      var m := |nodes| - 1;
      InputOccurrences(nodes[..m], n);
      DistinctOnce(nodes[m].inputs, n);
      UsersFromSnoc(nodes, n, 0);
    }
  }

  lemma {:induction false} OutputOccurrences<N(!new)>(nodes: seq<Node<N>>, n: N)
    requires forall k :: 0 <= k < |nodes| ==> Different(nodes[k].outputs)
    requires forall p: nat, q: nat :: Makes(nodes, p, n) && Makes(nodes, q, n) ==> p == q
    ensures multiset(AllOutputs(nodes))[n] <= 1
    ensures (forall k: nat :: !Makes(nodes, k, n)) ==> multiset(AllOutputs(nodes))[n] == 0
  {
    if nodes != [] {
      var m := |nodes| - 1;
      forall k: nat ensures k < m ==> Makes(nodes[..m], k, n) == Makes(nodes, k, n) {}
      assert forall k: nat :: Makes(nodes[..m], k, n) ==> Makes(nodes, k, n) && k < m;
      OutputOccurrences(nodes[..m], n);
      DistinctOnce(nodes[m].outputs, n);
      if n in nodes[m].outputs {
        assert Makes(nodes, m, n);
      }
    }
  }

  /** In a well-formed graph the use count of every name is the number of nodes that take it. */
  lemma UsesAreUsers<N(!new)>(nodes: seq<Node<N>>, start: nat, rank: seq<nat>, n: N)
    requires WellNamed(nodes, start, rank) && n in AllNames(nodes)
    ensures Uses(nodes, n) == |Users(nodes, n)|
    ensures exists k: nat :: Makes(nodes, k, n)
  {
    forall k | 0 <= k < |nodes| ensures Different(nodes[k].inputs) && Different(nodes[k].outputs) {
      assert NamedNodeOk(nodes, start, rank, k);
    }
    NamesAreInputsAndOutputs(nodes, n);
    InputOccurrences(nodes, n);
    OutputOccurrences(nodes, n);
    if n in AllOutputs(nodes) {
      OutputHasMaker(nodes, n);
    } else {
      var k := InputHasTaker(nodes, n);
      assert NamedNodeOk(nodes, start, rank, k);
      var p: nat :| Makes(nodes, p, n) && rank[p] < rank[k];
      OutputsOf(nodes, p, n);
    }
  }

  lemma {:induction false} OutputHasMaker<N(!new)>(nodes: seq<Node<N>>, n: N)
    requires n in AllOutputs(nodes)
    ensures exists k: nat :: Makes(nodes, k, n)
  {
    var m := |nodes| - 1;
    if n in nodes[m].outputs {
      assert Makes(nodes, m, n);
    } else {
      OutputHasMaker(nodes[..m], n);
      var k: nat :| Makes(nodes[..m], k, n);
      assert Makes(nodes, k, n);
    }
  }

  lemma {:induction false} InputHasTaker<N(!new)>(nodes: seq<Node<N>>, n: N) returns (k: nat)
    requires n in AllInputs(nodes)
    ensures Takes(nodes, k, n)
  {
    var m := |nodes| - 1;
    if n in nodes[m].inputs {
      k := m;
    } else {
      k := InputHasTaker(nodes[..m], n);
      assert Takes(nodes, k, n);
    }
  }

  // ------------------------------------------------------------ the executor's view

  function Renamed<N(==)>(names: seq<N>, ids: map<N, nat>): (r: seq<nat>)
    ensures |r| == |names|
    ensures forall i :: 0 <= i < |r| ==> r[i] == if names[i] in ids then ids[names[i]] else |ids|
  {
    seq(|names|, i requires 0 <= i < |names| => if names[i] in ids then ids[names[i]] else |ids|)
  }

  /** The nodes with register numbers for names. */
  function Numbered<N(==)>(nodes: seq<Node<N>>, ids: map<N, nat>): (r: seq<Node<nat>>)
    ensures |r| == |nodes|
    ensures forall k :: 0 <= k < |r| ==> r[k] == Node(Renamed(nodes[k].inputs, ids), Renamed(nodes[k].outputs, ids))
  {
    seq(|nodes|, k requires 0 <= k < |nodes| => Node(Renamed(nodes[k].inputs, ids), Renamed(nodes[k].outputs, ids)))
  }

  lemma RenamedHas<N(!new)>(names: seq<N>, ids: map<N, nat>, all: seq<N>, n: N)
    requires Numbers(ids, all) && n in ids && (forall m :: m in names ==> m in ids)
    ensures ids[n] in Renamed(names, ids) <==> n in names
  {
    var r := Renamed(names, ids);
    if n in names {
      var i :| 0 <= i < |names| && names[i] == n;
      assert r[i] == ids[n];
    }
    if ids[n] in r {
      var i :| 0 <= i < |r| && r[i] == ids[n];
      NumbersInjective(ids, all, n);
      NumbersInjective(ids, all, names[i]);
    }
  }

  lemma NodeNames<N(!new)>(nodes: seq<Node<N>>, ids: map<N, nat>, k: nat)
    requires Numbers(ids, AllNames(nodes)) && k < |nodes|
    ensures forall n :: n in nodes[k].inputs || n in nodes[k].outputs ==> n in ids
  {
    forall n | n in nodes[k].inputs || n in nodes[k].outputs ensures n in ids {
      NamesAreInputsAndOutputs(nodes, n);
      if n in nodes[k].inputs { InputsOf(nodes, k, n); } else { OutputsOf(nodes, k, n); }
    }
  }

  /** Numbering keeps the users of every name. */
  lemma NumberedUsers<N(!new)>(nodes: seq<Node<N>>, ids: map<N, nat>, n: N)
    requires Numbers(ids, AllNames(nodes)) && n in ids
    ensures Users(Numbered(nodes, ids), ids[n]) == Users(nodes, n)
  {
    forall k: nat ensures Takes(Numbered(nodes, ids), k, ids[n]) <==> Takes(nodes, k, n) {
      if k < |nodes| {
        NodeNames(nodes, ids, k);
        RenamedHas(nodes[k].inputs, ids, AllNames(nodes), n);
      }
    }
    UsersIncrease(Numbered(nodes, ids), ids[n]);
    UsersIncrease(nodes, n);
    IncreasingUnique(Users(Numbered(nodes, ids), ids[n]), Users(nodes, n));
  }

  ghost function MakerOf<N(!new)>(nodes: seq<Node<N>>, n: N): nat {
    if exists k: nat :: Makes(nodes, k, n) then var k: nat :| Makes(nodes, k, n); k else 0
  }

  /** The graph the executor runs. */
  ghost function ExecutorGraph<N(!new)>(nodes: seq<Node<N>>, ids: map<N, nat>, start: nat, rank: seq<nat>): Graph {
    var names := Distinct(AllNames(nodes));
    Graph(Numbered(nodes, ids), |names|, start, seq(|names|, r requires 0 <= r < |names| => MakerOf(nodes, names[r])), rank)
  }

  lemma RenamedDistinct<N(!new)>(names: seq<N>, ids: map<N, nat>, all: seq<N>)
    requires Numbers(ids, all) && (forall n :: n in names ==> n in ids)
    requires Different(names)
    ensures var r := Renamed(names, ids);
            Different(r) && (forall i :: 0 <= i < |r| ==> r[i] < |Distinct(all)|)
  {
    var r := Renamed(names, ids);
    forall i | 0 <= i < |r| ensures r[i] < |Distinct(all)| && Distinct(all)[r[i]] == names[i] {
      NumbersInjective(ids, all, names[i]);
    }
  }

  lemma ProducerOfName<N(!new)>(nodes: seq<Node<N>>, ids: map<N, nat>, start: nat, rank: seq<nat>, n: N)
    requires WellNamed(nodes, start, rank) && Numbers(ids, AllNames(nodes)) && n in ids
    ensures ids[n] < |ExecutorGraph(nodes, ids, start, rank).producer|
    ensures var p := ExecutorGraph(nodes, ids, start, rank).producer[ids[n]];
            Makes(nodes, p, n) && forall k: nat :: Makes(nodes, k, n) ==> k == p
  {
    NumbersInjective(ids, AllNames(nodes), n);
    UsesAreUsers(nodes, start, rank, n);
  }

  lemma ExecutorInputOk<N(!new)>(nodes: seq<Node<N>>, ids: map<N, nat>, start: nat, rank: seq<nat>, k: nat, i: nat)
    requires WellNamed(nodes, start, rank) && Numbers(ids, AllNames(nodes)) && k < |nodes| && i < |nodes[k].inputs|
    ensures InputOk(ExecutorGraph(nodes, ids, start, rank), k, Renamed(nodes[k].inputs, ids)[i])
  {
    var n := nodes[k].inputs[i];
    NodeNames(nodes, ids, k);
    ProducerOfName(nodes, ids, start, rank, n);
    assert NamedNodeOk(nodes, start, rank, k);
    var p: nat :| Makes(nodes, p, n) && rank[p] < rank[k];
  }

  lemma ExecutorOutputOk<N(!new)>(nodes: seq<Node<N>>, ids: map<N, nat>, start: nat, rank: seq<nat>, k: nat, j: nat)
    requires WellNamed(nodes, start, rank) && Numbers(ids, AllNames(nodes)) && k < |nodes| && j < |nodes[k].outputs|
    ensures var g, r := ExecutorGraph(nodes, ids, start, rank), Renamed(nodes[k].outputs, ids)[j];
            r < g.regs && g.producer[r] == k
  {
    var n := nodes[k].outputs[j];
    NodeNames(nodes, ids, k);
    ProducerOfName(nodes, ids, start, rank, n);
    assert Makes(nodes, k, n);
  }

  lemma ExecutorNodeOk<N(!new)>(nodes: seq<Node<N>>, ids: map<N, nat>, start: nat, rank: seq<nat>, k: nat)
    requires WellNamed(nodes, start, rank) && Numbers(ids, AllNames(nodes)) && k < |nodes|
    ensures NodeOk(ExecutorGraph(nodes, ids, start, rank), k)
  {
    var g := ExecutorGraph(nodes, ids, start, rank);
    assert NamedNodeOk(nodes, start, rank, k);
    NodeNames(nodes, ids, k);
    RenamedDistinct(nodes[k].inputs, ids, AllNames(nodes));
    RenamedDistinct(nodes[k].outputs, ids, AllNames(nodes));
    forall i | 0 <= i < |g.nodes[k].inputs| ensures InputOk(g, k, g.nodes[k].inputs[i]) {
      ExecutorInputOk(nodes, ids, start, rank, k, i);
    }
    forall j | 0 <= j < |g.nodes[k].outputs| ensures g.nodes[k].outputs[j] < g.regs && g.producer[g.nodes[k].outputs[j]] == k {
      ExecutorOutputOk(nodes, ids, start, rank, k, j);
    }
  }

  /** Building a well-formed graph of names yields a well-formed graph of registers. */
  lemma BuildsWellFormed<N(!new)>(nodes: seq<Node<N>>, ids: map<N, nat>, start: nat, rank: seq<nat>)
    requires WellNamed(nodes, start, rank) && Numbers(ids, AllNames(nodes))
    ensures WellFormed(ExecutorGraph(nodes, ids, start, rank))
  {
    var g := ExecutorGraph(nodes, ids, start, rank);
    forall k | 0 <= k < |g.nodes| ensures NodeOk(g, k) {
      ExecutorNodeOk(nodes, ids, start, rank, k);
    }
    forall r | 0 <= r < g.regs ensures RegOk(g, r) {
      var n := Distinct(AllNames(nodes))[r];
      assert n in ids && ids[n] == r;
      ProducerOfName(nodes, ids, start, rank, n);
      NodeNames(nodes, ids, g.producer[r]);
      RenamedHas(nodes[g.producer[r]].outputs, ids, AllNames(nodes), n);
    }
  }

  /** What the build hands to the executor: use counts equal the number of users, the user lists are
      the users, a name is an output exactly if nobody uses it, and ready counters equal the number
      of inputs. */
  lemma BuiltTables<N(!new)>(nodes: seq<Node<N>>, ids: map<N, nat>, maker: map<N, nat>, counters: seq<nat>, start: nat, rank: seq<nat>)
    requires WellNamed(nodes, start, rank) && Numbers(ids, AllNames(nodes))
    requires LastProducer(maker, nodes) && Counted(counters, nodes, maker, AllOutputs(nodes))
    ensures forall n :: n in ids ==> Uses(nodes, n) == |Users(Numbered(nodes, ids), ids[n])|
    ensures forall k :: 0 <= k < |nodes| ==> counters[k] == |Numbered(nodes, ids)[k].inputs|
  {
    forall n | n in ids ensures Uses(nodes, n) == |Users(Numbered(nodes, ids), ids[n])| {
      UsesAreUsers(nodes, start, rank, n);
      NumberedUsers(nodes, ids, n);
    }
    forall k | 0 <= k < |nodes| ensures counters[k] == |nodes[k].inputs| {
      assert NamedNodeOk(nodes, start, rank, k);
      var n := nodes[k].outputs[0];
      assert Makes(nodes, k, n);
      OutputsOf(nodes, k, n);
      assert Makes(nodes, maker[n], n);
    }
  }
}
