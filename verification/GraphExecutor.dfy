/**
 GraphExecutor (async/runtime/graph.cpp) as a state machine over its atomic steps, for any number
 of worker threads: every interleaving of releasing users, processing ready kernels, dropping
 argument references and resolving asynchronous results.

 A register becomes `Pending` when its kernel handed over a result that may still be unavailable,
 and `Released` once it is available; each user of the register is then released by one
 fetch_sub on the user's counter.  Kernels that become ready may be processed at any time by
 anyone, which covers running them inline, in a ready list or in the work queue.
 */
module GraphExecutor {
  import opened Counting
  import opened Dataflow

  datatype Reg =
    | Unproduced
    | Pending(v: Val, filled: bool)    // handed over, perhaps not available; is it in its slot?
    | Released(v: Val, done: nat)      // the first `done` users have been released

  datatype Kernel =
    | Waiting
    | Ready
    | Called(step: nat, results: seq<Val>)   // drops its arguments one by one, then hands over its results

  /** owned[r]: references the register slot holds, or the one held for the caller.
      processed[k]: how often kernel k was processed; invoked[k]: how often its function ran. */
  datatype State = State(regs: seq<Reg>, counters: seq<int>, kernels: seq<Kernel>, owned: seq<int>,
                         processed: seq<nat>, invoked: seq<nat>)

  datatype Action =
    | Resolve(r: nat)       // a result becomes available and fills its slot
    | Release(r: nat)       // DecreaseReadyCountAndPush for one user
    | Process(k: nat)       // ProcessReadyKernel up to the kernel call
    | DropArg(k: nat)       // drop the reference on one argument
    | Publish(k: nat)       // hand over one result

  predicate Sized(g: Graph, s: State) {
    |s.regs| == |s.owned| == g.regs && |s.counters| == |s.kernels| == |s.processed| == |s.invoked| == |g.nodes|
  }

  predicate Enabled(g: Graph, s: State, act: Action) {
    && Sized(g, s)
    && match act
       case Resolve(r) => r < g.regs && s.regs[r].Pending?
       case Release(r) => r < g.regs && s.regs[r].Released? && s.regs[r].done < |Users(g.nodes, r)|
       case Process(k) => k < |g.nodes| && s.kernels[k].Ready?
       case DropArg(k) => k < |g.nodes| && s.kernels[k].Called? && s.kernels[k].step < |g.nodes[k].inputs|
                          && g.nodes[k].inputs[s.kernels[k].step] < g.regs
       case Publish(k) => k < |g.nodes| && s.kernels[k].Called?
                          && |g.nodes[k].inputs| <= s.kernels[k].step < |g.nodes[k].inputs| + |g.nodes[k].outputs|
                          && |s.kernels[k].results| == |g.nodes[k].outputs|
  }

  /** mUserCount of a register: its uses as an argument. */
  function UserCount(g: Graph, r: nat): nat { |Users(g.nodes, r)| }

  /** The value found in an argument slot. */
  function ArgValue(x: Reg): Val { if x.Unproduced? then Err(0) else x.v }

  function ArgValues(g: Graph, s: State, k: nat): (vals: seq<Val>)
    requires Sized(g, s) && k < |g.nodes|
    requires forall i :: 0 <= i < |g.nodes[k].inputs| ==> g.nodes[k].inputs[i] < g.regs
  {
    seq(|g.nodes[k].inputs|, i requires 0 <= i < |g.nodes[k].inputs| => ArgValue(s.regs[g.nodes[k].inputs[i]]))
  }

  function Apply(g: Graph, fn: Kernels, s: State, act: Action): State
    requires WellFormed(g) && Enabled(g, s, act)
  {
    match act
    case Resolve(r) =>
      s.(regs := s.regs[r := Released(s.regs[r].v, 0)],
         owned := s.owned[r := if s.regs[r].filled then s.owned[r] else s.owned[r] + UserCount(g, r)])
    case Release(r) => RunRelease(g, s, r)
    case Process(k) =>
      assert NodeOk(g, k);
      var vals := ArgValues(g, s, k);
      s.(kernels := s.kernels[k := Called(0, NodeResults(fn, k, vals, |g.nodes[k].outputs|))],
         processed := s.processed[k := s.processed[k] + 1],
         invoked := s.invoked[k := s.invoked[k] + (if LastError(vals) == [] then 1 else 0)])
    case DropArg(k) =>
      var r := g.nodes[k].inputs[s.kernels[k].step];
      s.(owned := s.owned[r := s.owned[r] - 1],
         kernels := s.kernels[k := Called(s.kernels[k].step + 1, s.kernels[k].results)])
    case Publish(k) => RunPublish(g, s, k)
  }

  function RunRelease(g: Graph, s: State, r: nat): State
    requires WellFormed(g) && Enabled(g, s, Release(r))
  {
    var u := Users(g.nodes, r)[s.regs[r].done];
    assert u in Users(g.nodes, r);
    s.(regs := s.regs[r := Released(s.regs[r].v, s.regs[r].done + 1)],
       counters := s.counters[u := s.counters[u] - 1],
       kernels := if s.counters[u] == 1 then s.kernels[u := Ready] else s.kernels)
  }

  /** The next result of k becomes pending.  A result nobody uses goes into its slot at once, with
      the one reference that is handed to the caller. */
  function RunPublish(g: Graph, s: State, k: nat): (s': State)
    requires WellFormed(g) && Enabled(g, s, Publish(k))
  {
    assert NodeOk(g, k);
    var j := s.kernels[k].step - |g.nodes[k].inputs|;
    var r := g.nodes[k].outputs[j];
    s.(regs := s.regs[r := Pending(s.kernels[k].results[j], UserCount(g, r) == 0)],
       owned := s.owned[r := if UserCount(g, r) == 0 then s.owned[r] + 1 else s.owned[r]],
       kernels := s.kernels[k := Called(s.kernels[k].step + 1, s.kernels[k].results)])
  }

  ghost predicate Next(g: Graph, fn: Kernels, s: State, s': State)
    requires WellFormed(g)
  {
    exists act :: Enabled(g, s, act) && s' == Apply(g, fn, s, act)
  }

  /** mArgumentsNotReady starts at max(1, number of inputs). */
  function InitialCounter(n: nat): int { if n > 1 then n else 1 }

  /** The state after InitializeArgumentRegisters: argument slots hold their users' references,
      which are none for an argument nobody uses.  The first argument is available; the others may still be pending. */
  predicate Init(g: Graph, args: seq<Val>, s: State)
    requires WellFormed(g)
  {
    && Sized(g, s) && |args| == |g.nodes[g.start].outputs|
    && (forall k :: 0 <= k < |g.nodes| ==>
          s.counters[k] == InitialCounter(|g.nodes[k].inputs|) && s.kernels[k] == Waiting && s.processed[k] == 0 && s.invoked[k] == 0)
    && (forall r :: 0 <= r < g.regs && g.producer[r] != g.start ==> s.regs[r] == Unproduced && s.owned[r] == 0)
    && (forall j :: 0 <= j < |args| ==> ArgumentAt(g, args, s, j))
  }

  predicate ArgumentAt(g: Graph, args: seq<Val>, s: State, j: nat)
    requires WellFormed(g) && Sized(g, s) && j < |args| == |g.nodes[g.start].outputs|
  {
    var r := g.nodes[g.start].outputs[j];
    && r < g.regs && s.owned[r] == UserCount(g, r)
    && (s.regs[r] == Released(args[j], 0) || (j > 0 && s.regs[r] == Pending(args[j], true)))
  }

  /** Every well-formed graph can be started, for example with all its arguments available. */
  lemma CanStart(g: Graph, args: seq<Val>) returns (s: State)
    requires WellFormed(g) && |args| == |g.nodes[g.start].outputs|
    ensures Init(g, args, s)
  {
    var outs := g.nodes[g.start].outputs;
    assert NodeOk(g, g.start);
    s := State(
      seq(g.regs, r requires 0 <= r < g.regs => if r in outs then Released(args[IndexOf(outs, r)], 0) else Unproduced),
      seq(|g.nodes|, k requires 0 <= k < |g.nodes| => InitialCounter(|g.nodes[k].inputs|)),
      seq(|g.nodes|, _ => Waiting),
      seq(g.regs, r requires 0 <= r < g.regs => if r in outs then UserCount(g, r) else 0),
      seq(|g.nodes|, _ => 0), seq(|g.nodes|, _ => 0));
    forall j | 0 <= j < |args| ensures ArgumentAt(g, args, s, j) {
      assert outs[j] in outs;
      IndexUnique(outs, j);
    }
  }

  lemma IndexUnique(s: seq<nat>, j: nat)
    requires j < |s| && forall a, b :: 0 <= a < b < |s| ==> s[a] != s[b]
    ensures IndexOf(s, s[j]) == j
  {
  }
}
