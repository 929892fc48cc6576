/**
 Whole runs of the graph executor, in every interleaving: each kernel is processed at most once
 and only with all its inputs in place; every run ends; and when nothing is left to do, every
 register holds the value of the sequential evaluation and only the results are still owned.
 */
module GraphRuns {
  import opened Counting
  import opened Dataflow
  import opened GraphExecutor
  import opened GraphProofs

  ghost predicate StepAt(g: Graph, fn: Kernels, run: seq<State>, i: nat)
    requires WellFormed(g) && i + 1 < |run|
  {
    Next(g, fn, run[i], run[i + 1])
  }

  ghost predicate IsRun(g: Graph, fn: Kernels, args: seq<Val>, run: seq<State>)
    requires WellFormed(g)
  {
    |run| > 0 && Init(g, args, run[0]) && forall i :: 0 <= i < |run| - 1 ==> StepAt(g, fn, run, i)
  }

  lemma {:induction false} RunInv(g: Graph, fn: Kernels, args: seq<Val>, run: seq<State>, i: nat)
    requires WellFormed(g) && Compatible(g, fn, args) && IsRun(g, fn, args, run) && i < |run|
    ensures Inv(g, fn, args, run[i])
  {
    if i == 0 {
      InitInv(g, fn, args, run[0]);
    } else {
      RunInv(g, fn, args, run, i - 1);
      assert StepAt(g, fn, run, i - 1);
      NextInv(g, fn, args, run[i - 1], run[i]);
    }
  }

  /** In every reachable state a kernel has been processed at most once, the start node never, and
      a processed kernel had all its inputs available, with the values of the sequential evaluation.  Its
      counter is the number of inputs not yet released to it; that of the start node stays one. */
  lemma ProcessedOnceWhenReady(g: Graph, fn: Kernels, args: seq<Val>, run: seq<State>, i: nat, k: nat)
    requires WellFormed(g) && Compatible(g, fn, args) && IsRun(g, fn, args, run) && i < |run| && k < |g.nodes|
    ensures Sized(g, run[i]) && run[i].processed[k] <= (if k == g.start then 0 else 1)
    ensures run[i].invoked[k] <= run[i].processed[k]
    ensures run[i].counters[k] == if k == g.start then 1 else MissingAll(g, run[i].regs, k)
    ensures !run[i].kernels[k].Waiting? ==>
              forall j :: 0 <= j < |g.nodes[k].inputs| ==>
                var r := g.nodes[k].inputs[j];
                r < g.regs && run[i].regs[r].Released? && run[i].regs[r].v == EvalReg(g, fn, args, r)
  {
    RunInv(g, fn, args, run, i);
    assert KernelAt(g, run[i], k) && ResultsAt(g, fn, args, run[i], k);
    if !run[i].kernels[k].Waiting? {
      InputsAvailable(g, fn, args, run[i], k);
    }
  }

  /** The users of r that have not dropped their reference on it. */
  function Holders(g: Graph, s: State, r: nat): nat
    requires Sized(g, s)
  {
    Holding(g, s.kernels, r, Users(g.nodes, r))
  }

  /** The register has its value in its slot: released, or an argument or unused result that may still
      be pending. */
  predicate InSlot(x: Reg) { x.Released? || (x.Pending? && x.filled) }

  /** Register r is a result: nobody uses it, and a kernel of the graph makes it. */
  predicate IsResult(g: Graph, r: nat)
    requires WellFormed(g) && r < g.regs
  {
    UserCount(g, r) == 0 && g.producer[r] != g.start
  }

  /** In every reachable state the references a slot owns are exactly one per user that has not dropped
      its own, or for a result the one of the caller, from the moment it is filled; none before. */
  lemma ReferencesExact(g: Graph, fn: Kernels, args: seq<Val>, run: seq<State>, i: nat, r: nat)
    requires WellFormed(g) && Compatible(g, fn, args) && IsRun(g, fn, args, run) && i < |run| && r < g.regs
    ensures Sized(g, run[i])
    ensures run[i].owned[r] == if !InSlot(run[i].regs[r]) then 0 else if IsResult(g, r) then 1 else Holders(g, run[i], r)
    ensures !run[i].regs[r].Released? ==> Holders(g, run[i], r) == UserCount(g, r)
  {
    RunInv(g, fn, args, run, i);
    assert OwnedAt(g, run[i], r);
    if !run[i].regs[r].Released? { NobodyDropped(g, fn, args, run[i], r); }
  }

  /** Nothing is released early: as long as some user of a filled register, pending arguments included,
      has not dropped its reference, the slot owns one. */
  lemma NothingReleasedEarly(g: Graph, fn: Kernels, args: seq<Val>, run: seq<State>, i: nat, r: nat, u: nat)
    requires WellFormed(g) && Compatible(g, fn, args) && IsRun(g, fn, args, run) && i < |run|
    requires r < g.regs && u in Users(g.nodes, r)
    ensures Sized(g, run[i]) && run[i].owned[r] >= 0
    ensures InSlot(run[i].regs[r]) && !Dropped(run[i].kernels[u], g.nodes[u].inputs, r) ==> run[i].owned[r] > 0
  {
    ReferencesExact(g, fn, args, run, i, r);
    HoldingBounds(g, run[i].kernels, r, Users(g.nodes, r));
  }

  // ------------------------------------------------------------ when nothing is left to do

  ghost predicate Quiescent(g: Graph, s: State) {
    forall act :: !Enabled(g, s, act)
  }

  predicate KernelFinished(g: Graph, s: State, k: nat)
    requires Sized(g, s) && k < |g.nodes|
  {
    s.kernels[k].Called? && s.kernels[k].step == |g.nodes[k].inputs| + |g.nodes[k].outputs|
  }

  lemma NoKernelStep(g: Graph, fn: Kernels, args: seq<Val>, s: State, k: nat)
    requires WellFormed(g) && Compatible(g, fn, args) && Inv(g, fn, args, s) && Quiescent(g, s)
    requires k < |g.nodes| && k != g.start && MissingAll(g, s.regs, k) == 0
    ensures KernelFinished(g, s, k)
  {
    assert KernelAt(g, s, k) && ResultsAt(g, fn, args, s, k);
    InputsInRange(g, k);
    assert !Enabled(g, s, Process(k)) && !Enabled(g, s, DropArg(k)) && !Enabled(g, s, Publish(k));
  }

  lemma {:induction false} KernelsFinish(g: Graph, fn: Kernels, args: seq<Val>, s: State, k: nat)
    requires WellFormed(g) && Compatible(g, fn, args) && Inv(g, fn, args, s) && Quiescent(g, s)
    requires k < |g.nodes| && k != g.start
    ensures KernelFinished(g, s, k)
    decreases g.rank[k], 0
  {
    InputsInRange(g, k);
    forall i | 0 <= i < |g.nodes[k].inputs| ensures InputReleased(g, s.regs, k, i) {
      var r := g.nodes[k].inputs[i];
      assert InputOk(g, k, r) by { assert NodeOk(g, k); }
      RegsFinish(g, fn, args, s, r);
      assert Takes(g.nodes, k, r);
      assert Users(g.nodes, r)[..UserCount(g, r)] == Users(g.nodes, r);
    }
    MissingNone(g, s.regs, k, |g.nodes[k].inputs|);
    NoKernelStep(g, fn, args, s, k);
  }

  lemma {:induction false} RegsFinish(g: Graph, fn: Kernels, args: seq<Val>, s: State, r: nat)
    requires WellFormed(g) && Compatible(g, fn, args) && Inv(g, fn, args, s) && Quiescent(g, s)
    requires r < g.regs
    ensures s.regs[r] == Released(EvalReg(g, fn, args, r), UserCount(g, r))
    decreases assert RegOk(g, r); g.rank[g.producer[r]], 1
  {
    assert RegOk(g, r) && RegAt(g, fn, args, s, r);
    var k := g.producer[r];
    if k != g.start {
      KernelsFinish(g, fn, args, s, k);
    }
    assert !Enabled(g, s, Resolve(r)) && !Enabled(g, s, Release(r));
  }

  /** Confluence: when nothing is left to do, every kernel but the start node was processed exactly
      once, its function ran exactly if no input was an error, every register equals the sequential
      evaluation, and what remains owned is one reference per result and nothing else. */
  lemma QuiescentIsSequential(g: Graph, fn: Kernels, args: seq<Val>, run: seq<State>, i: nat)
    requires WellFormed(g) && Compatible(g, fn, args) && IsRun(g, fn, args, run) && i < |run|
    requires Quiescent(g, run[i])
    ensures Sized(g, run[i])
    ensures forall k :: 0 <= k < |g.nodes| && k != g.start ==>
              && run[i].processed[k] == 1
              && run[i].invoked[k] == (if InputsFine(g, fn, args, k) then 1 else 0)
    ensures forall r :: 0 <= r < g.regs ==>
              && run[i].regs[r] == Released(EvalReg(g, fn, args, r), UserCount(g, r))
              && run[i].owned[r] == (if IsResult(g, r) then 1 else 0)
  {
    RunInv(g, fn, args, run, i);
    var s := run[i];
    forall k | 0 <= k < |g.nodes| && k != g.start
      ensures s.processed[k] == 1 && s.invoked[k] == (if InputsFine(g, fn, args, k) then 1 else 0)
    {
      KernelsFinish(g, fn, args, s, k);
      assert KernelAt(g, s, k) && ResultsAt(g, fn, args, s, k);
    }
    forall r | 0 <= r < g.regs
      ensures s.regs[r] == Released(EvalReg(g, fn, args, r), UserCount(g, r))
      ensures s.owned[r] == (if IsResult(g, r) then 1 else 0)
    {
      RegsFinish(g, fn, args, s, r);
      AllDropped(g, fn, args, s, r);
      assert OwnedAt(g, s, r);
    }
  }

  /** The values found in the registers. */
  function RegisterValues(regs: seq<Reg>): nat -> Val {
    (r: nat) => if r < |regs| then ArgValue(regs[r]) else Ok(0)
  }

  /** When nothing is left to do the registers hold what the graph means: the arguments on the outputs
      of the start node and, for every other node, what its kernel makes of the values in its argument
      registers, in their order, or the last error among these. */
  lemma QuiescentSolvesNode(g: Graph, fn: Kernels, args: seq<Val>, run: seq<State>, i: nat, k: nat)
    requires WellFormed(g) && Compatible(g, fn, args) && IsRun(g, fn, args, run) && i < |run|
    requires Quiescent(g, run[i]) && k < |g.nodes|
    ensures NodeEquation(g.nodes[k], fn, k, args, RegisterValues(run[i].regs))
  {
    var nd, v, e := g.nodes[k], RegisterValues(run[i].regs), EvalAll(g, fn, args);
    QuiescentIsSequential(g, fn, args, run, i);
    EvaluationIsSolution(g, fn, args, k);
    assert NodeOk(g, k);
    InputsInRange(g, k);
    assert ValuesOf(v, nd.inputs) == ValuesOf(e, nd.inputs);
    assert ValuesOf(v, nd.outputs) == ValuesOf(e, nd.outputs);
    forall j: nat, n | IsLastError(ValuesOf(v, nd.inputs), j) && n in nd.outputs ensures v(n) == v(nd.inputs[j]) {
      assert v(n) == e(n);
    }
  }

  /** The registers nobody uses are handed to the caller, each with the reference its slot owns.  There
      is one exactly if a kernel made the value: an argument that nobody uses comes back as an output
      without a reference of its own. */
  lemma OutputsOwned(g: Graph, fn: Kernels, args: seq<Val>, run: seq<State>, i: nat, r: nat)
    requires WellFormed(g) && Compatible(g, fn, args) && IsRun(g, fn, args, run) && i < |run|
    requires Quiescent(g, run[i]) && r < g.regs && UserCount(g, r) == 0
    ensures Sized(g, run[i]) && 0 <= run[i].owned[r] <= 1
    ensures run[i].owned[r] == 1 <==> r !in g.nodes[g.start].outputs
  {
    QuiescentIsSequential(g, fn, args, run, i);
    assert RegOk(g, r) && NodeOk(g, g.start);
  }

  lemma AllDropped(g: Graph, fn: Kernels, args: seq<Val>, s: State, r: nat)
    requires WellFormed(g) && Compatible(g, fn, args) && Inv(g, fn, args, s) && Quiescent(g, s) && r < g.regs
    ensures Holding(g, s.kernels, r, Users(g.nodes, r)) == 0
  {
    forall u | u in Users(g.nodes, r) ensures Dropped(s.kernels[u], g.nodes[u].inputs, r) {
      assert NodeOk(g, u);
      KernelsFinish(g, fn, args, s, u);
    }
    HoldingBounds(g, s.kernels, r, Users(g.nodes, r));
  }

  // ------------------------------------------------------------ every run ends

  /** Steps a register still has before it. */
  function RegWork(x: Reg, uses: nat): nat {
    match x
    case Unproduced => uses + 2
    case Pending(_, _) => uses + 1
    case Released(_, n) => if n <= uses then uses - n else 0
  }

  /** Steps a kernel still has before it. */
  function KernelWork(x: Kernel, nd: Node<nat>): nat {
    var n := |nd.inputs| + |nd.outputs|;
    match x
    case Waiting => n + 2
    case Ready => n + 1
    case Called(step, _) => if step <= n then n - step else 0
  }

  function RegsWork(g: Graph, regs: seq<Reg>): seq<nat> {
    seq(|regs|, r requires 0 <= r < |regs| => RegWork(regs[r], UserCount(g, r)))
  }

  function KernelsWork(g: Graph, ks: seq<Kernel>): seq<nat>
    requires |ks| == |g.nodes|
  {
    seq(|ks|, k requires 0 <= k < |ks| => KernelWork(ks[k], g.nodes[k]))
  }

  function Work(g: Graph, s: State): nat
    requires Sized(g, s)
  {
    Total(RegsWork(g, s.regs)) + Total(KernelsWork(g, s.kernels))
  }

  lemma RegsWorkUpdate(g: Graph, regs: seq<Reg>, r: nat, x: Reg)
    requires r < |regs|
    ensures Total(RegsWork(g, regs[r := x])) ==
            Total(RegsWork(g, regs)) - RegWork(regs[r], UserCount(g, r)) + RegWork(x, UserCount(g, r))
  {
    var ws := RegsWork(g, regs);
    TotalUpdate(ws, r, RegWork(x, UserCount(g, r)));
    assert RegsWork(g, regs[r := x]) == ws[r := RegWork(x, UserCount(g, r))];
  }

  lemma KernelsWorkUpdate(g: Graph, ks: seq<Kernel>, k: nat, x: Kernel)
    requires |ks| == |g.nodes| && k < |ks|
    ensures Total(KernelsWork(g, ks[k := x])) ==
            Total(KernelsWork(g, ks)) - KernelWork(ks[k], g.nodes[k]) + KernelWork(x, g.nodes[k])
  {
    var ws := KernelsWork(g, ks);
    TotalUpdate(ws, k, KernelWork(x, g.nodes[k]));
    assert KernelsWork(g, ks[k := x]) == ws[k := KernelWork(x, g.nodes[k])];
  }

  lemma ReleaseWorks(g: Graph, fn: Kernels, args: seq<Val>, s: State, r: nat, s': State)
    requires WellFormed(g) && Compatible(g, fn, args) && Inv(g, fn, args, s)
    requires Enabled(g, s, Release(r)) && s' == RunRelease(g, s, r)
    ensures Sized(g, s') && Work(g, s') < Work(g, s)
  {
    var u := Users(g.nodes, r)[s.regs[r].done];
    ReleasesWaiting(g, fn, args, s, r);
    RegsWorkUpdate(g, s.regs, r, s'.regs[r]);
    KernelsWorkUpdate(g, s.kernels, u, Ready);
  }

  lemma PublishWorks(g: Graph, fn: Kernels, args: seq<Val>, s: State, k: nat, s': State)
    requires WellFormed(g) && Compatible(g, fn, args) && Inv(g, fn, args, s)
    requires Enabled(g, s, Publish(k)) && s' == RunPublish(g, s, k)
    ensures Sized(g, s') && Work(g, s') < Work(g, s)
  {
    PublishesFresh(g, fn, args, s, k);
    var r := g.nodes[k].outputs[s.kernels[k].step - |g.nodes[k].inputs|];
    RegsWorkUpdate(g, s.regs, r, s'.regs[r]);
    KernelsWorkUpdate(g, s.kernels, k, s'.kernels[k]);
  }

  lemma StepWorks(g: Graph, fn: Kernels, args: seq<Val>, s: State, s': State)
    requires WellFormed(g) && Compatible(g, fn, args) && Inv(g, fn, args, s) && Next(g, fn, s, s')
    ensures Sized(g, s') && Work(g, s') < Work(g, s)
  {
    var act :| Enabled(g, s, act) && s' == Apply(g, fn, s, act);
    match act
    case Resolve(r) => RegsWorkUpdate(g, s.regs, r, s'.regs[r]);
    case Release(r) => ReleaseWorks(g, fn, args, s, r, s');
    case Process(k) => KernelsWorkUpdate(g, s.kernels, k, s'.kernels[k]);
    case DropArg(k) => KernelsWorkUpdate(g, s.kernels, k, s'.kernels[k]);
    case Publish(k) => PublishWorks(g, fn, args, s, k, s');
  }

  /** Every run is finite: no run takes more steps than the work of its first state. */
  lemma {:induction false} RunsEnd(g: Graph, fn: Kernels, args: seq<Val>, run: seq<State>, i: nat)
    requires WellFormed(g) && Compatible(g, fn, args) && IsRun(g, fn, args, run) && i < |run|
    ensures Sized(g, run[0]) && Sized(g, run[i]) && Work(g, run[i]) + i <= Work(g, run[0])
  {
    if i > 0 {
      RunsEnd(g, fn, args, run, i - 1);
      RunInv(g, fn, args, run, i - 1);
      assert StepAt(g, fn, run, i - 1);
      StepWorks(g, fn, args, run[i - 1], run[i]);
    }
  }

  lemma OneMore(g: Graph, fn: Kernels, args: seq<Val>, run: seq<State>) returns (more: bool, longer: seq<State>)
    requires WellFormed(g) && Compatible(g, fn, args) && IsRun(g, fn, args, run) && Sized(g, run[|run| - 1])
    ensures more ==> IsRun(g, fn, args, longer) && run <= longer && |longer| == |run| + 1 && Sized(g, longer[|run|])
                     && Work(g, longer[|run|]) < Work(g, run[|run| - 1])
    ensures !more ==> Quiescent(g, run[|run| - 1])
  {
    var s := run[|run| - 1];
    more, longer := false, run;
    if act :| Enabled(g, s, act) {
      RunInv(g, fn, args, run, |run| - 1);
      more, longer := true, run + [Apply(g, fn, s, act)];
      StepWorks(g, fn, args, s, Apply(g, fn, s, act));
      forall i | 0 <= i < |longer| - 1 ensures StepAt(g, fn, longer, i) {
        if i < |run| - 1 { assert StepAt(g, fn, run, i); }
      }
    }
  }

  lemma {:induction false} Extend(g: Graph, fn: Kernels, args: seq<Val>, run: seq<State>) returns (full: seq<State>)
    requires WellFormed(g) && Compatible(g, fn, args) && IsRun(g, fn, args, run) && Sized(g, run[|run| - 1])
    ensures IsRun(g, fn, args, full) && run <= full && Quiescent(g, full[|full| - 1])
    decreases Work(g, run[|run| - 1])
  {
    var more, longer := OneMore(g, fn, args, run);
    if more {
      full := Extend(g, fn, args, longer);
    } else {
      full := run;
    }
  }

  /** Every run, wherever it has got to, can be continued until nothing is left to do, and however it
      is continued it gets there with the values of the sequential evaluation. */
  lemma RunsComplete(g: Graph, fn: Kernels, args: seq<Val>, run: seq<State>) returns (full: seq<State>)
    requires WellFormed(g) && Compatible(g, fn, args) && IsRun(g, fn, args, run)
    ensures IsRun(g, fn, args, full) && run <= full && Quiescent(g, full[|full| - 1])
    ensures Sized(g, full[|full| - 1])
    ensures forall r :: 0 <= r < g.regs ==>
              full[|full| - 1].regs[r] == Released(EvalReg(g, fn, args, r), UserCount(g, r))
  {
    RunInv(g, fn, args, run, |run| - 1);
    full := Extend(g, fn, args, run);
    QuiescentIsSequential(g, fn, args, full, |full| - 1);
  }
}
