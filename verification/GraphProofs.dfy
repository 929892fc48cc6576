/**
 What every run of the graph executor keeps: each kernel is processed at most once and only after
 all its inputs are available, every register that has a value has the value of the sequential
 evaluation, and the references a slot owns are exactly the uses not yet dropped.
 */
module GraphProofs {
  import opened Dataflow
  import opened GraphExecutor

  /** Register x has been released to its user k. */
  predicate ReleasedTo(x: Reg, users: seq<nat>, k: nat) {
    x.Released? && x.done <= |users| && k in users[..x.done]
  }

  /** Inputs of k, among the first n, not yet released to k. */
  function Missing(g: Graph, regs: seq<Reg>, k: nat, n: nat): nat
    requires k < |g.nodes| && n <= |g.nodes[k].inputs| && |regs| == g.regs
    requires forall i :: 0 <= i < |g.nodes[k].inputs| ==> g.nodes[k].inputs[i] < g.regs
  {
    if n == 0 then 0
    else
      var r := g.nodes[k].inputs[n - 1];
      Missing(g, regs, k, n - 1) + (if ReleasedTo(regs[r], Users(g.nodes, r), k) then 0 else 1)
  }

  function MissingAll(g: Graph, regs: seq<Reg>, k: nat): nat
    requires WellFormed(g) && k < |g.nodes| && |regs| == g.regs
  {
    assert NodeOk(g, k);
    assert forall i :: 0 <= i < |g.nodes[k].inputs| ==> InputOk(g, k, g.nodes[k].inputs[i]);
    Missing(g, regs, k, |g.nodes[k].inputs|)
  }

  lemma {:induction false} MissingSame(g: Graph, regs: seq<Reg>, regs': seq<Reg>, k: nat, n: nat)
    requires k < |g.nodes| && n <= |g.nodes[k].inputs| && |regs| == |regs'| == g.regs
    requires forall i :: 0 <= i < |g.nodes[k].inputs| ==> g.nodes[k].inputs[i] < g.regs
    requires forall i :: 0 <= i < n ==>
               var r := g.nodes[k].inputs[i];
               ReleasedTo(regs'[r], Users(g.nodes, r), k) == ReleasedTo(regs[r], Users(g.nodes, r), k)
    ensures Missing(g, regs', k, n) == Missing(g, regs, k, n)
  {
    if n > 0 { MissingSame(g, regs, regs', k, n - 1); }
  }

  /** Releasing exactly the i-th input lowers the count by one. */
  lemma {:induction false} MissingDrops(g: Graph, regs: seq<Reg>, regs': seq<Reg>, k: nat, n: nat, i: nat)
    requires k < |g.nodes| && i < n <= |g.nodes[k].inputs| && |regs| == |regs'| == g.regs
    requires forall j :: 0 <= j < |g.nodes[k].inputs| ==> g.nodes[k].inputs[j] < g.regs
    requires forall j :: 0 <= j < n && j != i ==>
               var r := g.nodes[k].inputs[j];
               ReleasedTo(regs'[r], Users(g.nodes, r), k) == ReleasedTo(regs[r], Users(g.nodes, r), k)
    requires var r := g.nodes[k].inputs[i];
             !ReleasedTo(regs[r], Users(g.nodes, r), k) && ReleasedTo(regs'[r], Users(g.nodes, r), k)
    ensures Missing(g, regs', k, n) == Missing(g, regs, k, n) - 1
  {
    if i == n - 1 { MissingSame(g, regs, regs', k, n - 1); } else { MissingDrops(g, regs, regs', k, n - 1, i); }
  }

  predicate InputReleased(g: Graph, regs: seq<Reg>, k: nat, i: nat)
    requires k < |g.nodes| && i < |g.nodes[k].inputs| && g.nodes[k].inputs[i] < |regs|
  {
    ReleasedTo(regs[g.nodes[k].inputs[i]], Users(g.nodes, g.nodes[k].inputs[i]), k)
  }

  /** Nothing missing means that every input has been released to k. */
  lemma {:induction false} MissingZero(g: Graph, regs: seq<Reg>, k: nat, n: nat, i: nat)
    requires k < |g.nodes| && i < n <= |g.nodes[k].inputs| && |regs| == g.regs
    requires forall j :: 0 <= j < |g.nodes[k].inputs| ==> g.nodes[k].inputs[j] < g.regs
    requires Missing(g, regs, k, n) == 0
    ensures InputReleased(g, regs, k, i)
  {
    if i < n - 1 { MissingZero(g, regs, k, n - 1, i); }
  }

  /** If every input has been released to k, nothing is missing. */
  lemma {:induction false} MissingNone(g: Graph, regs: seq<Reg>, k: nat, n: nat)
    requires k < |g.nodes| && n <= |g.nodes[k].inputs| && |regs| == g.regs
    requires forall i :: 0 <= i < |g.nodes[k].inputs| ==> g.nodes[k].inputs[i] < g.regs
    requires forall i :: 0 <= i < n ==> InputReleased(g, regs, k, i)
    ensures Missing(g, regs, k, n) == 0
  {
    if n > 0 {
      MissingNone(g, regs, k, n - 1);
      assert InputReleased(g, regs, k, n - 1);
    }
  }

  lemma {:induction false} MissingFull(g: Graph, regs: seq<Reg>, k: nat, n: nat)
    requires k < |g.nodes| && n <= |g.nodes[k].inputs| && |regs| == g.regs
    requires forall i :: 0 <= i < |g.nodes[k].inputs| ==> g.nodes[k].inputs[i] < g.regs
    requires forall i :: 0 <= i < n ==> !InputReleased(g, regs, k, i)
    ensures Missing(g, regs, k, n) == n
  {
    if n > 0 {
      MissingFull(g, regs, k, n - 1);
      assert !InputReleased(g, regs, k, n - 1);
    }
  }

  // ------------------------------------------------------------ references

  /** User k has dropped its reference on register r. */
  predicate Dropped(x: Kernel, inputs: seq<nat>, r: nat) {
    x.Called? && r in if x.step <= |inputs| then inputs[..x.step] else inputs
  }

  /** Users, among the given ones, that still hold their reference on r. */
  function Holding(g: Graph, kernels: seq<Kernel>, r: nat, users: seq<nat>): nat
    requires |kernels| == |g.nodes| && forall i :: 0 <= i < |users| ==> users[i] < |g.nodes|
  {
    if users == [] then 0
    else
      var u := users[|users| - 1];
      Holding(g, kernels, r, users[..|users| - 1]) + (if Dropped(kernels[u], g.nodes[u].inputs, r) then 0 else 1)
  }

  lemma {:induction false} HoldingSame(g: Graph, ks: seq<Kernel>, ks': seq<Kernel>, r: nat, users: seq<nat>)
    requires |ks| == |ks'| == |g.nodes| && forall i :: 0 <= i < |users| ==> users[i] < |g.nodes|
    requires forall u :: u in users ==> Dropped(ks'[u], g.nodes[u].inputs, r) == Dropped(ks[u], g.nodes[u].inputs, r)
    ensures Holding(g, ks', r, users) == Holding(g, ks, r, users)
  {
    if users != [] {
      var rest := users[..|users| - 1];
      assert forall u :: u in rest ==> u in users;
      HoldingSame(g, ks, ks', r, rest);
    }
  }

  lemma HoldingUpdate(g: Graph, ks: seq<Kernel>, k: nat, x: Kernel, r: nat)
    requires |ks| == |g.nodes| && k < |g.nodes|
    requires Dropped(x, g.nodes[k].inputs, r) == Dropped(ks[k], g.nodes[k].inputs, r)
    ensures Holding(g, ks[k := x], r, Users(g.nodes, r)) == Holding(g, ks, r, Users(g.nodes, r))
  {
    HoldingSame(g, ks, ks[k := x], r, Users(g.nodes, r));
  }

  lemma {:induction false} HoldingDrops(g: Graph, ks: seq<Kernel>, ks': seq<Kernel>, r: nat, users: seq<nat>, k: nat)
    requires |ks| == |ks'| == |g.nodes| && forall i :: 0 <= i < |users| ==> users[i] < |g.nodes|
    requires k in users && Increasing(users)
    requires forall u :: u in users && u != k ==> Dropped(ks'[u], g.nodes[u].inputs, r) == Dropped(ks[u], g.nodes[u].inputs, r)
    requires !Dropped(ks[k], g.nodes[k].inputs, r) && Dropped(ks'[k], g.nodes[k].inputs, r)
    ensures Holding(g, ks', r, users) == Holding(g, ks, r, users) - 1
  {
    var rest := users[..|users| - 1];
    assert forall u :: u in rest ==> u in users;
    if users[|users| - 1] == k {
      HoldingSame(g, ks, ks', r, rest);
    } else {
      HoldingDrops(g, ks, ks', r, rest, k);
    }
  }

  lemma {:induction false} HoldingBounds(g: Graph, ks: seq<Kernel>, r: nat, users: seq<nat>)
    requires |ks| == |g.nodes| && forall i :: 0 <= i < |users| ==> users[i] < |g.nodes|
    ensures (forall u :: u in users ==> !Dropped(ks[u], g.nodes[u].inputs, r)) ==> Holding(g, ks, r, users) == |users|
    ensures (forall u :: u in users ==> Dropped(ks[u], g.nodes[u].inputs, r)) <==> Holding(g, ks, r, users) == 0
  {
    if users != [] {
      var rest := users[..|users| - 1];
      assert forall u :: u in users <==> u in rest || u == users[|users| - 1];
      HoldingBounds(g, ks, r, rest);
    }
  }

  // ------------------------------------------------------------ the invariant

  predicate KernelAt(g: Graph, s: State, k: nat)
    requires WellFormed(g) && Sized(g, s) && k < |g.nodes|
  {
    if k == g.start then s.kernels[k].Waiting? && s.processed[k] == 0 && s.counters[k] == 1
    else
      && s.counters[k] == MissingAll(g, s.regs, k)
      && (s.kernels[k].Waiting? <==> s.counters[k] > 0)
      && s.processed[k] == (if s.kernels[k].Waiting? || s.kernels[k].Ready? then 0 else 1)
      && (s.kernels[k].Called? ==> s.kernels[k].step <= |g.nodes[k].inputs| + |g.nodes[k].outputs|)
  }

  /** The function of k is called by the sequential evaluation: no input is an error. */
  ghost predicate InputsFine(g: Graph, fn: Kernels, args: seq<Val>, k: nat)
    requires WellFormed(g) && Compatible(g, fn, args) && k < |g.nodes|
  {
    AllOk(EvalInputs(g, fn, args, k, |g.nodes[k].inputs|))
  }

  /** The results a kernel computed are those of the sequential evaluation. */
  ghost predicate ResultsAt(g: Graph, fn: Kernels, args: seq<Val>, s: State, k: nat)
    requires WellFormed(g) && Compatible(g, fn, args) && Sized(g, s) && k < |g.nodes|
  {
    && (s.kernels[k].Called? ==> s.kernels[k].results == EvalNode(g, fn, args, k))
    && s.invoked[k] == (if s.kernels[k].Called? && InputsFine(g, fn, args, k) then 1 else 0)
  }

  /** The kernel has handed over register r. */
  predicate Published(nd: Node<nat>, x: Kernel, r: nat)
    requires r in nd.outputs
  {
    x.Called? && |nd.inputs| + IndexOf(nd.outputs, r) < x.step
  }

  predicate Produced(g: Graph, s: State, r: nat)
    requires WellFormed(g) && Sized(g, s) && r < g.regs
  {
    assert RegOk(g, r);
    g.producer[r] == g.start || Published(g.nodes[g.producer[r]], s.kernels[g.producer[r]], r)
  }

  ghost predicate RegAt(g: Graph, fn: Kernels, args: seq<Val>, s: State, r: nat)
    requires WellFormed(g) && Compatible(g, fn, args) && Sized(g, s) && r < g.regs
  {
    RegFits(s.regs[r], EvalReg(g, fn, args, r), Produced(g, s, r), UserCount(g, r), g.producer[r] == g.start)
  }

  /** A register has a value once its kernel handed it over, the right one, and was released to no
      more than its users; arguments and unused results go into the slot at once. */
  predicate RegFits(x: Reg, v: Val, produced: bool, uses: nat, argument: bool) {
    && (x.Unproduced? <==> !produced)
    && (!x.Unproduced? ==> x.v == v)
    && (x.Released? ==> x.done <= uses)
    && (x.Pending? ==> (x.filled <==> argument || uses == 0))
  }

  function Owes(x: Reg, uses: nat, holding: nat, argument: bool): int {
    if x.Unproduced? || (x.Pending? && !x.filled) then 0
    else if uses == 0 && !argument then 1
    else holding
  }

  /** A filled slot with users owns one reference per use not yet dropped; a filled slot nobody
      uses owns the one reference of the caller; an empty slot owns nothing. */
  predicate OwnedAt(g: Graph, s: State, r: nat)
    requires WellFormed(g) && Sized(g, s) && r < g.regs
  {
    s.owned[r] == Owes(s.regs[r], UserCount(g, r), Holding(g, s.kernels, r, Users(g.nodes, r)), g.producer[r] == g.start)
  }

  ghost predicate Inv(g: Graph, fn: Kernels, args: seq<Val>, s: State)
    requires WellFormed(g) && Compatible(g, fn, args)
  {
    Sized(g, s) && KernelsOk(g, fn, args, s) && RegsOk(g, fn, args, s)
  }

  ghost predicate KernelsOk(g: Graph, fn: Kernels, args: seq<Val>, s: State)
    requires WellFormed(g) && Compatible(g, fn, args) && Sized(g, s)
  {
    forall k :: 0 <= k < |g.nodes| ==> KernelAt(g, s, k) && ResultsAt(g, fn, args, s, k)
  }

  ghost predicate RegsOk(g: Graph, fn: Kernels, args: seq<Val>, s: State)
    requires WellFormed(g) && Compatible(g, fn, args) && Sized(g, s)
  {
    forall r :: 0 <= r < g.regs ==> RegAt(g, fn, args, s, r) && OwnedAt(g, s, r)
  }

  lemma StartOutput(g: Graph, r: nat) returns (j: nat)
    requires WellFormed(g) && r < g.regs && g.producer[r] == g.start
    ensures j < |g.nodes[g.start].outputs| && g.nodes[g.start].outputs[j] == r
    ensures j == IndexOf(g.nodes[g.start].outputs, r)
  {
    assert RegOk(g, r);
    j := IndexOf(g.nodes[g.start].outputs, r);
  }

  lemma InitInv(g: Graph, fn: Kernels, args: seq<Val>, s: State)
    requires WellFormed(g) && Compatible(g, fn, args) && Init(g, args, s)
    ensures Inv(g, fn, args, s)
  {
    forall r | 0 <= r < g.regs ensures RegAt(g, fn, args, s, r) && OwnedAt(g, s, r) {
      assert RegOk(g, r);
      HoldingBounds(g, s.kernels, r, Users(g.nodes, r));
      if g.producer[r] == g.start {
        var j := StartOutput(g, r);
        assert ArgumentAt(g, args, s, j);
      }
    }
    forall k | 0 <= k < |g.nodes| ensures KernelAt(g, s, k) && ResultsAt(g, fn, args, s, k) {
      assert NodeOk(g, k);
      if k != g.start {
        forall i | 0 <= i < |g.nodes[k].inputs| ensures g.nodes[k].inputs[i] < g.regs && !InputReleased(g, s.regs, k, i) {
          assert InputOk(g, k, g.nodes[k].inputs[i]);
          assert RegAt(g, fn, args, s, g.nodes[k].inputs[i]);
          NotReleasedYet(g, args, s, g.nodes[k].inputs[i]);
        }
        MissingFull(g, s.regs, k, |g.nodes[k].inputs|);
      }
    }
  }

  lemma NotReleasedYet(g: Graph, args: seq<Val>, s: State, r: nat)
    requires WellFormed(g) && Init(g, args, s) && r < g.regs
    ensures s.regs[r].Released? ==> s.regs[r].done == 0
  {
    if g.producer[r] == g.start {
      var j := StartOutput(g, r);
      assert ArgumentAt(g, args, s, j);
    }
  }

  // ------------------------------------------------------------ what a ready kernel finds

  /** A kernel that is no longer waiting has all its inputs, with the values of the sequential evaluation. */
  lemma InputsAvailable(g: Graph, fn: Kernels, args: seq<Val>, s: State, k: nat)
    requires WellFormed(g) && Compatible(g, fn, args) && Inv(g, fn, args, s)
    requires k < |g.nodes| && !s.kernels[k].Waiting?
    ensures forall i :: 0 <= i < |g.nodes[k].inputs| ==>
              var r := g.nodes[k].inputs[i];
              r < g.regs && s.regs[r].Released? && s.regs[r].v == EvalReg(g, fn, args, r)
  {
    assert KernelAt(g, s, k) && NodeOk(g, k);
    forall i | 0 <= i < |g.nodes[k].inputs|
      ensures g.nodes[k].inputs[i] < g.regs
    {
      assert InputOk(g, k, g.nodes[k].inputs[i]);
    }
    forall i | 0 <= i < |g.nodes[k].inputs|
      ensures var r := g.nodes[k].inputs[i];
              r < g.regs && s.regs[r].Released? && s.regs[r].v == EvalReg(g, fn, args, r)
    {
      MissingZero(g, s.regs, k, |g.nodes[k].inputs|, i);
      assert RegAt(g, fn, args, s, g.nodes[k].inputs[i]);
    }
  }

  lemma ProcessedResults(g: Graph, fn: Kernels, args: seq<Val>, s: State, k: nat)
    requires WellFormed(g) && Compatible(g, fn, args) && Inv(g, fn, args, s) && Enabled(g, s, Process(k))
    ensures k != g.start
    ensures Apply(g, fn, s, Process(k)).kernels[k].results == EvalNode(g, fn, args, k)
    ensures Apply(g, fn, s, Process(k)).invoked[k] == s.invoked[k] + (if InputsFine(g, fn, args, k) then 1 else 0)
  {
    assert KernelAt(g, s, k);
    InputsAvailable(g, fn, args, s, k);
    assert ArgValues(g, s, k) == EvalInputs(g, fn, args, k, |g.nodes[k].inputs|);
  }

  // ------------------------------------------------------------ every step keeps it

  lemma InputsInRange(g: Graph, k: nat)
    requires WellFormed(g) && k < |g.nodes|
    ensures forall i :: 0 <= i < |g.nodes[k].inputs| ==> g.nodes[k].inputs[i] < g.regs
  {
    assert NodeOk(g, k);
    forall i | 0 <= i < |g.nodes[k].inputs| ensures g.nodes[k].inputs[i] < g.regs {
      assert InputOk(g, k, g.nodes[k].inputs[i]);
    }
  }

  lemma MissingUpdate(g: Graph, regs: seq<Reg>, r: nat, x: Reg, k: nat)
    requires WellFormed(g) && k < |g.nodes| && |regs| == g.regs && r < g.regs
    requires ReleasedTo(x, Users(g.nodes, r), k) == ReleasedTo(regs[r], Users(g.nodes, r), k)
    ensures MissingAll(g, regs[r := x], k) == MissingAll(g, regs, k)
  {
    InputsInRange(g, k);
    MissingSame(g, regs, regs[r := x], k, |g.nodes[k].inputs|);
  }

  /** Releasing r to its next user u lowers the number of inputs u misses by one. */
  lemma MissingRelease(g: Graph, regs: seq<Reg>, r: nat, u: nat)
    requires WellFormed(g) && |regs| == g.regs && r < g.regs && regs[r].Released?
    requires regs[r].done < |Users(g.nodes, r)| && u == Users(g.nodes, r)[regs[r].done]
    ensures u < |g.nodes| && u != g.start
    ensures var x := Released(regs[r].v, regs[r].done + 1);
            MissingAll(g, regs[r := x], u) == MissingAll(g, regs, u) - 1
  {
    var x := Released(regs[r].v, regs[r].done + 1);
    assert u in Users(g.nodes, r);
    var i := InputIndex(g, u, r);
    UsersIncrease(g.nodes, r);
    ReleaseNext(regs[r], Users(g.nodes, r));
    MissingDrops(g, regs, regs[r := x], u, |g.nodes[u].inputs|, i);
  }

  /** A user of r has it at exactly one input. */
  lemma InputIndex(g: Graph, u: nat, r: nat) returns (i: nat)
    requires WellFormed(g) && u < |g.nodes| && r in g.nodes[u].inputs
    ensures u != g.start && i < |g.nodes[u].inputs|
    ensures forall j :: 0 <= j < |g.nodes[u].inputs| ==> g.nodes[u].inputs[j] < g.regs && (g.nodes[u].inputs[j] == r <==> j == i)
  {
    assert NodeOk(g, u);
    InputsInRange(g, u);
    i :| 0 <= i < |g.nodes[u].inputs| && g.nodes[u].inputs[i] == r;
  }

  lemma ReleaseNext(x: Reg, users: seq<nat>)
    requires x.Released? && x.done < |users| && Increasing(users)
    ensures !ReleasedTo(x, users, users[x.done])
    ensures ReleasedTo(Released(x.v, x.done + 1), users, users[x.done])
  {
    assert users[..x.done + 1][x.done] == users[x.done];
  }

  /** Releasing r to u changes nothing for another user. */
  lemma ReleaseOthers(x: Reg, users: seq<nat>, k: nat)
    requires x.Released? && x.done < |users| && users[x.done] != k
    ensures ReleasedTo(Released(x.v, x.done + 1), users, k) == ReleasedTo(x, users, k)
  {
    assert users[..x.done + 1] == users[..x.done] + [users[x.done]];
  }

  lemma ReleaseKernels(g: Graph, fn: Kernels, args: seq<Val>, s: State, r: nat, s': State)
    requires WellFormed(g) && Compatible(g, fn, args) && Inv(g, fn, args, s)
    requires Enabled(g, s, Release(r)) && s' == RunRelease(g, s, r)
    ensures Sized(g, s') && KernelsOk(g, fn, args, s')
  {
    var u := Users(g.nodes, r)[s.regs[r].done];
    MissingRelease(g, s.regs, r, u);
    assert KernelAt(g, s, u);
    forall k | 0 <= k < |g.nodes| ensures KernelAt(g, s', k) && ResultsAt(g, fn, args, s', k) {
      assert KernelAt(g, s, k) && ResultsAt(g, fn, args, s, k);
      if k != u {
        ReleaseOthers(s.regs[r], Users(g.nodes, r), k);
        MissingUpdate(g, s.regs, r, s'.regs[r], k);
      }
    }
  }

  /** The user released next is still waiting. */
  lemma ReleasesWaiting(g: Graph, fn: Kernels, args: seq<Val>, s: State, r: nat)
    requires WellFormed(g) && Compatible(g, fn, args) && Inv(g, fn, args, s) && Enabled(g, s, Release(r))
    ensures var u := Users(g.nodes, r)[s.regs[r].done];
            u < |g.nodes| && u != g.start && s.kernels[u].Waiting?
  {
    var u := Users(g.nodes, r)[s.regs[r].done];
    MissingRelease(g, s.regs, r, u);
    assert KernelAt(g, s, u);
  }

  lemma ReleaseRegs(g: Graph, fn: Kernels, args: seq<Val>, s: State, r: nat, s': State)
    requires WellFormed(g) && Compatible(g, fn, args) && Inv(g, fn, args, s)
    requires Enabled(g, s, Release(r)) && s' == RunRelease(g, s, r)
    ensures Sized(g, s') && RegsOk(g, fn, args, s')
  {
    var u := Users(g.nodes, r)[s.regs[r].done];
    ReleasesWaiting(g, fn, args, s, r);
    forall r' | 0 <= r' < g.regs ensures RegAt(g, fn, args, s', r') {
      assert RegAt(g, fn, args, s, r') && RegOk(g, r');
    }
    forall r' | 0 <= r' < g.regs ensures OwnedAt(g, s', r') {
      assert OwnedAt(g, s, r');
      HoldingUpdate(g, s.kernels, u, Ready, r');
    }
  }

  lemma ResolveKernels(g: Graph, fn: Kernels, args: seq<Val>, s: State, r: nat, s': State)
    requires WellFormed(g) && Compatible(g, fn, args) && Inv(g, fn, args, s)
    requires Enabled(g, s, Resolve(r)) && s' == Apply(g, fn, s, Resolve(r))
    ensures Sized(g, s') && KernelsOk(g, fn, args, s')
  {
    forall k | 0 <= k < |g.nodes| ensures KernelAt(g, s', k) && ResultsAt(g, fn, args, s', k) {
      assert KernelAt(g, s, k) && ResultsAt(g, fn, args, s, k);
      MissingUpdate(g, s.regs, r, s'.regs[r], k);
    }
  }

  lemma ResolveRegs(g: Graph, fn: Kernels, args: seq<Val>, s: State, r: nat, s': State)
    requires WellFormed(g) && Compatible(g, fn, args) && Inv(g, fn, args, s)
    requires Enabled(g, s, Resolve(r)) && s' == Apply(g, fn, s, Resolve(r))
    ensures Sized(g, s') && RegsOk(g, fn, args, s')
  {
    NobodyDropped(g, fn, args, s, r);
    assert RegAt(g, fn, args, s, r);
    forall r' | 0 <= r' < g.regs ensures RegAt(g, fn, args, s', r') {
      assert RegAt(g, fn, args, s, r') && RegOk(g, r');
    }
    forall r' | 0 <= r' < g.regs ensures OwnedAt(g, s', r') {
      assert OwnedAt(g, s, r');
    }
  }

  /** While r is not released, each of its users still holds its reference on it. */
  lemma NobodyDropped(g: Graph, fn: Kernels, args: seq<Val>, s: State, r: nat)
    requires WellFormed(g) && Compatible(g, fn, args) && Inv(g, fn, args, s) && r < g.regs && !s.regs[r].Released?
    ensures Holding(g, s.kernels, r, Users(g.nodes, r)) == UserCount(g, r)
  {
    forall u | u in Users(g.nodes, r) ensures !Dropped(s.kernels[u], g.nodes[u].inputs, r) {
      var i :| 0 <= i < |g.nodes[u].inputs| && g.nodes[u].inputs[i] == r;
      if s.kernels[u].Called? {
        InputsAvailable(g, fn, args, s, u);
      }
    }
    HoldingBounds(g, s.kernels, r, Users(g.nodes, r));
  }

  lemma ProcessKernels(g: Graph, fn: Kernels, args: seq<Val>, s: State, k: nat, s': State)
    requires WellFormed(g) && Compatible(g, fn, args) && Inv(g, fn, args, s)
    requires Enabled(g, s, Process(k)) && s' == Apply(g, fn, s, Process(k))
    ensures Sized(g, s') && KernelsOk(g, fn, args, s')
  {
    ProcessedResults(g, fn, args, s, k);
    forall k' | 0 <= k' < |g.nodes| ensures KernelAt(g, s', k') && ResultsAt(g, fn, args, s', k') {
      assert KernelAt(g, s, k') && ResultsAt(g, fn, args, s, k');
    }
  }

  lemma ProcessRegs(g: Graph, fn: Kernels, args: seq<Val>, s: State, k: nat, s': State)
    requires WellFormed(g) && Compatible(g, fn, args) && Inv(g, fn, args, s)
    requires Enabled(g, s, Process(k)) && s' == Apply(g, fn, s, Process(k))
    ensures Sized(g, s') && RegsOk(g, fn, args, s')
  {
    forall r | 0 <= r < g.regs ensures RegAt(g, fn, args, s', r) && OwnedAt(g, s', r) {
      assert RegAt(g, fn, args, s, r) && OwnedAt(g, s, r) && RegOk(g, r);
      HoldingUpdate(g, s.kernels, k, s'.kernels[k], r);
    }
  }

  /** Dropping the next argument of a kernel is a drop of that register and of no other. */
  lemma DropsOne(g: Graph, k: nat, x: Kernel, r: nat)
    requires WellFormed(g) && k < |g.nodes| && x.Called? && x.step < |g.nodes[k].inputs|
    ensures var inputs := g.nodes[k].inputs;
            var x' := Called(x.step + 1, x.results);
            if r == inputs[x.step] then !Dropped(x, inputs, r) && Dropped(x', inputs, r)
            else Dropped(x', inputs, r) == Dropped(x, inputs, r)
  {
    var inputs := g.nodes[k].inputs;
    assert NodeOk(g, k);
    assert inputs[..x.step + 1] == inputs[..x.step] + [inputs[x.step]];
  }

  lemma DropArgHolding(g: Graph, ks: seq<Kernel>, k: nat, r: nat)
    requires WellFormed(g) && |ks| == |g.nodes| && k < |g.nodes| && ks[k].Called? && ks[k].step < |g.nodes[k].inputs|
    ensures var ks' := ks[k := Called(ks[k].step + 1, ks[k].results)];
            Holding(g, ks', r, Users(g.nodes, r)) ==
            Holding(g, ks, r, Users(g.nodes, r)) - (if r == g.nodes[k].inputs[ks[k].step] then 1 else 0)
  {
    var ks' := ks[k := Called(ks[k].step + 1, ks[k].results)];
    DropsOne(g, k, ks[k], r);
    if r == g.nodes[k].inputs[ks[k].step] {
      assert Takes(g.nodes, k, r);
      UsersIncrease(g.nodes, r);
      HoldingDrops(g, ks, ks', r, Users(g.nodes, r), k);
    } else {
      HoldingSame(g, ks, ks', r, Users(g.nodes, r));
    }
  }

  lemma DropArgKernels(g: Graph, fn: Kernels, args: seq<Val>, s: State, k: nat, s': State)
    requires WellFormed(g) && Compatible(g, fn, args) && Inv(g, fn, args, s)
    requires Enabled(g, s, DropArg(k)) && s' == Apply(g, fn, s, DropArg(k))
    ensures Sized(g, s') && KernelsOk(g, fn, args, s')
  {
    forall k' | 0 <= k' < |g.nodes| ensures KernelAt(g, s', k') && ResultsAt(g, fn, args, s', k') {
      assert KernelAt(g, s, k') && ResultsAt(g, fn, args, s, k');
    }
  }

  lemma DropArgRegs(g: Graph, fn: Kernels, args: seq<Val>, s: State, k: nat, s': State)
    requires WellFormed(g) && Compatible(g, fn, args) && Inv(g, fn, args, s)
    requires Enabled(g, s, DropArg(k)) && s' == Apply(g, fn, s, DropArg(k))
    ensures Sized(g, s') && RegsOk(g, fn, args, s')
  {
    var r := g.nodes[k].inputs[s.kernels[k].step];
    InputsAvailable(g, fn, args, s, k);
    assert k in Users(g.nodes, r);
    forall r' | 0 <= r' < g.regs ensures RegAt(g, fn, args, s', r') && OwnedAt(g, s', r') {
      assert RegAt(g, fn, args, s, r') && OwnedAt(g, s, r') && RegOk(g, r');
      DropArgHolding(g, s.kernels, k, r');
    }
  }

  /** The register a kernel hands over next was empty until now. */
  lemma PublishesFresh(g: Graph, fn: Kernels, args: seq<Val>, s: State, k: nat)
    requires WellFormed(g) && Compatible(g, fn, args) && Inv(g, fn, args, s) && Enabled(g, s, Publish(k))
    ensures var j := s.kernels[k].step - |g.nodes[k].inputs|;
            var r := g.nodes[k].outputs[j];
            && r < g.regs && g.producer[r] == k && k != g.start && s.regs[r].Unproduced? && s.owned[r] == 0
            && IndexOf(g.nodes[k].outputs, r) == j
            && s.kernels[k].results[j] == EvalReg(g, fn, args, r)
  {
    var j := s.kernels[k].step - |g.nodes[k].inputs|;
    var r := g.nodes[k].outputs[j];
    assert NodeOk(g, k) && KernelAt(g, s, k) && ResultsAt(g, fn, args, s, k);
    IndexUnique(g.nodes[k].outputs, j);
    assert RegAt(g, fn, args, s, r) && OwnedAt(g, s, r);
  }

  /** Handing over the register at step - |inputs| publishes that register and no other. */
  lemma PublishesOne(nd: Node<nat>, x: Kernel, r: nat)
    requires x.Called? && |nd.inputs| <= x.step < |nd.inputs| + |nd.outputs| && r in nd.outputs
    requires forall a, b :: 0 <= a < b < |nd.outputs| ==> nd.outputs[a] != nd.outputs[b]
    ensures Published(nd, Called(x.step + 1, x.results), r) ==
            (Published(nd, x, r) || r == nd.outputs[x.step - |nd.inputs|])
  {
    IndexUnique(nd.outputs, x.step - |nd.inputs|);
  }

  lemma PublishRegAt(g: Graph, fn: Kernels, args: seq<Val>, s: State, k: nat, s': State, r': nat)
    requires WellFormed(g) && Compatible(g, fn, args) && Inv(g, fn, args, s)
    requires Enabled(g, s, Publish(k)) && s' == RunPublish(g, s, k) && r' < g.regs
    ensures Sized(g, s') && RegAt(g, fn, args, s', r')
  {
    PublishesFresh(g, fn, args, s, k);
    assert RegAt(g, fn, args, s, r') && RegOk(g, r') && NodeOk(g, k);
    if g.producer[r'] == k {
      PublishesOne(g.nodes[k], s.kernels[k], r');
    }
  }

  lemma StillDropped(inputs: seq<nat>, step: nat, results: seq<Val>, r: nat)
    requires step >= |inputs|
    ensures Dropped(Called(step + 1, results), inputs, r) == Dropped(Called(step, results), inputs, r)
  {
    assert inputs[..|inputs|] == inputs;
  }

  lemma PublishHolding(g: Graph, ks: seq<Kernel>, k: nat, r: nat)
    requires |ks| == |g.nodes| && k < |g.nodes| && ks[k].Called? && ks[k].step >= |g.nodes[k].inputs|
    ensures var ks' := ks[k := Called(ks[k].step + 1, ks[k].results)];
            Holding(g, ks', r, Users(g.nodes, r)) == Holding(g, ks, r, Users(g.nodes, r))
  {
    StillDropped(g.nodes[k].inputs, ks[k].step, ks[k].results, r);
    HoldingUpdate(g, ks, k, Called(ks[k].step + 1, ks[k].results), r);
  }

  lemma PublishOwnedAt(g: Graph, fn: Kernels, args: seq<Val>, s: State, k: nat, s': State, r': nat)
    requires WellFormed(g) && Compatible(g, fn, args) && Inv(g, fn, args, s)
    requires Enabled(g, s, Publish(k)) && s' == RunPublish(g, s, k) && r' < g.regs
    ensures Sized(g, s') && OwnedAt(g, s', r')
  {
    var r := g.nodes[k].outputs[s.kernels[k].step - |g.nodes[k].inputs|];
    assert r < g.regs && s.owned[r] == 0 && g.producer[r] != g.start by { PublishesFresh(g, fn, args, s, k); }
    assert OwnedAt(g, s, r');
    PublishHolding(g, s.kernels, k, r');
  }

  lemma PublishKernels(g: Graph, fn: Kernels, args: seq<Val>, s: State, k: nat, s': State)
    requires WellFormed(g) && Compatible(g, fn, args) && Inv(g, fn, args, s)
    requires Enabled(g, s, Publish(k)) && s' == RunPublish(g, s, k)
    ensures Sized(g, s') && KernelsOk(g, fn, args, s')
  {
    PublishesFresh(g, fn, args, s, k);
    var r := g.nodes[k].outputs[s.kernels[k].step - |g.nodes[k].inputs|];
    forall k' | 0 <= k' < |g.nodes| ensures KernelAt(g, s', k') && ResultsAt(g, fn, args, s', k') {
      assert KernelAt(g, s, k') && ResultsAt(g, fn, args, s, k');
      MissingUpdate(g, s.regs, r, s'.regs[r], k');
    }
  }

  lemma PublishRegs(g: Graph, fn: Kernels, args: seq<Val>, s: State, k: nat, s': State)
    requires WellFormed(g) && Compatible(g, fn, args) && Inv(g, fn, args, s)
    requires Enabled(g, s, Publish(k)) && s' == RunPublish(g, s, k)
    ensures Sized(g, s') && RegsOk(g, fn, args, s')
  {
    PublishesFresh(g, fn, args, s, k);
    forall r' | 0 <= r' < g.regs ensures RegAt(g, fn, args, s', r') && OwnedAt(g, s', r') {
      PublishRegAt(g, fn, args, s, k, s', r');
      PublishOwnedAt(g, fn, args, s, k, s', r');
    }
  }

  lemma NextInv(g: Graph, fn: Kernels, args: seq<Val>, s: State, s': State)
    requires WellFormed(g) && Compatible(g, fn, args) && Inv(g, fn, args, s) && Next(g, fn, s, s')
    ensures Inv(g, fn, args, s')
  {
    var act :| Enabled(g, s, act) && s' == Apply(g, fn, s, act);
    match act
    case Resolve(r) => ResolveKernels(g, fn, args, s, r, s'); ResolveRegs(g, fn, args, s, r, s');
    case Release(r) => ReleaseKernels(g, fn, args, s, r, s'); ReleaseRegs(g, fn, args, s, r, s');
    case Process(k) => ProcessKernels(g, fn, args, s, k, s'); ProcessRegs(g, fn, args, s, k, s');
    case DropArg(k) => DropArgKernels(g, fn, args, s, k, s'); DropArgRegs(g, fn, args, s, k, s');
    case Publish(k) => PublishKernels(g, fn, args, s, k, s'); PublishRegs(g, fn, args, s, k, s');
  }
}
