/** The accelerated executor on a device: loops through captured steps, everything else lazily. */
module Executor {
  import opened Values
  import opened GraphIR
  import opened Typing
  import opened SymbolicPlan
  import opened SymbolicSound
  import opened LazyTensors
  import opened LazySound
  import opened Devices
  import opened Reentry
  import opened Capture
  import opened LoopStates
  import opened Steps

  /** A node's identity: its place in the executable's graph. */
  datatype Key = Key(path: Path, node: Node)

  /** A loop's step: node-by-node interpretation, or a captured function with its plan. */
  datatype Step = Interpreting | Jitted(plan: Plan, jit: Jit)

  predicate IsCaptured(step: Step) {
    step.Jitted? && step.jit.Captured?
  }

  ghost predicate StepOk(sem: Sem, blobs: seq<Bytes>, key: Key, step: Step, owner: seq<Option<Path>>) {
    step.Jitted? ==>
      && CapturedLoop(sem, key.node)
      && InputsDeclared(key.node.body.nodes, DeclaredShapes(key.node.body))
      && step.plan == PlanOf(key.node.body)
      && JitOk(step.jit, owner, key.path)
      && (step.jit.Captured? ==> StepTrace(sem, blobs, key.node.body) == Ok(step.jit.trace))
  }

  lemma JitOkLater(jit: Jit, o0: seq<Option<Path>>, o1: seq<Option<Path>>, p: Path)
    requires JitOk(jit, o0, p) && o0 <= o1
    ensures JitOk(jit, o1, p)
  {
  }

  lemma JitSize(jit: Jit, owner: seq<Option<Path>>, p: Path)
    requires JitOk(jit, owner, p)
    ensures jit.Captured? ==> |jit.outs| == |jit.trace|
  {
  }

  /** A loop variable passed through keeps clear of the loop's own buffers. */
  predicate ClearOf(sem: Sem, body: Sub, state: seq<Tensor>, owned: set<nat>) {
    forall j :: 0 <= j < |state| && Invariant(body, j) ==> Realized(sem, state[j]) && Support(state[j]) !! owned
  }

  /** The new state: passed-through variables, and the captured function's results in order. */
  function Merge(body: Sub, state: seq<Tensor>, outs: seq<Tensor>, n: nat): (r: seq<Tensor>)
    requires n <= |state| && |outs| == Returned(body, n)
    ensures |r| == n
  {
    if n == 0 then []
    else if Invariant(body, n - 1) then Merge(body, state, outs, n - 1) + [state[n - 1]]
    else Merge(body, state, outs[..|outs| - 1], n - 1) + [outs[|outs| - 1]]
  }

  /** What a captured iteration leaves for one loop variable. */
  ghost predicate StepResult(sem: Sem, body: Sub, j: nat, was: Tensor, t: Tensor, v: Value, mem: Memory,
      owner: seq<Option<Path>>, p: Path, n: nat)
  {
    if Invariant(body, j) then t == was
    else
      && t.Buf? && t.b < |mem.bufs| && t.b < |owner| && mem.bufs[t.b] == v
      && (owner[t.b] == Some(p) || (owner[t.b].None? && t.b >= n))
  }

  lemma {:induction false} MergeAt(sem: Sem, body: Sub, state: seq<Tensor>, outs: seq<Tensor>, vals: seq<Value>, k: nat,
      mem: Memory, owner: seq<Option<Path>>, p: Path, n: nat)
    requires k <= |state| && k <= |vals| && |outs| == Returned(body, k) && |mem.bufs| == |owner|
    requires forall i :: 0 <= i < |outs| ==>
      && outs[i].Buf? && outs[i].b < |mem.bufs|
      && (owner[outs[i].b] == Some(p) || (owner[outs[i].b].None? && outs[i].b >= n))
      && mem.bufs[outs[i].b] == KeptValues(body, vals, k)[i]
    ensures forall j :: 0 <= j < k ==>
        StepResult(sem, body, j, state[j], Merge(body, state, outs, k)[j], vals[j], mem, owner, p, n)
  {
    if k > 0 {
      if Invariant(body, k - 1) {
        assert KeptValues(body, vals, k) == KeptValues(body, vals, k - 1) + [];
        MergeAt(sem, body, state, outs, vals, k - 1, mem, owner, p, n);
      } else {
        var init := outs[..|outs| - 1];
        assert KeptValues(body, vals, k)[..|init|] == KeptValues(body, vals, k - 1);
        forall i | 0 <= i < |init| ensures mem.bufs[init[i].b] == KeptValues(body, vals, k - 1)[i] {
          assert KeptValues(body, vals, k)[i] == KeptValues(body, vals, k - 1)[i];
        }
        MergeAt(sem, body, state, init, vals, k - 1, mem, owner, p, n);
      }
    }
  }

  lemma {:induction false} MergeIndex(body: Sub, state: seq<Tensor>, outs: seq<Tensor>, k: nat, j: nat)
    requires j < k <= |state| && |outs| == Returned(body, k) && !Invariant(body, j)
    ensures Returned(body, j) < |outs| && Merge(body, state, outs, k)[j] == outs[Returned(body, j)]
  {
    if j < k - 1 {
      MergeIndex(body, state, if Invariant(body, k - 1) then outs else outs[..|outs| - 1], k - 1, j);
    }
  }

  /** The variables that are not passed through are in a captured function's own buffers. */
  predicate Replayed(body: Sub, outs: seq<nat>, state: seq<Tensor>) {
    forall j :: 0 <= j < |state| && !Invariant(body, j) ==>
        Returned(body, j) < |outs| && state[j] == Buf(outs[Returned(body, j)])
  }

  /** Everything about the body that one captured iteration relies on. */
  ghost predicate Replayable(sem: Sem, blobs: seq<Bytes>, node: Node, vs: seq<Value>, next: seq<Value>,
      bound: seq<int>)
  {
    && node.While? && InputsDeclared(node.body.nodes, DeclaredShapes(node.body))
    && |next| == |vs|
    && var r := StepTrace(sem, blobs, node.body);
       && r.Ok? && |r.value| == Returned(node.body, |vs|)
       && ReadAll(sem, r.value, Memory([], vs, bound)) == Ok(KeptValues(node.body, next, |next|))
  }

  /** The body's start operands can be evaluated ahead of it. */
  ghost predicate StartsReady(sem: Sem, blobs: seq<Bytes>, body: Sub, vs: seq<Value>, fuel: nat) {
    && InputsDeclared(body.nodes, DeclaredShapes(body)) && AllSimple(body.nodes)
    && AncestorEnv(sem, blobs, body, PlanOf(body), vs, fuel).Ok?
    && forall k :: 0 <= k < |PlanOf(body).uses| ==>
        PlanOf(body).uses[k].id in AncestorEnv(sem, blobs, body, PlanOf(body), vs, fuel).value
  }

  lemma StepReady(sem: Sem, blobs: seq<Bytes>, node: Node, vs: seq<Value>, next: seq<Value>, fuel: nat)
    requires CapturedLoop(sem, node) && InputsDeclared(node.body.nodes, DeclaredShapes(node.body))
    requires ShapeLaw(sem) && Capturable(sem, node.body, ShapesOfValues(sem, vs))
    requires |vs| == |node.body.outputs| && EvalSub(sem, blobs, node.body, vs, [], fuel) == Ok(next)
    ensures StartsReady(sem, blobs, node.body, vs, fuel)
    ensures Replayable(sem, blobs, node, vs, next,
              BoundValues(sem, PlanOf(node.body).uses, AncestorEnv(sem, blobs, node.body, PlanOf(node.body), vs,
                  fuel).value))
  {
    SymbolicPlanSound(sem, blobs, node.body, vs, fuel);
    CapturedBody(sem, node);
    var bound := BoundValues(sem, PlanOf(node.body).uses, AncestorEnv(sem, blobs, node.body, PlanOf(node.body), vs,
        fuel).value);
    StepTraceSound(sem, blobs, node, vs, bound, next, fuel);
  }

  lemma OutsOwned(jit: Jit, owner: seq<Option<Path>>, p: Path, s: set<nat>)
    requires JitOk(jit, owner, p) && s !! OwnedBy(owner, p)
    ensures jit.Captured? ==> forall j :: 0 <= j < |jit.outs| ==> jit.outs[j] !in s
  {
    if jit.Captured? {
      forall j | 0 <= j < |jit.outs| ensures jit.outs[j] !in s {
        assert jit.outs[j] in OwnedBy(owner, p);
      }
    }
  }

  /** A call's own writes. */
  lemma TouchedCall(b0: seq<Value>, o0: seq<Option<Path>>, b1: seq<Value>, o1: seq<Option<Path>>, p: Path)
    requires |o0| == |b0| && |o1| == |b1| && o0 <= o1
    requires forall b :: |b0| <= b < |b1| ==> o1[b].None? || o1[b] == Some(p)
    requires forall b :: 0 <= b < |b0| && o0[b] != Some(p) ==> b1[b] == b0[b]
    ensures Touched(b0, o0, b1, o1, p)
  {
  }

  method Bounds(dev: Device, blobs: seq<Bytes>, body: Sub, plan: Plan, state: seq<Tensor>, ghost vs: seq<Value>,
      ghost fuel: nat) returns (bound: seq<int>)
    requires StartsReady(dev.sem, blobs, body, vs, fuel) && plan == PlanOf(body)
    requires ReadAll(dev.sem, state, dev.Mem()) == Ok(vs)
    ensures bound == BoundValues(dev.sem, PlanOf(body).uses,
        AncestorEnv(dev.sem, blobs, body, PlanOf(body), vs, fuel).value)
  {
    bound := BindStarts(dev.sem, blobs, body, plan, state, dev.Mem(), vs, fuel);
  }

  /** The captured iteration.  It may fail, and then nothing it was given has changed. */
  method CallStep(dev: Device, blobs: seq<Bytes>, node: Node, p: Path, step: Step, state: seq<Tensor>,
      ghost vs: seq<Value>, ghost next: seq<Value>, ghost fuel: nat) returns (r: Option<seq<Tensor>>, step': Step)
    requires dev.Valid() && node.While? && step.Jitted? && StepOk(dev.sem, blobs, Key(p, node), step, dev.owner)
    requires ShapeLaw(dev.sem) && Capturable(dev.sem, node.body, ShapesOfValues(dev.sem, vs))
    requires |vs| == |node.body.outputs| && EvalSub(dev.sem, blobs, node.body, vs, [], fuel) == Ok(next)
    requires Holds(dev.sem, state, dev.Mem(), vs) && ClearOf(dev.sem, node.body, state, OwnedBy(dev.owner, p))
    modifies dev
    ensures dev.Valid() && Touched(old(dev.bufs), old(dev.owner), dev.bufs, dev.owner, p)
    ensures forall b :: 0 <= b < old(|dev.bufs|) && old(dev.owner)[b] != Some(p) ==> dev.bufs[b] == old(dev.bufs)[b]
    ensures step'.Jitted? && StepOk(dev.sem, blobs, Key(p, node), step', dev.owner)
    ensures r.None? ==> old(dev.bufs) <= dev.bufs && step' == step
    ensures r.None? <==> dev.breaks(old(dev.calls))
    ensures r.Some? ==> step' == step.(jit := step'.jit) && Advanced(step.jit, step'.jit)
    ensures r.Some? && step'.jit.Captured? ==> Replayed(node.body, step'.jit.outs, r.value)
    ensures r.Some? ==> |r.value| == |state| && forall j :: 0 <= j < |state| ==>
              StepResult(dev.sem, node.body, j, state[j], r.value[j], next[j], dev.Mem(), dev.owner, p, old(|dev.bufs|))
  {
    hide EvalSub, Capturable, ShapeLaw, SupportAll, ReadAll, DistinctBases, OwnedBy, PlanOf, StepTrace, InputsDeclared,
        CapturedLoop, StepResult, AllConcrete, Realized, JitOk, StartsReady;
    var body := node.body;
    StepReady(dev.sem, blobs, node, vs, next, fuel);
    var bound := Bounds(dev, blobs, body, step.plan, state, vs, fuel);
    var inputs := StepInputs(dev, body, state, vs, p);
    ghost var b1, o1 := dev.bufs, dev.owner;
    AddsTouch(old(dev.bufs), old(dev.owner), b1, o1, p);
    var trace := StepTrace(dev.sem, blobs, body).value;
    JitOkLater(step.jit, old(dev.owner), dev.owner, p);
    OutsOwned(step.jit, dev.owner, p, SupportAll(inputs));
    var outs, jit' := dev.CallJit(step.jit, trace, inputs, bound, p);
    step' := step.(jit := jit');
    TouchedCall(b1, o1, dev.bufs, dev.owner, p);
    TouchedTrans(old(dev.bufs), old(dev.owner), b1, o1, dev.bufs, dev.owner, p);
    if outs.None? {
      r := None;
    } else {
      MergeAt(dev.sem, body, state, outs.value, next, |state|, dev.Mem(), dev.owner, p, old(|dev.bufs|));
      r := Some(Merge(body, state, outs.value, |state|));
      JitSize(jit', dev.owner, p);
      forall j | 0 <= j < |state| && !Invariant(body, j) && jit'.Captured?
        ensures Returned(body, j) < |jit'.outs| && r.value[j] == Buf(jit'.outs[Returned(body, j)])
      {
        MergeIndex(body, state, outs.value, |state|, j);
        assert !Realized(dev.sem, trace[Returned(body, j)]);
      }
    }
  }
}
