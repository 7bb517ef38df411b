/** A compiled graph: run whole through one captured function when nothing in it reads a runtime
    scalar, and otherwise segment by segment. */
module GraphRuns {
  import opened Values
  import opened GraphIR
  import opened GraphForm
  import opened Typing
  import opened SymbolicPlan
  import opened SymbolicSound
  import opened LazyTensors
  import opened LazySound
  import opened Devices
  import opened Reentry
  import opened PassThrough
  import opened TaintSound
  import opened Capture
  import opened NodeRuns
  import opened LoopStates
  import opened Steps
  import opened Executor
  import opened Executables
  import opened Frozen
  import opened Segments
  import opened SegmentSound
  import opened SegmentRuns

  /** How a segment is run: node by node after a failure, otherwise captured. */
  datatype SegmentStep = ByNode | ByJit(jit: Jit)

  ghost predicate SegmentStepOk(sem: Sem, blobs: seq<Bytes>, constants: seq<Constant>, item: Item, step: SegmentStep,
      owner: seq<Option<Path>>, p: Path)
    requires item.Segment?
  {
    step.ByJit? ==>
      && JitOk(step.jit, owner, p)
      && (step.jit.Captured? ==> SegmentTrace(sem, blobs, constants, item) == Ok(step.jit.trace))
  }

  /** The inputs of a segment's call: each in a buffer, and no buffer twice.  A view may be copied
      first. */
  method SegmentArgs(dev: Device, ts: seq<Tensor>, ghost vs: seq<Value>, ghost p: Path) returns (inputs: seq<Tensor>)
    requires dev.Valid() && ReadAll(dev.sem, ts, dev.Mem()) == Ok(vs) && SupportAll(ts) !! OwnedBy(dev.owner, p)
    modifies dev
    ensures dev.OnlyAdds(None)
    ensures InputsReady(dev.sem, inputs, dev.Mem(), vs, OwnedBy(dev.owner, p)) && |inputs| == |ts|
  {
    inputs := [];
    var seen: set<Base> := {};
    ghost var mem0, owned := dev.Mem(), OwnedBy(dev.owner, p);
    assert vs[..0] == [];
    for j := 0 to |ts|
      invariant dev.OnlyAdds(None) && |inputs| == j
      invariant Gathered(dev.sem, inputs, seen, dev.Mem(), vs[..j], owned, |mem0.bufs|)
    {
      var t := ts[j];
      ReadAllAt(dev.sem, ts, mem0);
      ReadLater(dev.sem, t, mem0, dev.Mem());
      assert vs[..j + 1] == vs[..j] + [vs[j]];
      ghost var before := dev.Mem();
      var strided: bool := *;
      if !Realized(dev.sem, t) || strided || BaseOf(dev.sem, t).value in seen {
        t := dev.Clone(t);
        assert dev.Mem() == before.(bufs := before.bufs + [vs[j]]);
        GatherClone(dev.sem, inputs, seen, before, dev.Mem(), vs[..j], owned, |mem0.bufs|, vs[j]);
        inputs := inputs + [t];
      } else {
        BaseExists(dev.sem, t, mem0);
        ClearOne(ts, j, owned);
        GatherOne(dev.sem, inputs, seen, before, vs[..j], owned, |mem0.bufs|, t, vs[j]);
        seen := seen + {BaseOf(dev.sem, t).value};
        inputs := inputs + [t];
      }
    }
    assert vs[..|ts|] == vs;
    assert OwnedBy(dev.owner, p) == owned;
  }

  lemma ClearOne(ts: seq<Tensor>, j: nat, owned: set<nat>)
    requires j < |ts| && SupportAll(ts) !! owned
    ensures Support(ts[j]) !! owned
  {
    forall b | b in Support(ts[j]) ensures b !in owned {
      SupportAllAt(ts, b);
    }
  }

  /** What becomes of a segment's step: a call that breaks off ends capturing for good. */
  predicate SegmentAfter(was: SegmentStep, breaks: bool, now: SegmentStep) {
    if was.ByNode? || breaks then now.ByNode?
    else now.ByJit? && Advanced(was.jit, now.jit)
  }

  /** A segment's captured call.  It may fail, and then nothing that existed has changed. */
  method CallSegment(dev: Device, blobs: seq<Bytes>, constants: seq<Constant>, item: Item, p: Path, step: SegmentStep,
      ts: seq<Tensor>, ghost vs: seq<Value>, ghost next: seq<Value>)
      returns (r: Option<seq<Tensor>>, step': SegmentStep)
    requires dev.Valid() && item.Segment? && step.ByJit?
    requires SegmentStepOk(dev.sem, blobs, constants, item, step, dev.owner, p)
    requires ReadAll(dev.sem, ts, dev.Mem()) == Ok(vs) && SupportAll(ts) !! OwnedBy(dev.owner, p)
    requires var trace := SegmentTrace(dev.sem, blobs, constants, item);
             trace.Ok? && ReadAll(dev.sem, trace.value, Memory([], vs, [])) == Ok(next)
    modifies dev
    ensures dev.Valid() && Touched(old(dev.bufs), old(dev.owner), dev.bufs, dev.owner, p)
    ensures old(|dev.bufs|) <= |dev.bufs|
    ensures forall b :: 0 <= b < old(|dev.bufs|) && old(dev.owner)[b] != Some(p) ==> dev.bufs[b] == old(dev.bufs)[b]
    ensures step'.ByJit? && SegmentStepOk(dev.sem, blobs, constants, item, step', dev.owner, p)
    ensures r.None? ==> old(dev.bufs) <= dev.bufs && step' == step
    ensures (r.None? <==> dev.breaks(old(dev.calls))) && (r.Some? ==> Advanced(step.jit, step'.jit))
    ensures r.Some? ==> |r.value| == |next| && forall j :: 0 <= j < |next| ==>
        SegmentResult(r.value[j], next[j], dev.Mem(), dev.owner, p)
  {
    hide SupportAll, ReadAll, DistinctBases, OwnedBy, SegmentTrace, Realized, JitOk;
    var inputs := SegmentArgs(dev, ts, vs, p);
    ghost var b1, o1 := dev.bufs, dev.owner;
    AddsTouch(old(dev.bufs), old(dev.owner), b1, o1, p);
    var trace := SegmentTrace(dev.sem, blobs, constants, item).value;
    JitOkLater(step.jit, old(dev.owner), dev.owner, p);
    OutsOwned(step.jit, dev.owner, p, SupportAll(inputs));
    var outs, jit' := dev.CallJit(step.jit, trace, inputs, [], p);
    step' := ByJit(jit');
    TouchedCall(b1, o1, dev.bufs, dev.owner, p);
    TouchedTrans(old(dev.bufs), old(dev.owner), b1, o1, dev.bufs, dev.owner, p);
    r := outs;
  }

  /** A graph that must be run node by node at the top: some node reads a runtime scalar. */
  predicate RunsEagerly(nodes: seq<Node>) {
    exists k :: 0 <= k < |nodes| && (nodes[k].While? || HasDynamicStarts(nodes[k]))
  }

  function ConstantSet(constants: seq<Constant>): set<nat> {
    if constants == [] then {} else ConstantSet(constants[..|constants| - 1]) + {constants[|constants| - 1].id}
  }

  lemma {:induction false} ConstantsKnown(sem: Sem, blobs: seq<Bytes>, constants: seq<Constant>)
    requires BindConstants(sem, blobs, constants).Ok?
    ensures BindConstants(sem, blobs, constants).value.Keys == ConstantSet(constants)
  {
    if constants != [] {
      ConstantsKnown(sem, blobs, constants[..|constants| - 1]);
    }
  }

  /** Nothing redefines a constant. */
  lemma ConstantsStay(sem: Sem, blobs: seq<Bytes>, graph: Sub, vs: seq<Value>, i: nat, fuel: nat)
    requires SubOk(graph) && InitialEnv(sem, blobs, graph, vs).Ok? && i <= |graph.nodes|
    requires EvalNodes(sem, blobs, graph.nodes[..i], InitialEnv(sem, blobs, graph, vs).value, [], fuel).Ok?
    ensures BindConstants(sem, blobs, graph.constants).Ok?
    ensures Within(BindConstants(sem, blobs, graph.constants).value,
        EvalNodes(sem, blobs, graph.nodes[..i], InitialEnv(sem, blobs, graph, vs).value, [], fuel).value)
  {
    var consts := BindConstants(sem, blobs, graph.constants).value;
    ConstantKeys(sem, blobs, graph.constants);
    forall id | id in consts
      ensures id in EvalNodes(sem, blobs, graph.nodes[..i], InitialEnv(sem, blobs, graph, vs).value, [], fuel).value
      ensures EvalNodes(sem, blobs, graph.nodes[..i], InitialEnv(sem, blobs, graph, vs).value, [], fuel).value[id] ==
          consts[id]
    {
      ConstantsOnly(graph, id);
      InputsKeep(graph.inputs, vs, consts, id);
      NodeIdsPrefix(graph.nodes, i);
      assert NodeIds(graph.nodes[..i])[id] <= NodeIds(graph.nodes)[id];
      NodesKeep(sem, blobs, graph.nodes[..i], InitialEnv(sem, blobs, graph, vs).value, [], fuel, id);
    }
  }

  lemma ConstantsOnly(graph: Sub, id: nat)
    requires SubOk(graph) && id in ConstantIds(graph.constants)
    ensures InputIds(graph.inputs)[id] == 0 && NodeIds(graph.nodes)[id] == 0
  {
    var ids := AllIds(graph.inputs, graph.constants, graph.nodes);
    RangeSize(|ids|);
    assert ids[id] == Range(|ids|)[id] <= 1;
  }

  lemma {:induction false} InputsKeep(inputs: seq<GraphInput>, params: seq<Value>, env: Env, id: nat)
    requires BindInputs(inputs, params, env).Ok? && InputIds(inputs)[id] == 0 && id in env
    ensures id in BindInputs(inputs, params, env).value && BindInputs(inputs, params, env).value[id] == env[id]
  {
    if inputs != [] {
      InputsKeep(inputs[..|inputs| - 1], params, env, id);
    }
  }

  // -- the whole graph captured --------------------------------------------------------

  /** A graph can be captured whole if no node reads a runtime scalar, at any depth. */
  predicate AllJitSafe(nodes: seq<Node>) {
    forall k :: 0 <= k < |nodes| ==> JitSafe(nodes[k])
  }

  /** A graph that is safe to run either way: no fold in it reads a runtime scalar or holds a loop; or some
      node outside the folds does so, or nothing is passed in, and then it is never captured. */
  predicate Sheltered(graph: Sub) {
    || graph.inputs == []
    || (forall k :: 0 <= k < |graph.nodes| && graph.nodes[k].Fold? ==> Still(graph.nodes[k]))
    || exists k :: 0 <= k < |graph.nodes| && !graph.nodes[k].Fold? && !Still(graph.nodes[k])
  }

  /** Of these, the ones without inputs or with a node outside the folds that reads a runtime scalar run
      eagerly, and all others can be captured; no other graph does either. */
  lemma ShelteredExactly(graph: Sub)
    ensures Sheltered(graph) <==> graph.inputs == [] || RunsEagerly(graph.nodes) || AllJitSafe(graph.nodes)
    ensures RunsEagerly(graph.nodes) <==>
        exists k :: 0 <= k < |graph.nodes| && !graph.nodes[k].Fold? && !Still(graph.nodes[k])
    ensures AllJitSafe(graph.nodes) <==> forall k :: 0 <= k < |graph.nodes| ==> Still(graph.nodes[k])
  {
    hide JitSafe;
    forall k | 0 <= k < |graph.nodes| ensures JitSafe(graph.nodes[k]) <==> Still(graph.nodes[k]) {
      SafeExactly(graph.nodes[k]);
    }
    forall k | 0 <= k < |graph.nodes|
      ensures !graph.nodes[k].Fold? && !Still(graph.nodes[k]) <==>
          graph.nodes[k].While? || HasDynamicStarts(graph.nodes[k])
    {
      StillReads(graph.nodes[k]);
    }
    hide Still, HasDynamicStarts;
  }

  /** Then its trace does not depend on the inputs it was captured with, and is right on all. */
  lemma GraphTraceSound(sem: Sem, blobs: seq<Bytes>, graph: Sub, was: seq<Value>, vs: seq<Value>, next: seq<Value>,
      fuel: nat)
    requires AllWf(graph.nodes) && AllJitSafe(graph.nodes) && |vs| == |graph.inputs|
    requires EvalSub(sem, blobs, graph, vs, [], fuel) == Ok(next)
    ensures var r := GraphTrace(sem, blobs, graph, was); r.Ok? && ReadAll(sem, r.value, Memory([], vs, [])) == Ok(next)
  {
    forall j | 0 <= j < |graph.nodes| ensures !graph.nodes[j].While? && Simple(graph.nodes[j])
        && StaticNode(graph.nodes[j]) {
      SafeStatic(graph.nodes[j]);
    }
    var mem, mem' := Memory([], was, []), Memory([], vs, []);
    ReadArgs(sem, |vs|, vs, []);
    LazySubSound(sem, blobs, graph, ArgList(|vs|), mem, mem', vs, [], fuel);
    CopiesRead(sem, LazySub(sem, blobs, graph, ArgList(|vs|), mem).value, mem', next);
  }

  lemma {:induction false} WfAllSimple(nodes: seq<Node>)
    requires AllWf(nodes) && NoneLoops(nodes)
    ensures AllSimple(nodes)
  {
    hide NodeWf, Simple;
    forall k | 0 <= k < |nodes| ensures Simple(nodes[k]) {
      WfSimple(nodes[k]);
    }
  }

  lemma {:induction false} SafeNoLoops(nodes: seq<Node>)
    requires AllJitSafe(nodes)
    ensures NoneLoops(nodes)
  {
    forall k | 0 <= k < |nodes| ensures !Loops(nodes[k]) {
      assert JitSafe(nodes[k]);
      if Loops(nodes[k]) {
        LoopsEager(nodes[k]);
      }
    }
  }

  /** A graph that fits its arguments. */
  ghost predicate GraphReady(sem: Sem, blobs: seq<Bytes>, graph: Sub, vs: seq<Value>, next: seq<Value>, fuel: nat) {
    && ShapeLaw(sem) && SubReady(sem, graph, vs) && AllEnter(sem, graph.nodes) && |vs| == |graph.inputs|
    && EvalSub(sem, blobs, graph, vs, [], fuel) == Ok(next)
  }

  /** A result in a buffer that no captured function writes. */
  ghost predicate Owned(t: Tensor, v: Value, mem: Memory, owner: seq<Option<Path>>, n: nat) {
    t.Buf? && n <= t.b < |mem.bufs| && t.b < |owner| && owner[t.b].None? && mem.bufs[t.b] == v
  }

  method CloneAll(dev: Device, ts: seq<Tensor>, ghost vs: seq<Value>) returns (rs: seq<Tensor>)
    requires dev.Valid() && ReadAll(dev.sem, ts, dev.Mem()) == Ok(vs)
    modifies dev
    ensures dev.OnlyAdds(None) && |rs| == |vs| && forall j :: 0 <= j < |rs| ==>
        Owned(rs[j], vs[j], dev.Mem(), dev.owner, old(|dev.bufs|))
  {
    rs := [];
    ghost var mem0 := dev.Mem();
    ReadAllAt(dev.sem, ts, mem0);
    for i := 0 to |ts|
      invariant dev.OnlyAdds(None) && |rs| == i
      invariant forall j :: 0 <= j < i ==> Owned(rs[j], vs[j], dev.Mem(), dev.owner, |mem0.bufs|)
    {
      ReadLater(dev.sem, ts[i], mem0, dev.Mem());
      var r := dev.Clone(ts[i]);
      rs := rs + [r];
    }
  }

  lemma SegmentTraceAt(sem: Sem, blobs: seq<Bytes>, graph: Sub, items: seq<Item>, k: nat, vs: seq<Value>,
      env: TensorEnv, shapes: Shapes, mem: Memory, o: seq<Option<Path>>, root: Path, fuel: nat)
    requires SubOk(graph) && AllWf(graph.nodes) && InitialEnv(sem, blobs, graph, vs).Ok?
    requires EvalNodes(sem, blobs, graph.nodes, InitialEnv(sem, blobs, graph, vs).value, [], fuel).Ok?
    requires PlanOk(items, graph.nodes, ConstantSet(graph.constants), OutIds(graph.outputs)) && k < |items|
    requires items[k].Segment?
    requires Begin(items, k) <= |graph.nodes| && |o| == |mem.bufs|
    requires AtItem(sem, blobs, graph.nodes, Begin(items, k), k, OutIds(graph.outputs), env,
        InitialEnv(sem, blobs, graph, vs).value, shapes, mem, o, root, fuel)
    ensures Begin(items, k + 1) <= |graph.nodes| && Begin(items, k) <= Begin(items, k + 1)
    ensures EvalNodes(sem, blobs, graph.nodes[..Begin(items, k + 1)], InitialEnv(sem, blobs, graph, vs).value, [],
        fuel).Ok?
    ensures Lookup(EvalNodes(sem, blobs, graph.nodes[..Begin(items, k + 1)], InitialEnv(sem, blobs, graph, vs).value,
        [], fuel).value, items[k].outputIds).Ok?
    ensures Tensors(env, items[k].inputIds).Ok? && ReadAll(sem, Tensors(env, items[k].inputIds).value, mem).Ok?
    ensures AllEarlier(SupportAll(Tensors(env, items[k].inputIds).value), o, root, k)
    ensures SegmentTrace(sem, blobs, graph.constants, items[k]).Ok?
    ensures ReadAll(sem, SegmentTrace(sem, blobs, graph.constants, items[k]).value,
        Memory([], ReadAll(sem, Tensors(env, items[k].inputIds).value, mem).value, []))
         == Lookup(EvalNodes(sem, blobs, graph.nodes[..Begin(items, k + 1)], InitialEnv(sem, blobs, graph, vs).value,
             [], fuel).value, items[k].outputIds)
  {
    hide EvalNodes, Flatten, DefinedIn, Live, InitialEnv, SegmentTrace, SplitOk, JitSafe, NodeWf, ReadsFrom, SubOk,
        Shaped, Ascending;
    var nodes, vals0, outs, ids := graph.nodes, InitialEnv(sem, blobs, graph, vs).value, OutIds(graph.outputs),
        items[k].inputIds;
    assert Flatten(items) == nodes && ItemOk(items[k]) by { SplitParts(items, nodes, k); }
    FlattenSplit(items, k);
    var a, b := Begin(items, k), Begin(items, k + 1);
    EvalPrefix(sem, blobs, nodes, b, vals0, [], fuel);
    assert nodes[..b] == nodes[..a] + items[k].nodes;
    EvalNodesConcat(sem, blobs, nodes[..a], items[k].nodes, vals0, [], fuel);
    var vals := EvalNodes(sem, blobs, nodes[..a], vals0, [], fuel).value;
    InputsThere(sem, blobs, items, k, nodes, ConstantSet(graph.constants), outs, vals0, fuel);
    InputTensors(sem, nodes, a, k, outs, ids, env, vals, mem, o, root);
    ConstantsStay(sem, blobs, graph, vs, a, fuel);
    ConstantsKnown(sem, blobs, graph.constants);
    assert SegmentOk(items, k, ConstantSet(graph.constants), outs);
    PartWf(nodes, a, b);
    SegmentTraceSound(sem, blobs, graph.constants, items[k], vals, Lookup(vals, ids).value, fuel);
  }

  lemma SplitParts(items: seq<Item>, nodes: seq<Node>, k: nat)
    requires SplitOk(items, nodes) && k < |items|
    ensures Flatten(items) == nodes && ItemOk(items[k])
  {
  }

  lemma PartWf(nodes: seq<Node>, a: nat, b: nat)
    requires a <= b <= |nodes| && AllWf(nodes)
    ensures AllWf(nodes[a..b])
  {
  }

  /** A segment's inputs read as their values, and none is where the segment writes. */
  lemma InputTensors(sem: Sem, nodes: seq<Node>, i: nat, k: nat, outs: seq<nat>, ids: seq<nat>, env: TensorEnv,
      vals: Env, mem: Memory, o: seq<Option<Path>>, root: Path)
    requires LiveReads(sem, nodes, i, outs, env, vals, mem) && EnvEarlier(env, o, root, k)
    requires forall id :: id in ids ==> id in vals && Live(nodes, i, outs, id)
    ensures Lookup(vals, ids).Ok? && Tensors(env, ids).Ok?
    ensures ReadAll(sem, Tensors(env, ids).value, mem) == Lookup(vals, ids)
    ensures AllEarlier(SupportAll(Tensors(env, ids).value), o, root, k)
  {
    hide Live;
    forall j | 0 <= j < |ids| ensures ids[j] in env && ids[j] in vals
        && Read(sem, env[ids[j]], mem) == Ok(vals[ids[j]]) {
      assert ids[j] in ids;
    }
    var ts := Tensors(env, ids).value;
    ReadAllAt(sem, ts, mem);
    assert ReadAll(sem, ts, mem).value == Lookup(vals, ids).value;
    forall b | b in SupportAll(ts) ensures b < |o| && Earlier(o[b], root, k) {
      SupportAllAt(ts, b);
      var j :| 0 <= j < |ts| && b in Support(ts[j]);
      assert AllEarlier(Support(env[ids[j]]), o, root, k);
    }
  }

  lemma EarlierClear(bs: set<nat>, o: seq<Option<Path>>, root: Path, k: nat)
    requires AllEarlier(bs, o, root, k)
    ensures bs !! OwnedBy(o, root + [k])
  {
    forall b | b in bs ensures b !in OwnedBy(o, root + [k]) {
      assert (root + [k])[|root|] == k && (root + [k])[..|root|] == root;
    }
  }

  /** An input as the caller holds it: a reference, and the tensor it refers to. */
  datatype Handle = Handle(ref: nat, tensor: Tensor)

  function TensorsOf(inputs: seq<Handle>): (ts: seq<Tensor>)
    ensures |ts| == |inputs| && forall j :: 0 <= j < |ts| ==> ts[j] == inputs[j].tensor
  {
    seq(|inputs|, j requires 0 <= j < |inputs| => inputs[j].tensor)
  }

  /** No reference before position j is the one at j. */
  predicate First(inputs: seq<Handle>, j: nat)
    requires j < |inputs|
  {
    forall i :: 0 <= i < j ==> inputs[i].ref != inputs[j].ref
  }

  /** Two references to one buffer. */
  predicate Sharing(sem: Sem, inputs: seq<Handle>) {
    exists i, j :: 0 <= i < j < |inputs| && inputs[i].ref != inputs[j].ref
        && BaseOf(sem, inputs[i].tensor) == BaseOf(sem, inputs[j].tensor)
  }

  /** The inputs with every repeated reference cloned. */
  ghost predicate Deduped(sem: Sem, inputs: seq<Handle>, ts: seq<Tensor>, n: nat) {
    && |ts| == |inputs|
    && (forall j :: 0 <= j < |ts| ==>
        if First(inputs, j) then ts[j] == inputs[j].tensor else ts[j].Buf? && ts[j].b >= n)
    && forall i, j :: 0 <= i < j < |ts| && !First(inputs, i) && !First(inputs, j) ==> ts[i] != ts[j]
  }

  /** Cloning by reference gives every input its own buffer exactly when no two references share one. */
  lemma DedupDistinct(sem: Sem, inputs: seq<Handle>, ts: seq<Tensor>, n: nat)
    requires Deduped(sem, inputs, ts, n) && forall j :: 0 <= j < |inputs| ==> Realized(sem, inputs[j].tensor)
    requires forall j, b :: 0 <= j < |inputs| && b in BaseBuf(sem, inputs[j].tensor) ==> b < n
    requires forall i, j :: 0 <= i < |inputs| && 0 <= j < |inputs| && inputs[i].ref == inputs[j].ref ==>
        inputs[i].tensor == inputs[j].tensor
    ensures DistinctBases(sem, ts) <==> !Sharing(sem, inputs)
  {
    if Sharing(sem, inputs) {
      var i, j :| 0 <= i < j < |inputs| && inputs[i].ref != inputs[j].ref
          && BaseOf(sem, inputs[i].tensor) == BaseOf(sem, inputs[j].tensor);
      var a, b := FirstRef(inputs, i), FirstRef(inputs, j);
      assert BaseOf(sem, ts[a]) == BaseOf(sem, ts[b]) && a != b;
      assert if a < b then BaseOf(sem, ts[a]) == BaseOf(sem, ts[b]) else BaseOf(sem, ts[b]) == BaseOf(sem, ts[a]);
      assert !DistinctBases(sem, ts);
    } else {
      forall j | 0 <= j < |ts| ensures Realized(sem, ts[j]) {
      }
      forall i, j | 0 <= i < j < |ts| ensures BaseOf(sem, ts[i]) != BaseOf(sem, ts[j]) {
        if First(inputs, i) && First(inputs, j) {
          assert inputs[i].ref != inputs[j].ref;
        } else if !First(inputs, i) && !First(inputs, j) {
          assert ts[i] != ts[j];
        } else {
          var k, l := if First(inputs, i) then i else j, if First(inputs, i) then j else i;
          assert ts[l].b !in BaseBuf(sem, inputs[k].tensor);
        }
      }
    }
  }

  /** Where a reference first occurs. */
  ghost function FirstRef(inputs: seq<Handle>, j: nat): (i: nat)
    requires j < |inputs|
    ensures i <= j && First(inputs, i) && inputs[i].ref == inputs[j].ref
  {
    if First(inputs, j) then j
    else var i :| 0 <= i < j && inputs[i].ref == inputs[j].ref; FirstRef(inputs, i)
  }

  /** An executable as the worker keeps it.  Everything that outlives a run is here or on the device. */
  class CompiledGraph {
    const graph: Sub
    const exec: Executable
    /** Where in the device's owners this executable's captured functions are. */
    const root: Path
    const plan: Option<seq<Item>>
    var segmentSteps: map<nat, SegmentStep>
    var whole: Jit
    /** The inputs of the call that captured the whole. */
    ghost var capturedWith: seq<Value>

    constructor (graph: Sub, exec: Executable, root: Path)
      requires exec.StepsOk()
      ensures this.graph == graph && this.exec == exec && this.root == root && whole == Fresh && GraphOk()
    {
      var p: Option<seq<Item>> := None;
      if RunsEagerly(graph.nodes) {
        p := PlanSegments(graph.nodes, ConstantSet(graph.constants), OutIds(graph.outputs));
      }
      this.graph := graph;
      this.exec := exec;
      this.root := root;
      this.plan := p;
      this.segmentSteps := map[];
      this.whole := Fresh;
      this.capturedWith := [];
    }

    /** Every cached step is a right one, and writes only its own buffers. */
    ghost predicate GraphOk()
      reads this, exec, exec.dev
    {
      && exec.StepsOk()
      && (plan.Some? ==> PlanOk(plan.value, graph.nodes, ConstantSet(graph.constants), OutIds(graph.outputs)))
      && (forall k :: k in segmentSteps ==> StepAtOk(k))
      && JitOk(whole, exec.dev.owner, root)
      && (whole.Captured? ==> GraphTrace(exec.dev.sem, exec.blobs, graph, capturedWith) == Ok(whole.trace))
    }

    ghost predicate StepAtOk(k: nat)
      requires k in segmentSteps
      reads this, exec, exec.dev
    {
      plan.Some? && k < |plan.value| && plan.value[k].Segment?
      && SegmentStepOk(exec.dev.sem, exec.blobs, graph.constants, plan.value[k], segmentSteps[k], exec.dev.owner,
          root + [k])
    }

    twostate lemma GraphLater()
      requires old(GraphOk()) && exec.StepsOk() && segmentSteps == old(segmentSteps) && whole == old(whole)
          && capturedWith == old(capturedWith)
        && old(exec.dev.owner) <= exec.dev.owner
      ensures GraphOk()
    {
      hide GraphTrace, SegmentTrace, PlanOk, JitOk;
      JitOkLater(whole, old(exec.dev.owner), exec.dev.owner, root);
      forall k | k in segmentSteps ensures StepAtOk(k) {
        assert old(StepAtOk(k));
        if segmentSteps[k].ByJit? {
          JitOkLater(segmentSteps[k].jit, old(exec.dev.owner), exec.dev.owner, root + [k]);
        }
      }
    }

    /** The values at the start of a run, and those a run computes. */
    ghost predicate Before(i: nat, k: nat, env: TensorEnv, vs: seq<Value>, fuel: nat)
      reads this, exec, exec.dev
    {
      && InitialEnv(exec.dev.sem, exec.blobs, graph, vs).Ok?
      && AtItem(exec.dev.sem, exec.blobs, graph.nodes, i, k, OutIds(graph.outputs), env,
          InitialEnv(exec.dev.sem, exec.blobs, graph, vs).value,
                DeclaredShapes(graph), exec.dev.Mem(), exec.dev.owner, root, fuel)
    }

    /** Item k, node by node. */
    method RunItemByNode(a: nat, b: nat, k: nat, env: TensorEnv, ghost vs: seq<Value>, ghost next: seq<Value>,
        ghost fuel: nat) returns (env': TensorEnv)
      requires GraphOk() && GraphReady(exec.dev.sem, exec.blobs, graph, vs, next, fuel) && a <= b <= |graph.nodes|
      requires Before(a, k, env, vs, fuel)
      modifies exec, exec.dev
      ensures GraphOk() && Before(b, k + 1, env', vs, fuel)
      ensures Touched(old(exec.dev.bufs), old(exec.dev.owner), exec.dev.bufs, exec.dev.owner, root + [k])
    {
      hide EvalNodes, EvalSub, InitialEnv, AtItem, SubOk, TypedNodes, ShapeLaw, Shaped, LaterIds, LiveReads, EnvTainted,
          EnvMade, SafeChain, AllEnter, PlanOk, SegmentStepOk, JitOk, GraphTrace, EarlierSet, Touched, EnvEarlier;
      ghost var sem, blobs, nodes, outs, shapes := exec.dev.sem, exec.blobs, graph.nodes, OutIds(graph.outputs),
            DeclaredShapes(graph);
      ReadyParts(sem, blobs, graph, vs, next, fuel);
      ghost var vals0 := InitialEnv(sem, blobs, graph, vs).value;
      ghost var ms := ItemStart(sem, blobs, nodes, a, b, k, outs, env, vals0, shapes, exec.dev.Mem(), exec.dev.owner,
            root, fuel);
      PartWf(nodes, a, b);
      AtShaped(sem, blobs, nodes, a, k, outs, env, vals0, shapes, exec.dev.Mem(), exec.dev.owner, root, fuel);
      ghost var owner0, n := exec.dev.owner, |exec.dev.bufs|;
      env' := exec.RunNodes(graph.nodes[a..b], env, root + [k], root + [k], LaterIds(nodes[b..], outs), ms,
          EarlierSet(owner0, root, k),
                            EvalNodes(sem, blobs, nodes[..a], vals0, [], fuel).value, shapes, fuel);
      TouchedGrows(old(exec.dev.bufs), owner0, exec.dev.bufs, exec.dev.owner, root + [k]);
      GraphLater();
      ItemEnd(sem, blobs, nodes, a, b, k, outs, env', vals0, shapes, exec.dev.Mem(), owner0, exec.dev.owner, root, n,
          fuel);
    }

    /** Item k, a segment that something needs: through its captured function, or, after a failure,
        node by node from then on. */
    method RunSegment(a: nat, b: nat, k: nat, env: TensorEnv, ghost vs: seq<Value>, ghost next: seq<Value>,
        ghost fuel: nat) returns (env': TensorEnv)
      requires GraphOk() && GraphReady(exec.dev.sem, exec.blobs, graph, vs, next, fuel) && Before(a, k, env, vs, fuel)
      requires plan.Some? && k < |plan.value| && plan.value[k].Segment? && a == Begin(plan.value, k)
      requires b == Begin(plan.value, k + 1)
      modifies this, exec, exec.dev
      ensures GraphOk() && Before(b, k + 1, env', vs, fuel)
      ensures Touched(old(exec.dev.bufs), old(exec.dev.owner), exec.dev.bufs, exec.dev.owner, root + [k])
      ensures k in segmentSteps
      ensures SegmentAfter(if k in old(segmentSteps) then old(segmentSteps)[k] else ByJit(Fresh),
          exec.dev.breaks(old(exec.dev.calls)), segmentSteps[k])
    {
      hide Flatten, ConstantSet, OutIds, NodesOf, Realized, Touched, Earlier, EvalNodes, EvalSub, InitialEnv, AtItem,
          SubOk, TypedNodes, ShapeLaw, Shaped, LiveReads, AllEnter, PlanOk, SegmentStepOk, JitOk, GraphTrace,
          SegmentTrace, EnvEarlier, Begin, Lookup, Tensors, ReadAll, SupportAll, OwnedBy, SegmentResult, BindResults,
          AllWf, GraphReady, AllEarlier, DeclaredShapes, LazySub;
      ghost var sem, blobs, shapes := exec.dev.sem, exec.blobs, DeclaredShapes(graph);
      ReadyParts(sem, blobs, graph, vs, next, fuel);
      ghost var vals0 := InitialEnv(sem, blobs, graph, vs).value;
      WithinGraph(plan.value, graph.nodes, ConstantSet(graph.constants), OutIds(graph.outputs), k);
      SegmentTraceAt(sem, blobs, graph, plan.value, k, vs, env, shapes, exec.dev.Mem(), exec.dev.owner, root, fuel);
      if k !in segmentSteps {
        assert SegmentStepOk(sem, blobs, graph.constants, plan.value[k], ByJit(Fresh), exec.dev.owner,
            root + [k]) by { FreshStepOk(sem, blobs, graph.constants, plan.value[k], exec.dev.owner, root + [k]); }
        segmentSteps := segmentSteps[k := ByJit(Fresh)];
      }
      var step := segmentSteps[k];
      if step.ByNode? {
        env' := RunItemByNode(a, b, k, env, vs, next, fuel);
        return;
      }
      var ts := Tensors(env, plan.value[k].inputIds).value;
      ghost var given := ReadAll(sem, ts, exec.dev.Mem()).value;
      ghost var wanted := Lookup(EvalNodes(sem, blobs, graph.nodes[..b], vals0, [], fuel).value,
            plan.value[k].outputIds).value;
      EarlierClear(SupportAll(ts), exec.dev.owner, root, k);
      ghost var mem, o := exec.dev.Mem(), exec.dev.owner;
      assert StepAtOk(k);
      var rs, step' := CallSegment(exec.dev, exec.blobs, graph.constants, plan.value[k], root + [k], step, ts, given,
          wanted);
      TouchedGrows(mem.bufs, o, exec.dev.bufs, exec.dev.owner, root + [k]);
      exec.StepsLater();
      if rs.None? {
        step' := ByNode;
        FreshStepOk(sem, blobs, graph.constants, plan.value[k], exec.dev.owner, root + [k]);
      }
      CacheStep(k, step', o);
      if rs.Some? {
        WantedAre(sem, EvalNodes(sem, blobs, graph.nodes[..b], vals0, [], fuel).value, plan.value[k].outputIds, wanted,
            rs.value, exec.dev.Mem(), exec.dev.owner, root + [k]);
        SegmentEnd(sem, blobs, plan.value, k, graph.nodes, ConstantSet(graph.constants), OutIds(graph.outputs), env,
            vals0, shapes, mem, exec.dev.Mem(), o, exec.dev.owner, root, rs.value, fuel);
        env' := BindResults(plan.value[k].outputIds, rs.value, env);
      } else {
        AtLater(sem, blobs, graph.nodes, a, k, OutIds(graph.outputs), env, vals0, shapes, mem, exec.dev.Mem(), o,
            exec.dev.owner, root, fuel);
        ghost var b1, o1 := exec.dev.bufs, exec.dev.owner;
        env' := RunItemByNode(a, b, k, env, vs, next, fuel);
        TouchedTrans(mem.bufs, o, b1, o1, exec.dev.bufs, exec.dev.owner, root + [k]);
      }
    }

    /** Cache a step after its call. */
    method CacheStep(k: nat, step: SegmentStep, ghost o: seq<Option<Path>>)
      requires exec.StepsOk() && o <= exec.dev.owner && plan.Some? && k < |plan.value| && plan.value[k].Segment?
      requires PlanOk(plan.value, graph.nodes, ConstantSet(graph.constants), OutIds(graph.outputs))
      requires JitOk(whole, o, root)
      requires (whole.Captured? ==> GraphTrace(exec.dev.sem, exec.blobs, graph, capturedWith) == Ok(whole.trace))
      requires forall j :: j in segmentSteps ==>
                 && j < |plan.value| && plan.value[j].Segment?
                 && SegmentStepOk(exec.dev.sem, exec.blobs, graph.constants, plan.value[j], segmentSteps[j], o,
                     root + [j])
      requires SegmentStepOk(exec.dev.sem, exec.blobs, graph.constants, plan.value[k], step, exec.dev.owner, root + [k])
      modifies this`segmentSteps
      ensures GraphOk() && segmentSteps == old(segmentSteps)[k := step]
    {
      hide GraphTrace, SegmentTrace, PlanOk, JitOk;
      segmentSteps := segmentSteps[k := step];
      JitOkLater(whole, o, exec.dev.owner, root);
      forall j | j in segmentSteps ensures StepAtOk(j) {
        if j != k && segmentSteps[j].ByJit? {
          JitOkLater(segmentSteps[j].jit, o, exec.dev.owner, root + [j]);
        }
      }
    }

    /** The graph item by item, skipping segments that nothing needs. */
    method RunItems(env0: TensorEnv, ghost vs: seq<Value>, ghost next: seq<Value>, ghost fuel: nat)
        returns (env: TensorEnv)
      requires GraphOk() && GraphReady(exec.dev.sem, exec.blobs, graph, vs, next, fuel) && plan.Some?
      requires Before(0, 0, env0, vs, fuel)
      modifies this, exec, exec.dev
      ensures GraphOk() && Before(|graph.nodes|, |plan.value|, env, vs, fuel)
      ensures Touched(old(exec.dev.bufs), old(exec.dev.owner), exec.dev.bufs, exec.dev.owner, root)
    {
      hide GraphReady, AtItem, InitialEnv, PlanOk, SegmentStepOk, JitOk, GraphTrace, Touched, Flatten, Begin, StepOk;
      ghost var b0, o0 := exec.dev.bufs, exec.dev.owner;
      var items := plan.value;
      env := env0;
      ItemsEnds(items, graph.nodes, ConstantSet(graph.constants), OutIds(graph.outputs));
      TouchedNothing(b0, o0, root);
      for k := 0 to |items|
        invariant GraphOk() && Before(Begin(items, k), k, env, vs, fuel)
        invariant Touched(b0, o0, exec.dev.bufs, exec.dev.owner, root)
      {
        ghost var b1, o1 := exec.dev.bufs, exec.dev.owner;
        WithinGraph(items, graph.nodes, ConstantSet(graph.constants), OutIds(graph.outputs), k);
        var a, b := Begin(items, k), Begin(items, k + 1);
        if items[k].Eager? {
          env := RunItemByNode(a, b, k, env, vs, next, fuel);
        } else if items[k].outputIds != [] {
          env := RunSegment(a, b, k, env, vs, next, fuel);
        } else {
          SkipSegment(exec.dev.sem, exec.blobs, graph, items, k, vs, next, env, exec.dev.Mem(), exec.dev.owner, root,
              fuel);
          TouchedNothing(b1, o1, root + [k]);
        }
        TouchedWider(b1, o1, exec.dev.bufs, exec.dev.owner, root, root + [k]);
        TouchedTrans(b0, o0, b1, o1, exec.dev.bufs, exec.dev.owner, root);
      }
    }

    /** A run that reads runtime scalars.  The results are copies of their own. */
    method RunEager(inputs: seq<Tensor>, ghost vs: seq<Value>, ghost next: seq<Value>, ghost fuel: nat)
        returns (outs: seq<Tensor>)
      requires GraphOk() && GraphReady(exec.dev.sem, exec.blobs, graph, vs, next, fuel)
      requires Holds(exec.dev.sem, inputs, exec.dev.Mem(), vs)
      requires AllEarlier(SupportAll(inputs), exec.dev.owner, root, 0)
      modifies this, exec, exec.dev
      ensures GraphOk() && Touched(old(exec.dev.bufs), old(exec.dev.owner), exec.dev.bufs, exec.dev.owner, root)
      ensures |outs| == |next| && forall j :: 0 <= j < |outs| ==>
          Owned(outs[j], next[j], exec.dev.Mem(), exec.dev.owner, old(|exec.dev.bufs|))
    {
      hide GraphReady, AtItem, InitialEnv, PlanOk, SegmentStepOk, JitOk, GraphTrace, Touched, Flatten, Begin, StepOk,
          FirstEnv, Holds, AllEarlier, SupportAll, EvalNodes, LiveReads, EnvMade, EnvTainted, SafeChain, AllEnter,
          TypedNodes, Shaped, ShapeLaw, SubOk, AllWf, Lookup, ReadAll, Tensors, EarlierSet, DeclaredShapes;
      ghost var b0, o0, sem, blobs := exec.dev.bufs, exec.dev.owner, exec.dev.sem, exec.blobs;
      ghost var ids, shapes := OutIds(graph.outputs), DeclaredShapes(graph);
      ReadyParts(sem, blobs, graph, vs, next, fuel);
      RunBegins(sem, blobs, graph, inputs, vs, next, exec.dev.Mem(), o0, root, fuel);
      ghost var vals0 := InitialEnv(sem, blobs, graph, vs).value;
      var env := FirstEnv(exec.dev.sem, exec.blobs, graph, inputs).value;
      if plan.Some? {
        env := RunItems(env, vs, next, fuel);
        RunEnds(sem, blobs, graph, |plan.value|, env, vs, next, exec.dev.Mem(), exec.dev.owner, root, fuel);
      } else {
        ghost var ms := WholeStart(sem, blobs, graph, env, vs, exec.dev.Mem(), o0, root, fuel);
        env := exec.RunNodes(graph.nodes, env, root, root, ids, ms, EarlierSet(o0, root, 0), vals0, shapes, fuel);
        TouchedGrows(b0, o0, exec.dev.bufs, exec.dev.owner, root);
        GraphLater();
        OutputsRead(sem, graph.nodes, ids, env, EvalNodes(sem, blobs, graph.nodes, vals0, [], fuel).value,
            exec.dev.Mem());
      }
      label ran:
      ghost var b1, o1 := exec.dev.bufs, exec.dev.owner;
      TouchedGrows(b0, o0, b1, o1, root);
      outs := CloneAll(exec.dev, Tensors(env, OutIds(graph.outputs)).value, next);
      exec.StepsLater@ran();
      GraphLater@ran();
      AddsTouch(b1, o1, exec.dev.bufs, exec.dev.owner, root);
      TouchedTrans(b0, o0, b1, o1, exec.dev.bufs, exec.dev.owner, root);
      forall j | 0 <= j < |outs| ensures Owned(outs[j], next[j], exec.dev.Mem(), exec.dev.owner, |b0|) {
        assert Owned(outs[j], next[j], exec.dev.Mem(), exec.dev.owner, |b1|);
      }
    }

    /** A graph without loops can be sent to capture.  A replay runs every traced kernel: each window's
        operand must still have the axes that its frozen starts name. */
    ghost predicate CanCapture(vs: seq<Value>)
      reads this, exec, exec.dev
    {
      NoneLoops(graph.nodes) && (whole.Captured? ==> ReadAll(exec.dev.sem, whole.trace, Memory([], vs, [])).Ok?)
    }

    /** What a captured call gives: the graph's values until there is a trace, and then the trace's. */
    ghost function CallValues(vs: seq<Value>, next: seq<Value>): seq<Value>
      requires CanCapture(vs)
      reads this, exec, exec.dev
    {
      if whole.Captured? then ReadAll(exec.dev.sem, whole.trace, Memory([], vs, [])).value else next
    }

    /** A run through the captured whole.  It fails exactly if two references share a buffer or the call
        breaks off, and nothing that existed has changed then. */
    method RunCaptured(inputs: seq<Handle>, ghost vs: seq<Value>, ghost next: seq<Value>, ghost fuel: nat)
        returns (outs: Option<seq<Tensor>>)
      requires GraphOk() && GraphReady(exec.dev.sem, exec.blobs, graph, vs, next, fuel) && CanCapture(vs)
      requires InputsOk(exec.dev.sem, inputs, vs, exec.dev.Mem(), exec.dev.owner, root)
      modifies this, exec.dev
      ensures GraphOk() && Touched(old(exec.dev.bufs), old(exec.dev.owner), exec.dev.bufs, exec.dev.owner, root)
      ensures outs.None? <==> Sharing(exec.dev.sem, inputs) || exec.dev.breaks(old(exec.dev.calls))
      ensures outs.None? ==> old(exec.dev.bufs) <= exec.dev.bufs
      ensures outs.Some? ==> ResultsAre(outs.value, old(CallValues(vs, next)), exec.dev.Mem(), exec.dev.owner, root)
      ensures if outs.None? then whole == old(whole) else Advanced(old(whole), whole)
      ensures whole.Captured? ==> capturedWith == if old(whole.Captured?) then old(capturedWith) else vs
    {
      hide GraphReady, InitialEnv, PlanOk, SegmentStepOk, JitOk, GraphTrace, StepOk, EvalSub, AllWf, AllEnter, SubOk,
          TypedNodes, ShapeLaw, Shaped, SupportAll, AllEarlier, Deduped, DistinctBases, OwnedBy, Sharing, EvalNodes,
          Lookup, SegmentTrace, DeclaredShapes, LazySub, NoneLoops, AllSimple;
      ghost var b0, o0, sem, blobs := exec.dev.bufs, exec.dev.owner, exec.dev.sem, exec.blobs;
      CapturedParts(sem, blobs, graph, vs, next, fuel);
      var ts := Dedup(exec.dev, inputs, vs, root);
      exec.StepsLater();
      GraphLater();
      label deduped:
      ghost var b1, o1 := exec.dev.bufs, exec.dev.owner;
      AddsTouch(b0, o0, b1, o1, root);
      SharedRejected(sem, inputs, ts, vs, old(exec.dev.Mem()), o0, root);
      OutsOwned(whole, o1, root, SupportAll(ts));
      var trace := if whole.Captured? then whole.trace
                   else GraphTrace(exec.dev.sem, exec.blobs, graph,
                       ReadAll(exec.dev.sem, ts, exec.dev.Mem()).value).value;
      NoneRealized(sem, blobs, graph, if whole.Captured? then capturedWith else vs, trace);
      var r, whole' := exec.dev.CallJit(whole, trace, ts, [], root);
      TouchedCall(b1, o1, exec.dev.bufs, exec.dev.owner, root);
      TouchedTrans(b0, o0, b1, o1, exec.dev.bufs, exec.dev.owner, root);
      exec.StepsLater@deduped();
      SegmentsLater@deduped();
      if !whole.Captured? {
        capturedWith := vs;
      }
      whole := whole';
      outs := r;
    }

    twostate lemma SegmentsLater()
      requires old(GraphOk()) && exec.StepsOk() && segmentSteps == old(segmentSteps)
      requires old(exec.dev.owner) <= exec.dev.owner
      ensures forall k :: k in segmentSteps ==> StepAtOk(k)
    {
      hide GraphTrace, SegmentTrace, PlanOk, JitOk;
      forall k | k in segmentSteps ensures StepAtOk(k) {
        assert old(StepAtOk(k));
        if segmentSteps[k].ByJit? {
          JitOkLater(segmentSteps[k].jit, old(exec.dev.owner), exec.dev.owner, root + [k]);
        }
      }
    }

    /** A graph that reads runtime scalars at its top, or has no inputs, is never captured. */
    predicate IsEager() {
      RunsEagerly(graph.nodes) || graph.inputs == []
    }

    /** A run: the graph's values, or those of its trace, whatever was run before on this executable
        or any other. */
    method Run(inputs: seq<Handle>, ghost vs: seq<Value>, ghost next: seq<Value>, ghost fuel: nat)
        returns (outs: Option<seq<Tensor>>)
      requires GraphOk() && GraphReady(exec.dev.sem, exec.blobs, graph, vs, next, fuel)
      requires (!IsEager() ==> CanCapture(vs))
      requires InputsOk(exec.dev.sem, inputs, vs, exec.dev.Mem(), exec.dev.owner, root)
      modifies this, exec, exec.dev
      ensures GraphOk() && Touched(old(exec.dev.bufs), old(exec.dev.owner), exec.dev.bufs, exec.dev.owner, root)
      ensures outs.None? <==>
          !IsEager() && (Sharing(exec.dev.sem, inputs) || exec.dev.breaks(old(exec.dev.calls)))
      ensures outs.None? ==> old(exec.dev.bufs) <= exec.dev.bufs
      ensures outs.Some? ==>
          ResultsAre(outs.value, old(Gives(vs, next)), exec.dev.Mem(), exec.dev.owner, root)
    {
      if RunsEagerly(graph.nodes) || graph.inputs == [] {
        var r := RunEager(TensorsOf(inputs), vs, next, fuel);
        assert forall j :: 0 <= j < |r| ==> Owned(r[j], next[j], exec.dev.Mem(), exec.dev.owner, old(|exec.dev.bufs|));
        outs := Some(r);
      } else {
        outs := RunCaptured(inputs, vs, next, fuel);
      }
    }

    /** A replay gives the graph's values if the graph reads no runtime scalar, or if on these inputs
        every frozen start is the graph's own; and, where starts can be told apart, only then. */
    lemma ReplayedRight(vs: seq<Value>, next: seq<Value>, fuel: nat)
      requires GraphOk() && GraphReady(exec.dev.sem, exec.blobs, graph, vs, next, fuel) && CanCapture(vs)
      requires whole.Captured?
      ensures GraphTrace(exec.dev.sem, exec.blobs, graph, capturedWith).Ok?
      ensures GraphTrace(exec.dev.sem, exec.blobs, graph, vs).Ok?
      ensures AllJitSafe(graph.nodes) || Agrees(exec.dev.sem, exec.blobs, graph, capturedWith, vs) ==>
          CallValues(vs, next) == next
      ensures Tells(exec.dev.sem) ==>
          (CallValues(vs, next) == next <==> Agrees(exec.dev.sem, exec.blobs, graph, capturedWith, vs))
    {
      hide GraphTrace, EvalSub, Tells, AllJitSafe, AllWf, AllSimple, Agrees;
      WfAllSimple(graph.nodes);
      ReplayRight(exec.dev.sem, exec.blobs, graph, capturedWith, vs, next, fuel);
      if AllJitSafe(graph.nodes) {
        GraphTraceSound(exec.dev.sem, exec.blobs, graph, capturedWith, vs, next, fuel);
      }
    }

    /** A graph that passes the guard can always be sent to capture. */
    lemma GuardedRight(vs: seq<Value>, next: seq<Value>, fuel: nat)
      requires GraphOk() && GraphReady(exec.dev.sem, exec.blobs, graph, vs, next, fuel) && AllJitSafe(graph.nodes)
      ensures CanCapture(vs) && CallValues(vs, next) == next
    {
      hide GraphTrace, EvalSub, AllJitSafe, AllWf;
      SafeNoLoops(graph.nodes);
      GraphTraceSound(exec.dev.sem, exec.blobs, graph, capturedWith, vs, next, fuel);
    }

    /** What a run gives: the graph's values, or, captured whole, those of the call. */
    ghost function Gives(vs: seq<Value>, next: seq<Value>): seq<Value>
      reads this, exec, exec.dev
    {
      if !IsEager() && CanCapture(vs) then CallValues(vs, next) else next
    }

    /** Every start of the captured trace is the graph's own on these inputs. */
    ghost predicate StartsAgree(vs: seq<Value>)
      reads this, exec, exec.dev
    {
      && GraphTrace(exec.dev.sem, exec.blobs, graph, capturedWith).Ok?
      && GraphTrace(exec.dev.sem, exec.blobs, graph, vs).Ok?
      && Agrees(exec.dev.sem, exec.blobs, graph, capturedWith, vs)
    }

    /** A sheltered graph gives its own values, whatever it was captured with.  Any other gives them if
        the captured starts are those of these inputs and, where operations tell operands and starts
        apart, only then. */
    lemma GivesRight(vs: seq<Value>, next: seq<Value>, fuel: nat)
      requires GraphOk() && GraphReady(exec.dev.sem, exec.blobs, graph, vs, next, fuel)
      ensures Sheltered(graph) ==> (IsEager() || CanCapture(vs)) && Gives(vs, next) == next
      ensures !IsEager() && CanCapture(vs) && whole.Captured? && Tells(exec.dev.sem) ==>
                (Gives(vs, next) == next <==> StartsAgree(vs))
    {
      hide GraphOk, GraphReady, AllJitSafe, RunsEagerly, GraphTrace, Agrees, Tells, NoneLoops, Sheltered;
      ShelteredExactly(graph);
      if AllJitSafe(graph.nodes) {
        GuardedRight(vs, next, fuel);
      }
      if CanCapture(vs) && whole.Captured? {
        ReplayedRight(vs, next, fuel);
      }
    }
  }

  /** Results in buffers that this executable's captured functions write, or none does. */
  ghost predicate ResultsAre(outs: seq<Tensor>, vs: seq<Value>, mem: Memory, owner: seq<Option<Path>>, root: Path) {
    |outs| == |vs| && forall j :: 0 <= j < |vs| ==> SegmentResult(outs[j], vs[j], mem, owner, root)
  }

  lemma NoneRealized(sem: Sem, blobs: seq<Bytes>, graph: Sub, was: seq<Value>, trace: seq<Tensor>)
    requires GraphTrace(sem, blobs, graph, was) == Ok(trace)
    ensures forall j :: 0 <= j < |trace| ==> !Realized(sem, trace[j])
  {
  }

  /** What a run may be given: realized tensors that hold the arguments, clear of the executable's own
      buffers; one tensor per reference. */
  ghost predicate InputsOk(sem: Sem, inputs: seq<Handle>, vs: seq<Value>, mem: Memory, o: seq<Option<Path>>,
      root: Path)
  {
    && Holds(sem, TensorsOf(inputs), mem, vs) && AllEarlier(SupportAll(TensorsOf(inputs)), o, root, 0)
    && (forall j :: 0 <= j < |inputs| ==> Realized(sem, inputs[j].tensor))
    && forall i, j :: 0 <= i < |inputs| && 0 <= j < |inputs| && inputs[i].ref == inputs[j].ref ==>
        inputs[i].tensor == inputs[j].tensor
  }

  lemma CapturedParts(sem: Sem, blobs: seq<Bytes>, graph: Sub, vs: seq<Value>, next: seq<Value>, fuel: nat)
    requires GraphReady(sem, blobs, graph, vs, next, fuel) && NoneLoops(graph.nodes)
    ensures GraphTrace(sem, blobs, graph, vs).Ok?
    ensures ReadAll(sem, GraphTrace(sem, blobs, graph, vs).value, Memory([], vs, [])) == Ok(next)
  {
    hide AllWf, AllSimple, EvalSub;
    WfAllSimple(graph.nodes);
    OwnTrace(sem, blobs, graph, vs, next, fuel);
  }

  /** Clone every repeated reference. */
  method Dedup(dev: Device, inputs: seq<Handle>, ghost vs: seq<Value>, ghost root: Path) returns (ts: seq<Tensor>)
    requires dev.Valid() && InputsOk(dev.sem, inputs, vs, dev.Mem(), dev.owner, root)
    modifies dev
    ensures dev.OnlyAdds(None) && Deduped(dev.sem, inputs, ts, old(|dev.bufs|))
    ensures ReadAll(dev.sem, ts, dev.Mem()) == Ok(vs) && SupportAll(ts) !! OwnedBy(dev.owner, root)
  {
    hide OwnedBy, Realized, ReadAll, Read, SupportAll, ClearOfRoot, Holds, InputsOk, SoFar, Deduped;
    ts := [];
    var seen: set<nat> := {};
    ghost var mem0, o0 := dev.Mem(), dev.owner;
    InputsRead(dev.sem, inputs, vs, mem0, o0, root);
    NothingSoFar(dev.sem, inputs, vs, mem0, o0, root);
    for j := 0 to |inputs|
      invariant dev.OnlyAdds(None)
      invariant forall r :: r in seen <==> exists i :: 0 <= i < j && inputs[i].ref == r
      invariant SoFar(dev.sem, inputs, ts, j, vs, dev.Mem(), dev.owner, root, |mem0.bufs|)
    {
      var t := inputs[j].tensor;
      ReadLater(dev.sem, t, mem0, dev.Mem());
      ghost var before, owner := dev.Mem(), dev.owner;
      if inputs[j].ref in seen {
        t := dev.Clone(t);
        OneCloned(dev.sem, inputs, ts, j, vs, before, owner, dev.Mem(), dev.owner, root, |mem0.bufs|);
      } else {
        seen := seen + {inputs[j].ref};
        InputClear(dev.sem, inputs, j, vs, mem0, o0, dev.owner, root);
        OneKept(dev.sem, inputs, ts, j, vs, before, owner, root, |mem0.bufs|);
      }
      ts := ts + [t];
    }
    AllDeduped(dev.sem, inputs, ts, vs, dev.Mem(), dev.owner, root, |mem0.bufs|);
  }

  /** The first j inputs, with every repeated reference cloned into a buffer from n on. */
  ghost predicate SoFar(sem: Sem, inputs: seq<Handle>, ts: seq<Tensor>, j: nat, vs: seq<Value>, mem: Memory,
      o: seq<Option<Path>>, root: Path, n: nat)
  {
    && |ts| == j <= |inputs| == |vs| && ReadAll(sem, ts, mem) == Ok(vs[..j]) && ClearOfRoot(ts, o, root)
    && (forall i :: 0 <= i < j ==>
        if First(inputs, i) then ts[i] == inputs[i].tensor else ts[i].Buf? && n <= ts[i].b < |mem.bufs|)
    && forall i, k :: 0 <= i < k < j && !First(inputs, i) && !First(inputs, k) ==> ts[i] != ts[k]
  }

  lemma NothingSoFar(sem: Sem, inputs: seq<Handle>, vs: seq<Value>, mem: Memory, o: seq<Option<Path>>, root: Path)
    requires |inputs| == |vs|
    ensures SoFar(sem, inputs, [], 0, vs, mem, o, root, |mem.bufs|)
  {
  }

  lemma InputsRead(sem: Sem, inputs: seq<Handle>, vs: seq<Value>, mem: Memory, o: seq<Option<Path>>, root: Path)
    requires InputsOk(sem, inputs, vs, mem, o, root)
    ensures |inputs| == |vs| && forall j :: 0 <= j < |inputs| ==> Read(sem, inputs[j].tensor, mem) == Ok(vs[j])
  {
    var ts := TensorsOf(inputs);
    HoldsAt(sem, ts, mem, vs);
    forall j | 0 <= j < |inputs| ensures Read(sem, inputs[j].tensor, mem) == Ok(vs[j]) {
      assert Read(sem, ts[j], mem) == Ok(vs[j]);
    }
  }

  lemma OneKept(sem: Sem, inputs: seq<Handle>, ts: seq<Tensor>, j: nat, vs: seq<Value>, mem: Memory,
      o: seq<Option<Path>>, root: Path, n: nat)
    requires SoFar(sem, inputs, ts, j, vs, mem, o, root, n) && j < |inputs| && First(inputs, j)
    requires Read(sem, inputs[j].tensor, mem) == Ok(vs[j]) && forall b :: b in Support(inputs[j].tensor) ==>
        b < |o| && !Under(o[b], root)
    ensures SoFar(sem, inputs, ts + [inputs[j].tensor], j + 1, vs, mem, o, root, n)
  {
    hide SupportAll, ReadAll, Read, Support;
    assert vs[..j + 1] == vs[..j] + [vs[j]];
    SupportAppend(ts, inputs[j].tensor);
    ReadOneMore(sem, ts, inputs[j].tensor, mem);
  }

  lemma OneCloned(sem: Sem, inputs: seq<Handle>, ts: seq<Tensor>, j: nat, vs: seq<Value>, mem: Memory,
      o: seq<Option<Path>>, mem': Memory, o': seq<Option<Path>>, root: Path, n: nat)
    requires SoFar(sem, inputs, ts, j, vs, mem, o, root, n) && j < |inputs| && !First(inputs, j)
    requires n <= |mem.bufs| == |o|
    requires mem' == mem.(bufs := mem.bufs + [vs[j]]) && o <= o' && |o'| == |mem'.bufs| && o'[|o|].None?
    ensures SoFar(sem, inputs, ts + [Buf(|mem.bufs|)], j + 1, vs, mem', o', root, n)
  {
    hide SupportAll, ReadAll;
    var t := Buf(|mem.bufs|);
    assert vs[..j + 1] == vs[..j] + [vs[j]];
    ReadAllLater(sem, ts, mem, mem');
    SupportAppend(ts, t);
    ReadOneMore(sem, ts, t, mem');
  }

  lemma AllDeduped(sem: Sem, inputs: seq<Handle>, ts: seq<Tensor>, vs: seq<Value>, mem: Memory, o: seq<Option<Path>>,
      root: Path, n: nat)
    requires SoFar(sem, inputs, ts, |inputs|, vs, mem, o, root, n)
    ensures Deduped(sem, inputs, ts, n) && ReadAll(sem, ts, mem) == Ok(vs) && SupportAll(ts) !! OwnedBy(o, root)
  {
    assert vs[..|inputs|] == vs;
  }

  ghost predicate ClearOfRoot(ts: seq<Tensor>, o: seq<Option<Path>>, root: Path) {
    forall b :: b in SupportAll(ts) ==> b < |o| && !Under(o[b], root)
  }

  lemma InputClear(sem: Sem, inputs: seq<Handle>, j: nat, vs: seq<Value>, mem: Memory, o0: seq<Option<Path>>,
      o: seq<Option<Path>>, root: Path)
    requires j < |inputs| && InputsOk(sem, inputs, vs, mem, o0, root) && o0 <= o
    ensures forall b :: b in Support(inputs[j].tensor) ==> b < |o| && !Under(o[b], root)
  {
    forall b | b in Support(inputs[j].tensor) ensures b < |o| && !Under(o[b], root) {
      assert b in Support(TensorsOf(inputs)[j]);
      SupportAllAt(TensorsOf(inputs), b);
      assert Earlier(o0[b], root, 0);
    }
  }

  /** References that share a buffer are what the capture rejects. */
  lemma SharedRejected(sem: Sem, inputs: seq<Handle>, ts: seq<Tensor>, vs: seq<Value>, mem: Memory,
      o: seq<Option<Path>>, root: Path)
    requires InputsOk(sem, inputs, vs, mem, o, root) && Deduped(sem, inputs, ts, |mem.bufs|)
    ensures DistinctBases(sem, ts) <==> !Sharing(sem, inputs)
  {
    hide DistinctBases, Sharing, Deduped;
    HoldsAt(sem, TensorsOf(inputs), mem, vs);
    forall j, b | 0 <= j < |inputs| && b in BaseBuf(sem, inputs[j].tensor) ensures b < |mem.bufs| {
      assert Read(sem, TensorsOf(inputs)[j], mem).Ok?;
      ReadBound(sem, inputs[j].tensor, mem);
      BaseInSupport(sem, inputs[j].tensor);
    }
    DedupDistinct(sem, inputs, ts, |mem.bufs|);
  }

  lemma ItemsEnds(items: seq<Item>, nodes: seq<Node>, constants: set<nat>, outs: seq<nat>)
    requires PlanOk(items, nodes, constants, outs)
    ensures Begin(items, 0) == 0 && Begin(items, |items|) == |nodes|
  {
    assert items[..|items|] == items;
  }

  lemma SkipSegment(sem: Sem, blobs: seq<Bytes>, graph: Sub, items: seq<Item>, k: nat, vs: seq<Value>, next: seq<Value>,
      env: TensorEnv, mem: Memory, o: seq<Option<Path>>, root: Path, fuel: nat)
    requires GraphReady(sem, blobs, graph, vs, next, fuel)
    requires PlanOk(items, graph.nodes, ConstantSet(graph.constants), OutIds(graph.outputs))
    requires k < |items| && items[k].Segment? && items[k].outputIds == [] && |o| == |mem.bufs|
    requires InitialEnv(sem, blobs, graph, vs).Ok?
    requires AtItem(sem, blobs, graph.nodes, Begin(items, k), k, OutIds(graph.outputs), env,
        InitialEnv(sem, blobs, graph, vs).value, DeclaredShapes(graph), mem, o, root, fuel)
    ensures AtItem(sem, blobs, graph.nodes, Begin(items, k + 1), k + 1, OutIds(graph.outputs), env,
        InitialEnv(sem, blobs, graph, vs).value, DeclaredShapes(graph), mem, o, root, fuel)
  {
    hide AtItem, PlanOk, EvalNodes, InitialEnv, GraphReady, ShapeLaw, SubOk, TypedNodes, Shaped, AllEnter, AllWf;
    ReadyParts(sem, blobs, graph, vs, next, fuel);
    WithinGraph(items, graph.nodes, ConstantSet(graph.constants), OutIds(graph.outputs), k);
    DeadSegment(sem, blobs, items, k, graph.nodes, ConstantSet(graph.constants), OutIds(graph.outputs), env,
        InitialEnv(sem, blobs, graph, vs).value, DeclaredShapes(graph), mem, o, root, fuel);
  }

  /** The environment a run starts with. */
  lemma RunBegins(sem: Sem, blobs: seq<Bytes>, graph: Sub, inputs: seq<Tensor>, vs: seq<Value>, next: seq<Value>,
      mem: Memory, o: seq<Option<Path>>, root: Path, fuel: nat)
    requires GraphReady(sem, blobs, graph, vs, next, fuel) && Holds(sem, inputs, mem, vs)
    requires AllEarlier(SupportAll(inputs), o, root, 0)
    ensures InitialEnv(sem, blobs, graph, vs).Ok? && FirstEnv(sem, blobs, graph, inputs).Ok?
    ensures AtItem(sem, blobs, graph.nodes, 0, 0, OutIds(graph.outputs), FirstEnv(sem, blobs, graph, inputs).value,
        InitialEnv(sem, blobs, graph, vs).value, DeclaredShapes(graph), mem, o, root, fuel)
  {
    hide EvalNodes, SubOk, TypedNodes;
    assert graph.nodes[..0] == [];
    ReadyParts(sem, blobs, graph, vs, next, fuel);
    LiteralsDenote(sem, blobs, graph.constants, mem);
    var lits := LiteralTensors(sem, blobs, graph.constants).value;
    InputsDenote(sem, graph.inputs, inputs, vs, lits, BindConstants(sem, blobs, graph.constants).value, mem);
    var env := FirstEnv(sem, blobs, graph, inputs).value;
    AllReadAt(sem, graph.nodes, OutIds(graph.outputs), env, InitialEnv(sem, blobs, graph, vs).value, mem);
    LiteralsMadeOf(sem, blobs, graph.constants, SupportAll(inputs), true);
    BindMadeOf(graph.inputs, inputs, lits, SupportAll(inputs), true);
    EvalNone(sem, blobs, InitialEnv(sem, blobs, graph, vs).value, fuel);
  }

  lemma EvalNone(sem: Sem, blobs: seq<Bytes>, env: Env, fuel: nat)
    ensures EvalNodes(sem, blobs, [], env, [], fuel) == Ok(env)
  {
  }

  /** At the end, the outputs read as the graph's values. */
  lemma RunEnds(sem: Sem, blobs: seq<Bytes>, graph: Sub, k: nat, env: TensorEnv, vs: seq<Value>, next: seq<Value>,
      mem: Memory, o: seq<Option<Path>>, root: Path, fuel: nat)
    requires GraphReady(sem, blobs, graph, vs, next, fuel) && InitialEnv(sem, blobs, graph, vs).Ok?
    requires AtItem(sem, blobs, graph.nodes, |graph.nodes|, k, OutIds(graph.outputs), env,
        InitialEnv(sem, blobs, graph, vs).value, DeclaredShapes(graph), mem, o, root, fuel)
    ensures Tensors(env, OutIds(graph.outputs)).Ok?
    ensures ReadAll(sem, Tensors(env, OutIds(graph.outputs)).value, mem) == Ok(next)
  {
    hide EvalNodes, SubOk, TypedNodes, InitialEnv, ShapeLaw;
    assert graph.nodes[..|graph.nodes|] == graph.nodes;
    ReadyParts(sem, blobs, graph, vs, next, fuel);
    OutputsRead(sem, graph.nodes, OutIds(graph.outputs), env,
        EvalNodes(sem, blobs, graph.nodes, InitialEnv(sem, blobs, graph, vs).value, [], fuel).value, mem);
  }

  /** A graph with no segments is one list of nodes. */
  lemma WholeStart(sem: Sem, blobs: seq<Bytes>, graph: Sub, env: TensorEnv, vs: seq<Value>, mem: Memory,
      o: seq<Option<Path>>, root: Path, fuel: nat) returns (ms: seq<Taints>)
    requires InitialEnv(sem, blobs, graph, vs).Ok? && AllEnter(sem, graph.nodes)
    requires TypedNodes(sem, graph.nodes, DeclaredShapes(graph))
    requires AtItem(sem, blobs, graph.nodes, 0, 0, OutIds(graph.outputs), env, InitialEnv(sem, blobs, graph, vs).value,
        DeclaredShapes(graph), mem, o, root, fuel)
    ensures LiveReads(sem, graph.nodes, 0, OutIds(graph.outputs), env, InitialEnv(sem, blobs, graph, vs).value, mem)
    ensures SafeChain(sem, graph.nodes, OutIds(graph.outputs), root, ms)
    ensures EnvTainted(sem, env, ms[0], o, root) && EnvMade(env, EarlierSet(o, root, 0), o, root, |mem.bufs|)
  {
    hide EvalNodes, Live, InitialEnv, SafeStep, AllEnter, TypedNodes;
    assert graph.nodes[..0] == [];
    EvalNone(sem, blobs, InitialEnv(sem, blobs, graph, vs).value, fuel);
    ms := OnceEntered(sem, graph.nodes, OutIds(graph.outputs), root, DeclaredShapes(graph));
    forall id | id in env ensures TensorTainted(sem, env[id], CLEAN, o, root) {
      assert AllEarlier(Support(env[id]), o, root, 0);
      BaseInSupport(sem, env[id]);
    }
  }

  lemma ReadyParts(sem: Sem, blobs: seq<Bytes>, graph: Sub, vs: seq<Value>, next: seq<Value>, fuel: nat)
    requires GraphReady(sem, blobs, graph, vs, next, fuel)
    ensures ShapeLaw(sem) && SubOk(graph) && AllEnter(sem, graph.nodes) && AllWf(graph.nodes)
    ensures TypedNodes(sem, graph.nodes, DeclaredShapes(graph))
    ensures InitialEnv(sem, blobs, graph, vs).Ok?
    ensures Shaped(sem, InitialEnv(sem, blobs, graph, vs).value, DeclaredShapes(graph))
    ensures EvalNodes(sem, blobs, graph.nodes, InitialEnv(sem, blobs, graph, vs).value, [], fuel).Ok?
    ensures Lookup(EvalNodes(sem, blobs, graph.nodes, InitialEnv(sem, blobs, graph, vs).value, [], fuel).value,
        OutIds(graph.outputs)) == Ok(next)
  {
    hide EvalNodes, SubOk, TypedNodes, Shaped, AllEnter, AllWf, Lookup, BindConstants, BindInputs, DeclaredShapes,
        ShapeLaw;
    InitialShaped(sem, blobs, graph, vs);
  }

  lemma AtShaped(sem: Sem, blobs: seq<Bytes>, nodes: seq<Node>, i: nat, k: nat, outs: seq<nat>, env: TensorEnv,
      vals0: Env, shapes: Shapes, mem: Memory, owner: seq<Option<Path>>, root: Path, fuel: nat)
    requires AtItem(sem, blobs, nodes, i, k, outs, env, vals0, shapes, mem, owner, root, fuel)
    ensures i <= |nodes| && EvalNodes(sem, blobs, nodes[..i], vals0, [], fuel).Ok?
    ensures Shaped(sem, EvalNodes(sem, blobs, nodes[..i], vals0, [], fuel).value, shapes)
  {
  }

  lemma WithinGraph(items: seq<Item>, nodes: seq<Node>, constants: set<nat>, outs: seq<nat>, k: nat)
    requires PlanOk(items, nodes, constants, outs) && k < |items|
    ensures Begin(items, k) <= Begin(items, k + 1) == Begin(items, k) + |NodesOf(items[k])| <= |nodes|
    ensures Flatten(items) == nodes && nodes[Begin(items, k)..Begin(items, k + 1)] == NodesOf(items[k])
  {
    FlattenSplit(items, k);
  }

  lemma FreshStepOk(sem: Sem, blobs: seq<Bytes>, constants: seq<Constant>, item: Item, owner: seq<Option<Path>>,
      p: Path)
    requires item.Segment?
    ensures SegmentStepOk(sem, blobs, constants, item, ByJit(Fresh), owner, p)
    ensures SegmentStepOk(sem, blobs, constants, item, ByNode, owner, p)
  {
  }

  lemma WantedAre(sem: Sem, vals: Env, ids: seq<nat>, wanted: seq<Value>, rs: seq<Tensor>, mem: Memory,
      owner: seq<Option<Path>>, p: Path)
    requires Lookup(vals, ids) == Ok(wanted) && |rs| == |wanted|
    requires forall j :: 0 <= j < |wanted| ==> SegmentResult(rs[j], wanted[j], mem, owner, p)
    ensures |rs| == |ids| && forall j :: 0 <= j < |rs| ==> SegmentResult(rs[j], vals[ids[j]], mem, owner, p)
  {
  }

  /** Nothing that exists was written: the environment stands. */
  lemma AtLater(sem: Sem, blobs: seq<Bytes>, nodes: seq<Node>, i: nat, k: nat, outs: seq<nat>, env: TensorEnv,
      vals0: Env, shapes: Shapes, mem: Memory, mem': Memory, o: seq<Option<Path>>, o': seq<Option<Path>>, root: Path,
      fuel: nat)
    requires AtItem(sem, blobs, nodes, i, k, outs, env, vals0, shapes, mem, o, root, fuel)
    requires mem.bufs <= mem'.bufs && mem'.args == mem.args && mem'.sym == mem.sym && o <= o'
    ensures AtItem(sem, blobs, nodes, i, k, outs, env, vals0, shapes, mem', o', root, fuel)
  {
    hide EvalNodes, Live;
    var vals := EvalNodes(sem, blobs, nodes[..i], vals0, [], fuel).value;
    forall id | id in vals && Live(nodes, i, outs, id) ensures id in env && Read(sem, env[id], mem') == Ok(vals[id]) {
      ReadLater(sem, env[id], mem, mem');
    }
    forall id | id in env ensures Concrete(env[id]) && AllEarlier(Support(env[id]), o', root, k) {
      assert AllEarlier(Support(env[id]), o, root, k);
      forall b | b in Support(env[id]) ensures b < |o'| && Earlier(o'[b], root, k) {
        assert Earlier(o[b], root, k);
      }
    }
  }
}
