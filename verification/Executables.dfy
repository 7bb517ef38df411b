/** A compiled graph's executor: loops through cached captured steps, everything else node by node. */
module Executables {
  import opened Values
  import opened GraphIR
  import opened GraphForm
  import opened Typing
  import opened SymbolicPlan
  import opened SymbolicSound
  import opened LazyTensors
  import opened LazySound
  import opened Devices
  import opened Reentry
  import opened PassThrough
  import opened TaintSound
  import opened Capture
  import opened NodeRuns
  import opened LoopStates
  import opened Steps
  import opened Executor

  /** A sub-graph that fits its arguments. */
  ghost predicate SubReady(sem: Sem, sub: Sub, vs: seq<Value>) {
    && SubOk(sub) && AllWf(sub.nodes) && TypedSub(sem, sub, ShapesOfValues(sem, vs))
  }

  /** A loop that fits its state. */
  ghost predicate LoopReady(sem: Sem, node: Node, vs: seq<Value>) {
    && node.While? && NodeWf(node)
    && var s := ShapesOfValues(sem, vs);
       && TypedSub(sem, node.cond, s) && TypedSub(sem, node.body, s)
       && AllIn(OutIds(node.body.outputs), DeclaredShapes(node.body))
       && ShapesOf(OutIds(node.body.outputs), DeclaredShapes(node.body)) == s
  }

  lemma NodeReady(sem: Sem, nodes: seq<Node>, shapes: Shapes, i: nat, vals: Env, vs: seq<Value>)
    requires AllWf(nodes) && TypedNodes(sem, nodes, shapes) && i < |nodes| && nodes[i].While?
    requires Shaped(sem, vals, shapes) && Lookup(vals, nodes[i].inputs) == Ok(vs)
    ensures LoopReady(sem, nodes[i], vs) && |nodes[i].outputs| == |nodes[i].inputs| == |vs|
  {
    TypedAt(sem, nodes, shapes, i);
    assert ShapesOfValues(sem, vs) == ShapesOf(nodes[i].inputs, shapes);
    assert |OutIds(nodes[i].outputs)| == |ShapesOf(nodes[i].inputs, shapes)|;
  }

  lemma ReadySubs(sem: Sem, node: Node, vs: seq<Value>)
    requires LoopReady(sem, node, vs)
    ensures SubReady(sem, node.cond, vs) && SubReady(sem, node.body, vs) && |node.body.outputs| == |vs|
    ensures !RequiresEager(node.body) ==> CapturedLoop(sem, node) && Capturable(sem, node.body, ShapesOfValues(sem, vs))
    ensures InputsDeclared(node.body.nodes, DeclaredShapes(node.body))
  {
    TypedDeclares(sem, node.body.nodes, DeclaredShapes(node.body));
    if !RequiresEager(node.body) {
      CapturedBody(sem, node);
    }
  }

  lemma ReadyNext(sem: Sem, blobs: seq<Bytes>, node: Node, vs: seq<Value>, next: seq<Value>, fuel: nat)
    requires LoopReady(sem, node, vs) && ShapeLaw(sem) && EvalSub(sem, blobs, node.body, vs, [], fuel) == Ok(next)
    ensures LoopReady(sem, node, next) && |next| == |vs|
  {
    SubShaped(sem, blobs, node.body, vs, [], fuel);
    assert ShapesOfValues(sem, next) == ShapesOfValues(sem, vs);
    assert |ShapesOfValues(sem, next)| == |ShapesOfValues(sem, vs)|;
  }

  /** A loop that ends either stops now, or does one more iteration. */
  lemma LoopStep(sem: Sem, blobs: seq<Bytes>, node: Node, vs: seq<Value>, left: nat, final: seq<Value>, fuel: nat)
    requires node.While? && EvalLoop(sem, blobs, node, vs, left, fuel) == Ok(final)
    ensures var test := EvalSub(sem, blobs, node.cond, vs, [], fuel);
            && test.Ok? && test.value != []
            && if !sem.truthy(test.value[0]) then final == vs
               else
                 && left > 0 && EvalSub(sem, blobs, node.body, vs, [], fuel).Ok?
                 && EvalLoop(sem, blobs, node, EvalSub(sem, blobs, node.body, vs, [], fuel).value, left - 1, fuel) ==
                     Ok(final)
  {
  }

  lemma StepOkLater(sem: Sem, blobs: seq<Bytes>, key: Key, step: Step, o: seq<Option<Path>>, o': seq<Option<Path>>)
    requires StepOk(sem, blobs, key, step, o) && o <= o'
    ensures StepOk(sem, blobs, key, step, o')
  {
    if step.Jitted? {
      JitOkLater(step.jit, o, o', key.path);
    }
  }

  /** Every operand in a buffer, to start a loop with. */
  method MaterializeAll(dev: Device, ts: seq<Tensor>, ghost vs: seq<Value>) returns (rs: seq<Tensor>)
    requires dev.Valid() && Holds(dev.sem, ts, dev.Mem(), vs)
    modifies dev
    ensures dev.OnlyAdds(None) && |rs| == |ts| == |vs|
    ensures forall j :: 0 <= j < |rs| ==>
        Settled(dev.sem, ts[j], rs[j], vs[j], dev.Mem(), dev.owner, old(|dev.bufs|)) && Realized(dev.sem, rs[j])
  {
    rs := [];
    ghost var mem0 := dev.Mem();
    HoldsAt(dev.sem, ts, mem0, vs);
    for i := 0 to |ts|
      invariant dev.OnlyAdds(None) && |rs| == i
      invariant forall j :: 0 <= j < i ==>
          Settled(dev.sem, ts[j], rs[j], vs[j], dev.Mem(), dev.owner, |mem0.bufs|) && Realized(dev.sem, rs[j])
    {
      ghost var before, owner := dev.Mem(), dev.owner;
      ReadLater(dev.sem, ts[i], mem0, before);
      var r := dev.Materialize(ts[i]);
      forall j | 0 <= j < i ensures Settled(dev.sem, ts[j], rs[j], vs[j], dev.Mem(), dev.owner, |mem0.bufs|) {
        assert Settled(dev.sem, ts[j], rs[j], vs[j], before, owner, |mem0.bufs|);
        ReadLater(dev.sem, rs[j], before, dev.Mem());
      }
      rs := rs + [r];
    }
  }

  /** Run what is pending in each. */
  method RealizeAll(dev: Device, ts: seq<Tensor>, ghost vs: seq<Value>) returns (rs: seq<Tensor>)
    requires dev.Valid() && Holds(dev.sem, ts, dev.Mem(), vs)
    modifies dev
    ensures dev.OnlyAdds(None) && |rs| == |ts| == |vs|
    ensures forall j :: 0 <= j < |rs| ==> Settled(dev.sem, ts[j], rs[j], vs[j], dev.Mem(), dev.owner, old(|dev.bufs|))
    ensures forall j :: 0 <= j < |rs| && Realized(dev.sem, ts[j]) ==> rs[j] == ts[j]
  {
    rs := [];
    ghost var mem0 := dev.Mem();
    HoldsAt(dev.sem, ts, mem0, vs);
    for i := 0 to |ts|
      invariant dev.OnlyAdds(None) && |rs| == i
      invariant forall j :: 0 <= j < i ==> Settled(dev.sem, ts[j], rs[j], vs[j], dev.Mem(), dev.owner, |mem0.bufs|)
      invariant forall j :: 0 <= j < i && Realized(dev.sem, ts[j]) ==> rs[j] == ts[j]
    {
      ghost var before, owner := dev.Mem(), dev.owner;
      ReadLater(dev.sem, ts[i], mem0, before);
      var r := dev.Realize(ts[i]);
      forall j | 0 <= j < i ensures Settled(dev.sem, ts[j], rs[j], vs[j], dev.Mem(), dev.owner, |mem0.bufs|) {
        assert Settled(dev.sem, ts[j], rs[j], vs[j], before, owner, |mem0.bufs|);
        ReadLater(dev.sem, rs[j], before, dev.Mem());
      }
      rs := rs + [r];
    }
  }

  // -- certificates -------------------------------------------------------------------------

  /** What makes a loop safe: the taints of its variables, and those along its condition and body. */
  datatype Certificate = Certificate(taints: seq<set<Path>>, cond: seq<Taints>, body: seq<Taints>)

  ghost predicate Certifies(sem: Sem, node: Node, k: Path, c: Certificate)
    requires node.While?
  {
    && |c.taints| == |node.body.outputs|
    && (forall j :: 0 <= j < |c.taints| ==> Clean(c.taints[j], k + [0]))
    && (!RequiresEager(node.body) ==> forall j :: 0 <= j < |c.taints| ==>
        (k in c.taints[j] <==> !Invariant(node.body, j)))
    && SafeChain(sem, node.cond.nodes, OutIds(node.cond.outputs), k + [0], c.cond)
        && c.cond[0] == StartTaints(node.cond.inputs, Held(c.taints))
    && SafeChain(sem, node.body.nodes, OutIds(node.body.outputs), k + [1], c.body)
        && c.body[0] == StartTaints(node.body.inputs, Held(c.taints))
    && forall j :: 0 <= j < |c.taints| ==>
        TaintAt(c.body[|node.body.nodes|], node.body.outputs[j].id).base <= c.taints[j]
  }

  ghost function CertificateOf(sem: Sem, node: Node, k: Path, a: seq<set<Path>>, t: seq<set<Path>>): (c: Certificate)
    requires node.While? && SafeLoop(sem, node, k, a, t)
    ensures Certifies(sem, node, k, c) && c.taints == t && |a| == |t| && forall j :: 0 <= j < |t| ==> a[j] <= t[j]
  {
    var cond: seq<Taints> :|
      SafeChain(sem, node.cond.nodes, OutIds(node.cond.outputs), k + [0], cond)
          && cond[0] == StartTaints(node.cond.inputs, Held(t));
    var body: seq<Taints> :|
      && SafeChain(sem, node.body.nodes, OutIds(node.body.outputs), k + [1], body)
          && body[0] == StartTaints(node.body.inputs, Held(t))
      && forall j :: 0 <= j < |t| ==> TaintAt(body[|node.body.nodes|], node.body.outputs[j].id).base <= t[j];
    Certificate(t, cond, body)
  }

  /** A captured step may be called with such a state. */
  lemma ReadyClear(sem: Sem, node: Node, k: Path, top: Path, s: set<nat>, c: Certificate, state: seq<Tensor>,
      vs: seq<Value>, mem: Memory, owner: seq<Option<Path>>, n: nat)
    requires node.While? && !RequiresEager(node.body) && Certifies(sem, node, k, c) && top <= k
    requires LoopState(sem, node.body, k, top, s, c.taints, state, vs, mem, owner, n)
    ensures ClearOf(sem, node.body, state, OwnedBy(owner, k))
  {
    hide SafeChain;
    forall j | 0 <= j < |state| && Invariant(node.body, j) ensures Realized(sem, state[j])
        && Support(state[j]) !! OwnedBy(owner, k) {
      assert VarOk(sem, node.body, k, top, s, c.taints[j], j, state[j], vs[j], mem, owner, n);
      assert k !in c.taints[j];
    }
  }

  /** Nothing that exists was written: the state stands. */
  lemma StateLater(sem: Sem, body: Sub, k: Path, top: Path, s: set<nat>, taints: seq<set<Path>>, state: seq<Tensor>,
      vs: seq<Value>, mem: Memory, mem': Memory, o: seq<Option<Path>>, o': seq<Option<Path>>, n: nat)
    requires LoopState(sem, body, k, top, s, taints, state, vs, mem, o, n)
    requires mem.bufs <= mem'.bufs && mem'.args == mem.args && mem'.sym == mem.sym && o <= o'
    ensures LoopState(sem, body, k, top, s, taints, state, vs, mem', o', n)
  {
    forall j | 0 <= j < |state| ensures VarOk(sem, body, k, top, s, taints[j], j, state[j], vs[j], mem', o', n) {
      assert VarOk(sem, body, k, top, s, taints[j], j, state[j], vs[j], mem, o, n);
      ReadLater(sem, state[j], mem, mem');
      MadeLater(Support(state[j]), s, o, o', k, n);
    }
  }

  /** What a captured iteration returns is the next state. */
  lemma StepState(sem: Sem, blobs: seq<Bytes>, node: Node, k: Path, top: Path, s: set<nat>, c: Certificate,
      state: seq<Tensor>, vs: seq<Value>, rs: seq<Tensor>, next: seq<Value>, mem: Memory, mem': Memory,
      o: seq<Option<Path>>, o': seq<Option<Path>>, n: nat, fuel: nat)
    requires node.While? && SubOk(node.body) && EvalSub(sem, blobs, node.body, vs, [], fuel) == Ok(next)
    requires !RequiresEager(node.body) && Certifies(sem, node, k, c) && top <= k
    requires LoopState(sem, node.body, k, top, s, c.taints, state, vs, mem, o, n)
    requires |rs| == |state| == |next| && n <= |o| == |mem.bufs| && |o'| == |mem'.bufs| && o <= o'
    requires mem'.args == mem.args && mem'.sym == mem.sym
    requires forall b :: 0 <= b < |mem.bufs| && o[b] != Some(k) ==> mem'.bufs[b] == mem.bufs[b]
    requires forall j :: 0 <= j < |state| ==>
        StepResult(sem, node.body, j, state[j], rs[j], next[j], mem', o', k, |mem.bufs|)
    ensures LoopState(sem, node.body, k, top, s, c.taints, rs, next, mem', o', n)
  {
    hide EvalSub, SubOk, SafeChain;
    ReadyClear(sem, node, k, top, s, c, state, vs, mem, o, n);
    forall j | 0 <= j < |rs| ensures VarOk(sem, node.body, k, top, s, c.taints[j], j, rs[j], next[j], mem', o', n) {
      assert VarOk(sem, node.body, k, top, s, c.taints[j], j, state[j], vs[j], mem, o, n);
      assert StepResult(sem, node.body, j, state[j], rs[j], next[j], mem', o', k, |mem.bufs|);
      if Invariant(node.body, j) {
        InvariantValue(sem, blobs, node.body, vs, next, [], fuel, j);
        KeptRead(sem, state[j], mem, mem', o, k);
        MadeLater(Support(state[j]), s, o, o', k, n);
      } else {
        assert Support(rs[j]) == {rs[j].b};
      }
    }
  }

  lemma KeptRead(sem: Sem, t: Tensor, mem: Memory, mem': Memory, o: seq<Option<Path>>, k: Path)
    requires Read(sem, t, mem).Ok? && Support(t) !! OwnedBy(o, k) && |o| == |mem.bufs| <= |mem'.bufs|
    requires mem'.args == mem.args && mem'.sym == mem.sym
    requires forall b :: 0 <= b < |mem.bufs| && o[b] != Some(k) ==> mem'.bufs[b] == mem.bufs[b]
    ensures Read(sem, t, mem') == Read(sem, t, mem)
  {
    ReadBound(sem, t, mem);
    ReadStable(sem, t, mem, mem');
  }

  lemma LengthOk(sem: Sem, blobs: seq<Bytes>, node: Node, vs: seq<Value>, next: seq<Value>, fuel: nat)
    requires LoopReady(sem, node, vs) && EvalSub(sem, blobs, node.body, vs, [], fuel) == Ok(next)
    ensures |next| == |vs| == |node.body.outputs|
  {
    ReadySubs(sem, node, vs);
  }

  /** The environment a sub-graph starts with. */
  function FirstEnv(sem: Sem, blobs: seq<Bytes>, sub: Sub, params: seq<Tensor>): Outcome<TensorEnv> {
    var lits :- LiteralTensors(sem, blobs, sub.constants);
    BindTensors(sub.inputs, params, lits)
  }

  lemma SubStart(sem: Sem, blobs: seq<Bytes>, sub: Sub, params: seq<Tensor>, p: Path, top: Path, taints: seq<Taint>,
      vs: seq<Value>, mem: Memory, o: seq<Option<Path>>, n: nat, fuel: nat)
    requires ShapeLaw(sem) && SubReady(sem, sub, vs) && EvalSub(sem, blobs, sub, vs, [], fuel).Ok?
    requires Holds(sem, params, mem, vs) && AllTensorsTainted(sem, params, taints, o, top)
    ensures InitialEnv(sem, blobs, sub, vs).Ok?
    ensures var vals := InitialEnv(sem, blobs, sub, vs).value;
            && Shaped(sem, vals, DeclaredShapes(sub)) && EvalNodes(sem, blobs, sub.nodes, vals, [], fuel).Ok?
            && FirstEnv(sem, blobs, sub, params).Ok?
            && var env := FirstEnv(sem, blobs, sub, params).value;
               && LiveReads(sem, sub.nodes, 0, OutIds(sub.outputs), env, vals, mem)
               && EnvTainted(sem, env, StartTaints(sub.inputs, taints), o, top)
                   && EnvMade(env, SupportAll(params), o, p, n)
  {
    hide ShapeLaw, EvalNodes, TypedSub, AllWf, SubOk, Shaped, DeclaredShapes, LiveReads, EnvTainted, EnvMade,
        StartTaints, AllTensorsTainted;
    var vals := InitialEnv(sem, blobs, sub, vs).value;
    InitialShaped(sem, blobs, sub, vs);
    LiteralsDenote(sem, blobs, sub.constants, mem);
    var lits := LiteralTensors(sem, blobs, sub.constants).value;
    LiteralsStart(sem, blobs, sub.constants, o, p, SupportAll(params), n);
    InputsDenote(sem, sub.inputs, params, vs, lits, BindConstants(sem, blobs, sub.constants).value, mem);
    InputsStart(sem, sub.inputs, params, lits, o, p, top, taints, n);
    AllReadAt(sem, sub.nodes, OutIds(sub.outputs), FirstEnv(sem, blobs, sub, params).value, vals, mem);
  }

  lemma SubEnd(sem: Sem, blobs: seq<Bytes>, sub: Sub, params: seq<Tensor>, env: TensorEnv, vs: seq<Value>,
      next: seq<Value>, last: Taints, mem: Memory, o: seq<Option<Path>>, p: Path, top: Path, n: nat, fuel: nat)
    requires SubOk(sub) && EvalSub(sem, blobs, sub, vs, [], fuel) == Ok(next) && FirstEnv(sem, blobs, sub, params).Ok?
    requires LiveReads(sem, sub.nodes, |sub.nodes|, OutIds(sub.outputs), env,
        EvalNodes(sem, blobs, sub.nodes, InitialEnv(sem, blobs, sub, vs).value, [], fuel).value, mem)
    requires EnvTainted(sem, env, last, o, top) && EnvMade(env, SupportAll(params), o, p, n)
    requires OnlyDefines(FirstEnv(sem, blobs, sub, params).value, env, sub.nodes)
    ensures Tensors(env, OutIds(sub.outputs)).Ok?
    ensures var outs := Tensors(env, OutIds(sub.outputs)).value;
            && Holds(sem, outs, mem, next) && OutputsMade(outs, params, o, p, n)
            && (forall j :: 0 <= j < |outs| ==> TensorTainted(sem, outs[j], TaintAt(last, sub.outputs[j].id), o, top))
            && forall j :: 0 <= j < |outs| && Invariant(sub, j) ==> j < |params| && outs[j] == params[j]
  {
    hide SubOk;
    var ids := OutIds(sub.outputs);
    OutputsRead(sem, sub.nodes, ids, env, EvalNodes(sem, blobs, sub.nodes, InitialEnv(sem, blobs, sub, vs).value, [],
        fuel).value, mem);
    var outs := Tensors(env, ids).value;
    ArgsMade(env, ids, SupportAll(params), o, p, n);
    forall j | 0 <= j < |outs| ensures AllMade(Support(outs[j]), SupportAll(params), o, p, n) {
      assert outs[j] == env[ids[j]];
    }
    forall j | 0 <= j < |outs| ensures TensorTainted(sem, outs[j], TaintAt(last, sub.outputs[j].id), o, top) {
      assert outs[j] == env[ids[j]] && ids[j] == sub.outputs[j].id;
    }
    forall j | 0 <= j < |outs| && Invariant(sub, j) ensures j < |params| && outs[j] == params[j] {
      InputsOnly(sub);
      InputTensorBound(sub.inputs, j, params, LiteralTensors(sem, blobs, sub.constants).value);
      assert NodeIds(sub.nodes)[ids[j]] == 0;
    }
  }

  /** What holds after the first i nodes of a list. */
  ghost predicate RunInv(sem: Sem, blobs: seq<Bytes>, nodes: seq<Node>, i: nat, outs: seq<nat>, env0: TensorEnv,
      env: TensorEnv, m: Taints, s: set<nat>, vals0: Env, shapes: Shapes, mem: Memory, o: seq<Option<Path>>, p: Path,
      top: Path, n: nat, fuel: nat)
  {
    && i <= |nodes| && EvalNodes(sem, blobs, nodes[..i], vals0, [], fuel).Ok?
    && var vals := EvalNodes(sem, blobs, nodes[..i], vals0, [], fuel).value;
       && Shaped(sem, vals, shapes)
       && LiveReads(sem, nodes, i, outs, env, vals, mem)
       && EnvTainted(sem, env, m, o, top)
       && EnvMade(env, s, o, p, n)
       && OnlyDefines(env0, env, nodes[..i])
  }

  lemma RunStart(sem: Sem, blobs: seq<Bytes>, nodes: seq<Node>, outs: seq<nat>, env: TensorEnv, m: Taints, s: set<nat>,
                 vals: Env, shapes: Shapes, mem: Memory, o: seq<Option<Path>>, p: Path, top: Path, n: nat, fuel: nat)
    requires Shaped(sem, vals, shapes) && LiveReads(sem, nodes, 0, outs, env, vals, mem)
    requires EnvTainted(sem, env, m, o, top) && EnvMade(env, s, o, p, n)
    ensures RunInv(sem, blobs, nodes, 0, outs, env, env, m, s, vals, shapes, mem, o, p, top, n, fuel)
  {
    assert nodes[..0] == [];
  }

  /** A node without loops. */
  lemma RunNode(sem: Sem, blobs: seq<Bytes>, nodes: seq<Node>, i: nat, outs: seq<nat>, env0: TensorEnv, env: TensorEnv,
      m: Taints, s: set<nat>, vals0: Env, shapes: Shapes, mem: Memory, o: seq<Option<Path>>, p: Path, top: Path,
      n: nat, fuel: nat)
    requires i < |nodes| && !Loops(nodes[i]) && AllWf(nodes) && TypedNodes(sem, nodes, shapes) && ShapeLaw(sem)
    requires mem.sym == []
    requires Shaped(sem, vals0, shapes) && EvalNodes(sem, blobs, nodes, vals0, [], fuel).Ok?
    requires RunInv(sem, blobs, nodes, i, outs, env0, env, m, s, vals0, shapes, mem, o, p, top, n, fuel)
    ensures Tensors(env, nodes[i].inputs).Ok?
    ensures LazyNode(sem, blobs, nodes[i], Tensors(env, nodes[i].inputs).value, mem).Ok?
    ensures RunInv(sem, blobs, nodes, i + 1, outs, env0, env[nodes[i].id :=
        LazyNode(sem, blobs, nodes[i], Tensors(env, nodes[i].inputs).value, mem).value],
              m[nodes[i].id := Flow(sem, nodes[i], m)], s, vals0, shapes, mem, o, p, top, n, fuel)
  {
    assert !nodes[i].While?;
    hide EvalNodes, LiveReads, EnvTainted, EnvMade, OnlyDefines, Shaped, TypedNodes, LazyNode, ShapeLaw, Tensors,
        Lookup, NodeResults, Loops, Flow;
    var vals := EvalNodes(sem, blobs, nodes[..i], vals0, [], fuel).value;
    EvalStep(sem, blobs, nodes, i, vals0, [], fuel);
    LoopFreeReads(sem, blobs, nodes, i, outs, env, vals, mem, fuel);
    var args := Tensors(env, nodes[i].inputs).value;
    LoopFreeTainted(sem, blobs, nodes[i], m, env, args, mem, o, top);
    LoopFreeMade(sem, blobs, nodes[i], env, mem, s, o, p, n);
    KeepsOne(env0, env, nodes, i, LazyNode(sem, blobs, nodes[i], args, mem).value);
    TypedAhead(sem, nodes, shapes, i + 1);
    NodesShaped(sem, blobs, nodes[..i + 1], vals0, shapes, [], fuel);
  }

  lemma TypedAhead(sem: Sem, nodes: seq<Node>, shapes: Shapes, i: nat)
    requires i <= |nodes| && TypedNodes(sem, nodes, shapes)
    ensures TypedNodes(sem, nodes[..i], shapes)
  {
    if i < |nodes| {
      TypedAt(sem, nodes, shapes, i);
    } else {
      assert nodes[..i] == nodes;
    }
  }

  /** What a node with loops needs, where it stands. */
  lemma LoopsEntry(sem: Sem, blobs: seq<Bytes>, nodes: seq<Node>, i: nat, outs: seq<nat>, env0: TensorEnv,
      env: TensorEnv, m: Taints, s: set<nat>, vals0: Env, shapes: Shapes, mem: Memory, o: seq<Option<Path>>, p: Path,
      top: Path, n: nat, fuel: nat)
    requires i < |nodes| && AllWf(nodes) && TypedNodes(sem, nodes, shapes)
    requires EvalNodes(sem, blobs, nodes, vals0, [], fuel).Ok?
    requires RunInv(sem, blobs, nodes, i, outs, env0, env, m, s, vals0, shapes, mem, o, p, top, n, fuel)
    ensures EvalNodes(sem, blobs, nodes[..i], vals0, [], fuel).Ok?
    ensures var vals := EvalNodes(sem, blobs, nodes[..i], vals0, [], fuel).value;
            && Lookup(vals, nodes[i].inputs).Ok? && Tensors(env, nodes[i].inputs).Ok? && Shaped(sem, vals, shapes)
            && var vs, args := Lookup(vals, nodes[i].inputs).value, Tensors(env, nodes[i].inputs).value;
               && Holds(sem, args, mem, vs) && AllMade(SupportAll(args), s, o, p, n)
               && var r := NodeResults(sem, blobs, nodes[i], vs, [], fuel);
                  r.Ok? && EvalNodes(sem, blobs, nodes[..i + 1], vals0, [], fuel) ==
                      Ok(Bind(DefinedIds(nodes[i]), r.value, vals))
  {
    hide EvalNodes, LiveReads, EnvTainted, EnvMade, OnlyDefines, Shaped, TypedNodes, Tensors, Lookup, NodeResults;
    var vals := EvalNodes(sem, blobs, nodes[..i], vals0, [], fuel).value;
    EvalStep(sem, blobs, nodes, i, vals0, [], fuel);
    ArgsRead(sem, nodes, i, outs, env, vals, mem);
    ArgsMade(env, nodes[i].inputs, s, o, p, n);
  }

  /** After a node with loops, with its results bound. */
  lemma LoopsExit(sem: Sem, blobs: seq<Bytes>, nodes: seq<Node>, i: nat, outs: seq<nat>, env0: TensorEnv,
      env: TensorEnv, env': TensorEnv, m: Taints, m': Taints, s: set<nat>, vals0: Env, shapes: Shapes, mem: Memory,
      o: seq<Option<Path>>, mem': Memory, o': seq<Option<Path>>, p: Path, top: Path, n: nat, fuel: nat)
    requires i < |nodes| && TypedNodes(sem, nodes, shapes) && ShapeLaw(sem) && Shaped(sem, vals0, shapes)
    requires EvalNodes(sem, blobs, nodes, vals0, [], fuel).Ok?
    requires RunInv(sem, blobs, nodes, i, outs, env0, env, m, s, vals0, shapes, mem, o, p, top, n, fuel)
    requires EvalNodes(sem, blobs, nodes[..i + 1], vals0, [], fuel).Ok?
    requires LiveReads(sem, nodes, i + 1, outs, env', EvalNodes(sem, blobs, nodes[..i + 1], vals0, [], fuel).value,
        mem')
    requires EnvTainted(sem, env', m', o', top) && EnvMade(env', s, o', p, n) && OnlyDefines(env0, env', nodes[..i + 1])
    ensures RunInv(sem, blobs, nodes, i + 1, outs, env0, env', m', s, vals0, shapes, mem', o', p, top, n, fuel)
  {
    hide EvalNodes, LiveReads, EnvTainted, EnvMade, OnlyDefines, Shaped, TypedNodes, ShapeLaw;
    TypedAhead(sem, nodes, shapes, i + 1);
    NodesShaped(sem, blobs, nodes[..i + 1], vals0, shapes, [], fuel);
  }

  /** What was in the environment, after a node with loops. */
  lemma EnvSurvives(sem: Sem, nodes: seq<Node>, i: nat, outs: seq<nat>, env: TensorEnv, m: Taints, s: set<nat>,
      vals: Env, mem: Memory, o: seq<Option<Path>>, mem': Memory, o': seq<Option<Path>>, p: Path, top: Path, n: nat)
    requires i < |nodes| && LiveClean(nodes, i, outs, p, m) && top <= p
    requires LiveReads(sem, nodes, i, outs, env, vals, mem) && EnvTainted(sem, env, m, o, top)
    requires EnvMade(env, s, o, p, n)
    requires Touched(mem.bufs, o, mem'.bufs, o', p + [i]) && mem'.args == mem.args && mem'.sym == mem.sym
    ensures LiveReads(sem, nodes, i + 1, outs, env, vals, mem') && EnvTainted(sem, env, m, o', top)
    ensures EnvMade(env, s, o', p, n)
  {
    SurvivesLoops(sem, nodes, i, outs, p, m, env, vals, mem, mem', o, o', top);
    EnvTaintedLater(sem, env, m, o, o', top);
    EnvMadeLater(env, s, o, o', p, n);
  }

  /** A loop's results, bound. */
  lemma LoopBound(sem: Sem, nodes: seq<Node>, i: nat, outs: seq<nat>, env: TensorEnv, m: Taints, s: set<nat>, vals: Env,
      args: seq<Tensor>, rs: seq<Tensor>, final: seq<Value>, t: seq<set<Path>>, mem': Memory, o: seq<Option<Path>>,
      o': seq<Option<Path>>, p: Path, top: Path, n: nat, n': nat)
    requires i < |nodes| && nodes[i].While? && n <= n' && o <= o'
    requires LiveReads(sem, nodes, i + 1, outs, env, vals, mem') && EnvTainted(sem, env, m, o', top)
    requires EnvMade(env, s, o', p, n)
    requires AllMade(SupportAll(args), s, o, p, n)
    requires LoopState(sem, nodes[i].body, p + [i], top, SupportAll(args), t, rs, final, mem', o', n')
    ensures var ids := OutIds(nodes[i].outputs);
            && LiveReads(sem, nodes, i + 1, outs, BindResults(ids, rs, env), Bind(ids, final, vals), mem')
            && EnvTainted(sem, BindResults(ids, rs, env), BindTaints(ids, Held(t), m), o', top)
            && EnvMade(BindResults(ids, rs, env), s, o', p, n)
  {
    hide LiveReads, EnvTainted, EnvMade, BindResults, Bind, BindTaints, LoopState, AllMade, AllTensorsTainted;
    var ids, k := OutIds(nodes[i].outputs), p + [i];
    StateHolds(sem, nodes[i].body, k, top, SupportAll(args), t, rs, final, mem', o', n');
    HoldsAt(sem, rs, mem', final);
    ResultsRead(sem, nodes, i + 1, outs, ids, env, vals, rs, final, mem');
    ResultsTainted(sem, ids, rs, Held(t), env, m, o', top);
    forall j | 0 <= j < |rs| ensures AllMade(Support(rs[j]), s, o', p, n) {
      StateMade(sem, nodes[i].body, k, top, SupportAll(args), t, rs, final, mem', o', n', j);
      MadeHere(Support(rs[j]), SupportAll(args), s, o, o', p, k, n, n');
    }
    ResultsMade(ids, env, rs, s, o', p, n);
  }

  lemma StateMade(sem: Sem, body: Sub, k: Path, top: Path, s: set<nat>, taints: seq<set<Path>>, state: seq<Tensor>,
      vs: seq<Value>, mem: Memory, owner: seq<Option<Path>>, n: nat, j: nat)
    requires LoopState(sem, body, k, top, s, taints, state, vs, mem, owner, n) && j < |state|
    ensures AllMade(Support(state[j]), s, owner, k, n)
  {
    assert VarOk(sem, body, k, top, s, taints[j], j, state[j], vs[j], mem, owner, n);
  }

  /** Steps are never forgotten, and only those below a path change. */
  predicate StepsKept(s0: map<Key, Step>, s1: map<Key, Step>, p: Path) {
    s0.Keys <= s1.Keys && forall key :: key in s0 && !(p <= key.path) ==> s1[key] == s0[key]
  }

  lemma StepsTrans(s0: map<Key, Step>, s1: map<Key, Step>, s2: map<Key, Step>, p: Path)
    requires StepsKept(s0, s1, p) && StepsKept(s1, s2, p)
    ensures StepsKept(s0, s2, p)
  {
    forall key | key in s0 && !(p <= key.path) ensures s2[key] == s0[key] {
      assert s1[key] == s0[key];
    }
  }

  lemma StepsWider(s0: map<Key, Step>, s1: map<Key, Step>, p: Path, q: Path)
    requires StepsKept(s0, s1, q) && p <= q
    ensures StepsKept(s0, s1, p)
  {
  }

  /** A captured step stays as it is, unless it is given up for good. */
  predicate SameCapture(was: Step, now: Step) {
    && (was.Interpreting? ==> now.Interpreting?)
    && (was.Jitted? && was.jit.Captured? && now.Jitted? ==> now == was)
  }

  /** What becomes of a step when its loop goes round: a call that breaks off ends capturing for good. */
  predicate StepAfter(was: Step, breaks: bool, now: Step) {
    if was.Interpreting? || breaks then now.Interpreting?
    else now.Jitted? && now.plan == was.plan && Advanced(was.jit, now.jit)
  }

  // -- folds ----------------------------------------------------------------------------------

  /** A fold's function, between elements: its accumulator, and where it is. */
  ghost predicate FoldState(sem: Sem, k: Path, top: Path, args: seq<Tensor>, c: Taint, acc: Tensor, v: Value,
      mem: Memory, owner: seq<Option<Path>>, n: nat)
  {
    && Read(sem, acc, mem) == Ok(v) && Concrete(acc)
    && TensorTainted(sem, acc, c, owner, top) && AllMade(Support(acc), SupportAll(args), owner, k, n)
  }

  lemma FoldStarts(sem: Sem, node: Node, k: Path, top: Path, args: seq<Tensor>, vs: seq<Value>, x: Taint, y: Taint,
      c: Taint, mem: Memory, owner: seq<Option<Path>>)
    requires node.Fold? && |args| == 2 && Holds(sem, args, mem, vs) && SafeFold(sem, node, k, x, y, c)
    requires |owner| == |mem.bufs|
    requires TensorTainted(sem, args[0], x, owner, top) && TensorTainted(sem, args[1], y, owner, top)
    ensures |vs| == 2
    ensures FoldState(sem, k, top, args, c, Lazy(FoldInit(node.op, node.attrs), args),
        sem.apply(FoldInit(node.op, node.attrs), vs), mem, owner, |mem.bufs|)
  {
    hide SafeChain;
    HoldsAt(sem, args, mem, vs);
    ReadAllBound(sem, args, mem);
    var acc := Lazy(FoldInit(node.op, node.attrs), args);
    assert args == [args[0], args[1]];
    SupportTwo(args[0], args[1]);
    assert BaseBuf(sem, acc) == {};
    forall b | b in Support(acc) ensures Made(b, SupportAll(args), owner, k, |mem.bufs|) {
    }
  }

  /** One element more. */
  lemma FoldStep(sem: Sem, blobs: seq<Bytes>, node: Node, x: Value, init: Value, i: nat, v: Value, fuel: nat)
    requires node.Fold? && EvalFold(sem, blobs, node, x, init, i, fuel) == Ok(v)
    requires EvalFold(sem, blobs, node, x, init, i + 1, fuel).Ok?
    ensures var r := EvalSub(sem, blobs, node.fn, [v, sem.apply(Element(node.op, node.attrs, i), [x])], [], fuel);
            r.Ok? && r.value != [] && EvalFold(sem, blobs, node, x, init, i + 1, fuel) == Ok(r.value[0])
  {
  }

  lemma {:induction false} FoldBefore(sem: Sem, blobs: seq<Bytes>, node: Node, x: Value, init: Value, i: nat, n: nat,
      fuel: nat)
    requires node.Fold? && i <= n && EvalFold(sem, blobs, node, x, init, n, fuel).Ok?
    ensures EvalFold(sem, blobs, node, x, init, i, fuel).Ok?
  {
    if i < n {
      FoldBefore(sem, blobs, node, x, init, i, n - 1, fuel);
    }
  }

  /** The function's arguments at one element. */
  lemma FoldArgs(sem: Sem, node: Node, k: Path, top: Path, args: seq<Tensor>, x: Taint, c: Taint, acc: Tensor, v: Value,
      xv: Value, i: nat, mem: Memory, owner: seq<Option<Path>>, n: nat)
    requires node.Fold? && |args| == 2 && FoldState(sem, k, top, args, c, acc, v, mem, owner, n)
    requires Read(sem, args[0], mem) == Ok(xv) && Concrete(args[0]) && TensorTainted(sem, args[0], x, owner, top)
    ensures var elem := Lazy(Element(node.op, node.attrs, i), [args[0]]);
            && Holds(sem, [acc, elem], mem, [v, sem.apply(Element(node.op, node.attrs, i), [xv])])
            && AllTensorsTainted(sem, [acc, elem], [c, x], owner, top)
            && AllMade(SupportAll([acc, elem]), SupportAll(args), owner, k, n)
  {
    var elem := Lazy(Element(node.op, node.attrs, i), [args[0]]);
    ReadOne(sem, args[0], mem);
    SupportTwo(args[0], args[0]);
    SupportTwo(acc, elem);
    HoldsAt(sem, [acc, elem], mem, [v, sem.apply(elem.kernel, [xv])]);
    ReadBound(sem, args[0], mem);
    ReadBound(sem, elem, mem);
    forall b | b in SupportAll([acc, elem]) ensures Made(b, SupportAll(args), owner, k, n) {
      if b in Support(acc) {
        assert Made(b, SupportAll(args), owner, k, n);
      } else {
        SupportAllAt(args, b);
        assert b < |owner|;
      }
    }
  }

  /** After one element: the function's first output is the accumulator, and the tensor stands. */
  lemma FoldNext(sem: Sem, node: Node, k: Path, top: Path, args: seq<Tensor>, x: Taint, y: Taint, c: Taint,
      params: seq<Tensor>, outs: seq<Tensor>, out: Taint, next: seq<Value>, mem: Memory, o: seq<Option<Path>>,
      mem': Memory, o': seq<Option<Path>>, n: nat)
    requires node.Fold? && |args| == 2 && SafeFold(sem, node, k, x, y, c) && top <= k && n <= |mem.bufs|
    requires Read(sem, args[0], mem).Ok? && TensorTainted(sem, args[0], x, o, top)
    requires AllMade(SupportAll(params), SupportAll(args), o, k, n)
    requires Touched(mem.bufs, o, mem'.bufs, o', k + [1]) && mem'.args == mem.args && mem'.sym == mem.sym
    requires Holds(sem, outs, mem', next) && next != [] && OutputsMade(outs, params, o', k + [1], |mem.bufs|)
    requires TensorTainted(sem, outs[0], out, o', top) && WithinTaint(out, c)
    ensures outs != [] && FoldState(sem, k, top, args, c, outs[0], next[0], mem', o', n)
    ensures Read(sem, args[0], mem') == Read(sem, args[0], mem) && TensorTainted(sem, args[0], x, o', top)
  {
    hide SafeChain;
    HoldsAt(sem, outs, mem', next);
    TaintWider(sem, outs[0], out, c, o', top);
    MadeHere(Support(outs[0]), SupportAll(params), SupportAll(args), o, o', k, k + [1], n, |mem.bufs|);
    assert Clean(x.all, k + [1]);
    TaintClear(Support(args[0]), o, top, x.all, k + [1]);
    ClearReads(sem, args[0], mem, mem', o, o', k + [1]);
    TaintLater(sem, args[0], x, o, o', top);
  }

  /** What the fold is, from its accumulator. */
  lemma FoldEnds(sem: Sem, node: Node, k: Path, top: Path, args: seq<Tensor>, x: Taint, c: Taint, acc: Tensor, v: Value,
      xv: Value, mem: Memory, owner: seq<Option<Path>>, n: nat)
    requires node.Fold? && |args| == 2 && FoldState(sem, k, top, args, c, acc, v, mem, owner, n)
    requires Read(sem, args[0], mem) == Ok(xv) && Concrete(args[0]) && TensorTainted(sem, args[0], x, owner, top)
    ensures var t := Lazy(FoldFinish(node.op, node.attrs, node.spec), [args[0], acc]);
            && Read(sem, t, mem) == Ok(sem.apply(t.kernel, [xv, v])) && Concrete(t)
            && TensorTainted(sem, t, Taint({}, x.all + c.all), owner, top)
                && AllMade(Support(t), SupportAll(args), owner, k, n)
  {
    var t := Lazy(FoldFinish(node.op, node.attrs, node.spec), [args[0], acc]);
    ReadTwo(sem, args[0], acc, mem);
    SupportTwo(args[0], acc);
    assert BaseBuf(sem, t) == {};
    ReadBound(sem, args[0], mem);
    forall b | b in Support(t) ensures Made(b, SupportAll(args), owner, k, n) {
      if b in Support(acc) {
        assert Made(b, SupportAll(args), owner, k, n);
      } else {
        SupportAllAt(args, b);
        assert b < |owner|;
      }
    }
  }

  /** A fold's function fits every element. */
  lemma FoldReady(sem: Sem, blobs: seq<Bytes>, node: Node, acc: seq<nat>, elem: seq<nat>, v: Value, e: Value,
      next: seq<Value>, fuel: nat)
    requires ShapeLaw(sem) && node.Fold? && NodeWf(node) && TypedSub(sem, node.fn, [acc, elem]) && node.fn.outputs != []
    requires node.fn.outputs[0].id in DeclaredShapes(node.fn) && DeclaredShapes(node.fn)[node.fn.outputs[0].id] == acc
    requires sem.shape(v) == acc && sem.shape(e) == elem && EvalSub(sem, blobs, node.fn, [v, e], [], fuel) == Ok(next)
    ensures SubReady(sem, node.fn, [v, e]) && next != [] && sem.shape(next[0]) == acc
  {
    assert ShapesOfValues(sem, [v, e]) == [acc, elem];
    OutputShaped(sem, blobs, node.fn, [v, e], [], fuel, 0);
  }

  // -- small steps --------------------------------------------------------------------------

  lemma EagerStep(sem: Sem, blobs: seq<Bytes>, key: Key, step: Step, owner: seq<Option<Path>>)
    requires StepOk(sem, blobs, key, step, owner) && step.Jitted? && key.node.While?
    ensures !RequiresEager(key.node.body)
  {
  }

  lemma PlainStep(sem: Sem, blobs: seq<Bytes>, key: Key, owner: seq<Option<Path>>)
    ensures StepOk(sem, blobs, key, Interpreting, owner)
  {
  }

  lemma BasesWithin(sem: Sem, node: Node, k: Path, c: Certificate, outs: seq<Tensor>, o: seq<Option<Path>>, top: Path)
    requires node.While? && Certifies(sem, node, k, c) && |outs| == |node.body.outputs|
    requires forall j :: 0 <= j < |outs| ==>
        TensorTainted(sem, outs[j], TaintAt(c.body[|node.body.nodes|], node.body.outputs[j].id), o, top)
    ensures forall j :: 0 <= j < |outs| ==> AllTainted(BaseBuf(sem, outs[j]), o, top, c.taints[j])
  {
    hide SafeChain;
  }

  lemma SubTyped(sem: Sem, sub: Sub, vs: seq<Value>)
    requires SubReady(sem, sub, vs)
    ensures AllWf(sub.nodes) && TypedNodes(sem, sub.nodes, DeclaredShapes(sub))
  {
  }

  lemma BasesLater(sem: Sem, args: seq<Tensor>, a: seq<set<Path>>, t: seq<set<Path>>, o: seq<Option<Path>>,
      o': seq<Option<Path>>, top: Path)
    requires |args| == |a| == |t| && o <= o' && forall j :: 0 <= j < |a| ==> a[j] <= t[j]
    requires forall j :: 0 <= j < |args| ==> AllTainted(BaseBuf(sem, args[j]), o, top, a[j])
    ensures forall j :: 0 <= j < |args| ==> AllTainted(BaseBuf(sem, args[j]), o', top, t[j])
  {
    forall j | 0 <= j < |args| ensures AllTainted(BaseBuf(sem, args[j]), o', top, t[j]) {
      assert AllTainted(BaseBuf(sem, args[j]), o, top, a[j]);
    }
  }

  lemma StepsSame(steps: map<Key, Step>, p: Path)
    ensures StepsKept(steps, steps, p)
  {
  }

  lemma StepsStart(s0: map<Key, Step>, s1: map<Key, Step>, key: Key, p: Path)
    requires key in s1 && p == key.path && (s1 == s0 || (key !in s0 && s1 == s0[key := s1[key]]))
    ensures StepsKept(s0, s1, p) && (key in s0 ==> SameCapture(s0[key], s1[key]))
  {
  }

  lemma CaptureTrans(a: Step, b: Step, c: Step)
    requires SameCapture(a, b) && SameCapture(b, c)
    ensures SameCapture(a, c)
  {
  }

  /** The loop does at least one iteration. */
  ghost predicate Enters(sem: Sem, blobs: seq<Bytes>, node: Node, vs: seq<Value>, fuel: nat)
    requires node.While?
  {
    var test := EvalSub(sem, blobs, node.cond, vs, [], fuel);
    test.Ok? && test.value != [] && sem.truthy(test.value[0])
  }

  lemma EntersWhen(sem: Sem, blobs: seq<Bytes>, node: Node, vs: seq<Value>, fuel: nat)
    requires node.While? && EvalSub(sem, blobs, node.cond, vs, [], fuel).Ok?
    requires EvalSub(sem, blobs, node.cond, vs, [], fuel).value != []
    ensures Enters(sem, blobs, node, vs, fuel) <==> sem.truthy(EvalSub(sem, blobs, node.cond, vs, [], fuel).value[0])
  {
  }

  lemma LoopsKind(node: Node)
    requires Loops(node)
    ensures node.While? || node.Fold?
  {
  }

  lemma FlowStep(sem: Sem, nodes: seq<Node>, i: nat, outs: seq<nat>, p: Path, m: Taints, m': Taints)
    requires i < |nodes| && !Loops(nodes[i]) && SafeStep(sem, nodes, i, outs, p, m, m')
    ensures !nodes[i].While? && m' == m[nodes[i].id := Flow(sem, nodes[i], m)]
  {
  }

  ghost function FoldShapes(sem: Sem, node: Node, shapes: Shapes): (r: (seq<nat>, seq<nat>))
    requires node.Fold? && Loops(node) && TypedNode(sem, node, shapes)
    ensures |node.inputs| == 2
    ensures ElementShapes(sem, node.op, node.attrs, node.count, shapes[node.inputs[0]], shapes[node.inputs[1]], r.0,
        r.1)
    ensures TypedSub(sem, node.fn, [r.0, r.1]) && node.fn.outputs != []
    ensures node.fn.outputs[0].id in DeclaredShapes(node.fn) && DeclaredShapes(node.fn)[node.fn.outputs[0].id] == r.0
  {
    var acc: seq<nat>, elem: seq<nat> :|
      && ElementShapes(sem, node.op, node.attrs, node.count, shapes[node.inputs[0]], shapes[node.inputs[1]], acc, elem)
      && TypedSub(sem, node.fn, [acc, elem]) && node.fn.outputs != []
      && node.fn.outputs[0].id in DeclaredShapes(node.fn) && DeclaredShapes(node.fn)[node.fn.outputs[0].id] == acc;
    (acc, elem)
  }

  ghost function FoldChain(sem: Sem, node: Node, k: Path, x: Taint, y: Taint, c: Taint): (ms: seq<Taints>)
    requires node.Fold? && SafeFold(sem, node, k, x, y, c)
    ensures SafeChain(sem, node.fn.nodes, OutIds(node.fn.outputs), k + [1], ms)
    ensures ms[0] == StartTaints(node.fn.inputs, [c, x])
    ensures |ms| == |node.fn.nodes| + 1 && node.fn.outputs != []
    ensures WithinTaint(TaintAt(ms[|node.fn.nodes|], node.fn.outputs[0].id), c)
  {
    var ms: seq<Taints> :|
      && SafeChain(sem, node.fn.nodes, OutIds(node.fn.outputs), k + [1], ms)
          && ms[0] == StartTaints(node.fn.inputs, [c, x])
      && WithinTaint(TaintAt(ms[|node.fn.nodes|], node.fn.outputs[0].id), c);
    ms
  }

  lemma FoldOpens(sem: Sem, blobs: seq<Bytes>, node: Node, vs: seq<Value>, shapes: Shapes, acc: seq<nat>,
      elem: seq<nat>, fuel: nat)
    requires node.Fold? && |vs| == 2 && AllIn(node.inputs, shapes) && |node.inputs| == 2
    requires ShapesOfValues(sem, vs) == ShapesOf(node.inputs, shapes)
    requires ElementShapes(sem, node.op, node.attrs, node.count, shapes[node.inputs[0]], shapes[node.inputs[1]], acc,
        elem)
    requires NodeResults(sem, blobs, node, vs, [], fuel).Ok?
    ensures var init := sem.apply(FoldInit(node.op, node.attrs), vs);
            && sem.shape(init) == acc && EvalFold(sem, blobs, node, vs[0], init, 0, fuel) == Ok(init)
            && EvalFold(sem, blobs, node, vs[0], init, node.count, fuel).Ok?
            && NodeResults(sem, blobs, node, vs, [], fuel)
                 == Ok([sem.apply(FoldFinish(node.op, node.attrs, node.spec),
                     [vs[0], EvalFold(sem, blobs, node, vs[0], init, node.count, fuel).value])])
  {
    assert vs == [vs[0], vs[1]];
    assert ShapesOfValues(sem, vs)[0] == shapes[node.inputs[0]] && ShapesOfValues(sem, vs)[1] == shapes[node.inputs[1]];
  }

  lemma FoldElement(sem: Sem, node: Node, vs: seq<Value>, shapes: Shapes, acc: seq<nat>, elem: seq<nat>, i: nat)
    requires node.Fold? && |vs| == 2 && AllIn(node.inputs, shapes) && |node.inputs| == 2
    requires ShapesOfValues(sem, vs) == ShapesOf(node.inputs, shapes)
    requires ElementShapes(sem, node.op, node.attrs, node.count, shapes[node.inputs[0]], shapes[node.inputs[1]], acc,
        elem)
    requires i < node.count
    ensures sem.shape(sem.apply(Element(node.op, node.attrs, i), [vs[0]])) == elem
  {
    assert ShapesOfValues(sem, vs)[0] == shapes[node.inputs[0]];
  }

  lemma FoldFits(sem: Sem, nodes: seq<Node>, shapes: Shapes, i: nat, vals: Env, vs: seq<Value>)
    requires AllWf(nodes) && TypedNodes(sem, nodes, shapes) && i < |nodes| && nodes[i].Fold?
    requires Shaped(sem, vals, shapes) && Lookup(vals, nodes[i].inputs) == Ok(vs)
    ensures NodeWf(nodes[i]) && TypedNode(sem, nodes[i], shapes) && |nodes[i].inputs| == |vs| == 2
    ensures AllIn(nodes[i].inputs, shapes) && ShapesOfValues(sem, vs) == ShapesOf(nodes[i].inputs, shapes)
  {
    TypedAt(sem, nodes, shapes, i);
  }

  lemma OperandsAt(sem: Sem, env: TensorEnv, m: Taints, ids: seq<nat>, args: seq<Tensor>, o: seq<Option<Path>>,
      top: Path)
    requires EnvTainted(sem, env, m, o, top) && Tensors(env, ids) == Ok(args)
    ensures |args| == |ids| && forall j :: 0 <= j < |ids| ==> TensorTainted(sem, args[j], TaintAt(m, ids[j]), o, top)
  {
  }

  /** A fold's result, bound. */
  lemma FoldBound(sem: Sem, nodes: seq<Node>, i: nat, outs: seq<nat>, env: TensorEnv, m: Taints, x: Taint, s: set<nat>,
      vals: Env, args: seq<Tensor>, t: Tensor, mem': Memory, o: seq<Option<Path>>, o': seq<Option<Path>>, p: Path,
      top: Path, n: nat, n': nat)
    requires i < |nodes| && nodes[i].Fold? && n <= n' && o <= o'
    requires LiveReads(sem, nodes, i + 1, outs, env, vals, mem') && EnvTainted(sem, env, m, o', top)
    requires EnvMade(env, s, o', p, n)
    requires AllMade(SupportAll(args), s, o, p, n) && AllMade(Support(t), SupportAll(args), o', p + [i], n')
    requires Read(sem, t, mem').Ok? && Concrete(t) && TensorTainted(sem, t, x, o', top)
    ensures LiveReads(sem, nodes, i + 1, outs, env[nodes[i].id := t],
        Bind(DefinedIds(nodes[i]), [Read(sem, t, mem').value], vals), mem')
    ensures EnvTainted(sem, env[nodes[i].id := t], m[nodes[i].id := x], o', top)
    ensures EnvMade(env[nodes[i].id := t], s, o', p, n)
  {
    BindOne(DefinedIds(nodes[i]), [Read(sem, t, mem').value], vals);
    ResultTainted(sem, nodes[i].id, t, x, env, m, o', top);
    MadeHere(Support(t), SupportAll(args), s, o, o', p, p + [i], n, n');
  }

  /** A graph's executor on a device.  `steps` caches, for each loop met, how its body is run. */
  class Executable {
    const dev: Device
    const blobs: seq<Bytes>
    var steps: map<Key, Step>

    constructor (dev: Device, blobs: seq<Bytes>)
      requires dev.Valid()
      ensures this.dev == dev && this.blobs == blobs && StepsOk()
    {
      this.dev := dev;
      this.blobs := blobs;
      steps := map[];
    }

    ghost predicate StepsOk()
      reads this, dev
    {
      dev.Valid() && forall key :: key in steps ==> StepOk(dev.sem, blobs, key, steps[key], dev.owner)
    }

    twostate lemma StepsLater()
      requires old(StepsOk()) && dev.Valid() && steps == old(steps) && old(dev.owner) <= dev.owner
      ensures StepsOk()
    {
      forall key | key in steps ensures StepOk(dev.sem, blobs, key, steps[key], dev.owner) {
        StepOkLater(dev.sem, blobs, key, steps[key], old(dev.owner), dev.owner);
      }
    }

    /** How a loop's body will be run. */
    method MakeStep(node: Node) returns (step: Step)
      requires node.While? && InputsDeclared(node.body.nodes, DeclaredShapes(node.body)) && NodeWf(node)
      ensures forall p: Path, owner: seq<Option<Path>> :: StepOk(dev.sem, blobs, Key(p, node), step, owner)
      ensures step.Interpreting? <==> RequiresEager(node.body)
      ensures step.Jitted? ==> step.jit.Fresh?
    {
      if RequiresEager(node.body) {
        step := Interpreting;
      } else {
        var plan := MakePlan(node.body);
        step := Jitted(plan, Fresh);
      }
    }

    /** One iteration: the captured step, or, if there is none or it fails, the body node by node
        from the same state. */
    method Iterate(node: Node, k: Path, state: seq<Tensor>, ghost top: Path, ghost s: set<nat>, ghost c: Certificate,
                   ghost vs: seq<Value>, ghost next: seq<Value>, ghost n: nat, ghost fuel: nat) returns (r: seq<Tensor>)
      requires StepsOk() && ShapeLaw(dev.sem) && LoopReady(dev.sem, node, vs) && Key(k, node) in steps
      requires n <= |dev.bufs|
      requires EvalSub(dev.sem, blobs, node.body, vs, [], fuel) == Ok(next) && Certifies(dev.sem, node, k, c)
      requires top <= k
      requires LoopState(dev.sem, node.body, k, top, s, c.taints, state, vs, dev.Mem(), dev.owner, n)
      modifies this, dev
      ensures StepsOk() && StepsKept(old(steps), steps, k)
      ensures Touched(old(dev.bufs), old(dev.owner), dev.bufs, dev.owner, k)
      ensures LoopState(dev.sem, node.body, k, top, s, c.taints, r, next, dev.Mem(), dev.owner, n)
      ensures Key(k, node) in steps && SameCapture(old(steps[Key(k, node)]), steps[Key(k, node)])
      ensures StepAfter(old(steps[Key(k, node)]), dev.breaks(old(dev.calls)), steps[Key(k, node)])
      ensures IsCaptured(steps[Key(k, node)]) ==>
          Replayed(node.body, steps[Key(k, node)].jit.outs, r)
      decreases node, 1
    {
      hide LoopState, EvalSub, SafeChain, Certifies, ShapeLaw, SubOk, Capturable, NodeWf, TypedSub, StepResult,
          RequiresEager, ShapesOf, DeclaredShapes, InputsDeclared, Holds, ClearOf, AllTensorsTainted, Replayed, Touched,
          StepOk;
      var key := Key(k, node);
      var step := steps[key];
      ghost var steps0 := steps;
      ReadySubs(dev.sem, node, vs);
      if step.Jitted? {
        EagerStep(dev.sem, blobs, key, step, dev.owner);
        StateHolds(dev.sem, node.body, k, top, s, c.taints, state, vs, dev.Mem(), dev.owner, n);
        ReadyClear(dev.sem, node, k, top, s, c, state, vs, dev.Mem(), dev.owner, n);
        ghost var mem, owner := dev.Mem(), dev.owner;
        var rs, step' := CallStep(dev, blobs, node, k, step, state, vs, next, fuel);
        TouchedGrows(mem.bufs, owner, dev.bufs, dev.owner, k);
        StepsLater();
        steps := steps[key := step'];
        LengthOk(dev.sem, blobs, node, vs, next, fuel);
        if rs.Some? {
          StepState(dev.sem, blobs, node, k, top, s, c, state, vs, rs.value, next, mem, dev.Mem(), owner, dev.owner, n,
              fuel);
          return rs.value;
        }
        steps := steps[key := Interpreting];
        assert StepOk(dev.sem, blobs, key, Interpreting, dev.owner) by { PlainStep(dev.sem, blobs, key, dev.owner); }
        StateLater(dev.sem, node.body, k, top, s, c.taints, state, vs, mem, dev.Mem(), owner, dev.owner, n);
      } else {
        TouchedNothing(dev.bufs, dev.owner, k);
      }
      label before:
      ghost var steps1 := steps;
      r := Interpret(node, k, state, top, s, c, vs, next, n, fuel);
      TouchedTrans(old(dev.bufs), old(dev.owner), old@before(dev.bufs), old@before(dev.owner), dev.bufs, dev.owner, k);
      assert steps[key] == steps1[key];
      StepsWider(steps1, steps, k, k + [1]);
      assert StepsKept(steps0, steps1, k);
      StepsTrans(steps0, steps1, steps, k);
    }

    method Interpret(node: Node, k: Path, state: seq<Tensor>, ghost top: Path, ghost s: set<nat>, ghost c: Certificate,
        ghost vs: seq<Value>, ghost next: seq<Value>, ghost n: nat, ghost fuel: nat) returns (r: seq<Tensor>)
      requires StepsOk() && ShapeLaw(dev.sem) && LoopReady(dev.sem, node, vs) && n <= |dev.bufs|
      requires EvalSub(dev.sem, blobs, node.body, vs, [], fuel) == Ok(next) && Certifies(dev.sem, node, k, c)
      requires top <= k
      requires LoopState(dev.sem, node.body, k, top, s, c.taints, state, vs, dev.Mem(), dev.owner, n)
      modifies this, dev
      ensures StepsOk() && StepsKept(old(steps), steps, k + [1])
      ensures Touched(old(dev.bufs), old(dev.owner), dev.bufs, dev.owner, k)
      ensures LoopState(dev.sem, node.body, k, top, s, c.taints, r, next, dev.Mem(), dev.owner, n)
      decreases node, 0
    {
      hide EvalSub, LoopState, SubReady, Touched, Settled, Holds, OutputsMade, SafeChain, TaintAt, StartTaints, BaseBuf,
          Realized, AllTensorsTainted, AllMade, StepsKept;
      ghost var mem, o := dev.Mem(), dev.owner;
      ReadySubs(dev.sem, node, vs);
      StateHolds(dev.sem, node.body, k, top, s, c.taints, state, vs, mem, o, n);
      var outs := RunSub(node.body, state, k + [1], top, c.body, Held(c.taints), vs, next, fuel);
      label ran:
      ghost var b1, o1 := dev.bufs, dev.owner;
      r := RealizeAll(dev, outs, next);
      StepsLater@ran();
      TouchedGrows(mem.bufs, o, b1, o1, k + [1]);
      TouchedWider(mem.bufs, o, b1, o1, k, k + [1]);
      AddsTouch(b1, o1, dev.bufs, dev.owner, k);
      TouchedTrans(mem.bufs, o, b1, o1, dev.bufs, dev.owner, k);
      LengthOk(dev.sem, blobs, node, vs, next, fuel);
      BasesWithin(dev.sem, node, k, c, outs, o1, top);
      NextState(dev.sem, node.body, k, top, s, c.taints, state, vs, next, mem, o, outs, o1, r, dev.Mem(), dev.owner, n,
          |mem.bufs|);
    }

    /** A sub-graph, node by node. */
    method RunSub(sub: Sub, params: seq<Tensor>, p: Path, ghost top: Path, ghost ms: seq<Taints>,
        ghost taints: seq<Taint>, ghost vs: seq<Value>, ghost next: seq<Value>, ghost fuel: nat)
        returns (outs: seq<Tensor>)
      requires StepsOk() && ShapeLaw(dev.sem) && SubReady(dev.sem, sub, vs) && top <= p
      requires EvalSub(dev.sem, blobs, sub, vs, [], fuel) == Ok(next)
      requires Holds(dev.sem, params, dev.Mem(), vs) && AllTensorsTainted(dev.sem, params, taints, dev.owner, top)
      requires SafeChain(dev.sem, sub.nodes, OutIds(sub.outputs), p, ms) && ms[0] == StartTaints(sub.inputs, taints)
      modifies this, dev
      ensures StepsOk() && StepsKept(old(steps), steps, p)
      ensures Touched(old(dev.bufs), old(dev.owner), dev.bufs, dev.owner, p)
      ensures Holds(dev.sem, outs, dev.Mem(), next) && OutputsMade(outs, params, dev.owner, p, old(|dev.bufs|))
      ensures |outs| == |sub.outputs| && forall j :: 0 <= j < |outs| ==>
                TensorTainted(dev.sem, outs[j], TaintAt(ms[|sub.nodes|], sub.outputs[j].id), dev.owner, top)
      ensures forall j :: 0 <= j < |outs| && Invariant(sub, j) ==> j < |params| && outs[j] == params[j]
      decreases sub, 0
    {
      hide EvalSub, EvalNodes, InitialEnv, FirstEnv, AllTensorsTainted, Touched, Holds, OutputsMade, StartTaints,
          LiveReads, EnvTainted, EnvMade, OnlyDefines, ShapeLaw, SubOk, SupportAll, Invariant, SafeStep, TensorTainted,
          StepsKept, TypedSub;
      ghost var ids, n := OutIds(sub.outputs), |dev.bufs|;
      SubStart(dev.sem, blobs, sub, params, p, top, taints, vs, dev.Mem(), dev.owner, n, fuel);
      SubTyped(dev.sem, sub, vs);
      var env0 := FirstEnv(dev.sem, blobs, sub, params).value;
      var env := RunNodes(sub.nodes, env0, p, top, ids, ms, SupportAll(params),
          InitialEnv(dev.sem, blobs, sub, vs).value, DeclaredShapes(sub), fuel);
      SubEnd(dev.sem, blobs, sub, params, env, vs, next, ms[|sub.nodes|], dev.Mem(), dev.owner, p, top, n, fuel);
      outs := Tensors(env, OutIds(sub.outputs)).value;
    }

    /** A loop.  Afterwards its variables hold the reference loop's, in what the loop was given, in new
        buffers or in its own captured steps'; if the last iteration was captured, those that change
        are in the step's own buffers. */
    method RunWhile(node: Node, k: Path, args: seq<Tensor>, ghost top: Path, ghost a: seq<set<Path>>,
        ghost t: seq<set<Path>>, ghost vs: seq<Value>, ghost final: seq<Value>, ghost fuel: nat)
        returns (state: seq<Tensor>)
      requires StepsOk() && ShapeLaw(dev.sem) && LoopReady(dev.sem, node, vs) && top <= k
      requires EvalLoop(dev.sem, blobs, node, vs, fuel, fuel) == Ok(final)
      requires Holds(dev.sem, args, dev.Mem(), vs) && SafeLoop(dev.sem, node, k, a, t) && |a| == |args|
      requires forall j :: 0 <= j < |args| ==> AllTainted(BaseBuf(dev.sem, args[j]), dev.owner, top, a[j])
      modifies this, dev
      ensures StepsOk() && StepsKept(old(steps), steps, k)
      ensures Touched(old(dev.bufs), old(dev.owner), dev.bufs, dev.owner, k)
      ensures LoopState(dev.sem, node.body, k, top, SupportAll(args), t, state, final, dev.Mem(), dev.owner,
          old(|dev.bufs|))
      ensures Key(k, node) in steps
      ensures (Key(k, node) in old(steps) ==> SameCapture(old(steps)[Key(k, node)], steps[Key(k, node)]))
      ensures Enters(dev.sem, blobs, node, vs, fuel) && IsCaptured(steps[Key(k, node)]) ==>
                Replayed(node.body, steps[Key(k, node)].jit.outs, state)
      decreases node, 3
    {
      hide EvalSub, EvalLoop, LoopState, SubReady, Holds, Settled, StepOk, RequiresEager, BaseBuf, Realized, NodeWf,
          TypedSub, ShapesOf, SafeLoop, Certifies, Touched, Replayed, Enters, StepsKept, AllTainted, Support,
          SupportAll, SameCapture;
      ghost var n, b0, o0, steps0 := |dev.bufs|, dev.bufs, dev.owner, steps;
      ghost var c, key0 := CertificateOf(dev.sem, node, k, a, t), Key(k, node);
      state := MaterializeAll(dev, args, vs);
      StepsLater();
      AddsTouch(b0, o0, dev.bufs, dev.owner, k);
      BasesLater(dev.sem, args, a, t, o0, dev.owner, top);
      FirstState(dev.sem, node.body, k, top, t, args, state, vs, dev.Mem(), dev.owner, n);
      var key := Key(k, node);
      if key !in steps {
        ReadySubs(dev.sem, node, vs);
        var step := MakeStep(node);
        assert StepOk(dev.sem, blobs, Key(k, node), step, dev.owner);
        steps := steps[key := step];
      }
      StepsStart(steps0, steps, key, k);
      ghost var now, left := vs, fuel;
      LoopStep(dev.sem, blobs, node, now, left, final, fuel);
      ghost var test := EvalSub(dev.sem, blobs, node.cond, now, [], fuel).value;
      EntersWhen(dev.sem, blobs, node, vs, fuel);
      var go := Enter(node, k, state, top, SupportAll(args), c, now, test, b0, o0, steps0, fuel);
      ghost var entered := false;
      while go
        invariant StepsOk() && key in steps && StepsKept(steps0, steps, k) && Touched(b0, o0, dev.bufs, dev.owner, k)
        invariant n <= |dev.bufs|
        invariant key in steps0 ==> SameCapture(steps0[key], steps[key])
        invariant LoopReady(dev.sem, node, now)
        invariant LoopState(dev.sem, node.body, k, top, SupportAll(args), t, state, now, dev.Mem(), dev.owner, n)
        invariant EvalLoop(dev.sem, blobs, node, now, left, fuel) == Ok(final)
        invariant test != [] && EvalSub(dev.sem, blobs, node.cond, now, [], fuel) == Ok(test)
        invariant go == dev.sem.truthy(test[0])
        invariant go || entered || !Enters(dev.sem, blobs, node, vs, fuel)
        invariant entered && IsCaptured(steps[key]) ==>
            Replayed(node.body, steps[key].jit.outs, state)
        decreases left
      {
        LoopStep(dev.sem, blobs, node, now, left, final, fuel);
        ghost var next := EvalSub(dev.sem, blobs, node.body, now, [], fuel).value;
        ghost var b1, o1, steps1 := dev.bufs, dev.owner, steps;
        state := Iterate(node, k, state, top, SupportAll(args), c, now, next, n, fuel);
        entered := true;
        TouchedTrans(b0, o0, b1, o1, dev.bufs, dev.owner, k);
        TouchedGrows(b0, o0, dev.bufs, dev.owner, k);
        StepsTrans(steps0, steps1, steps, k);
        if key in steps0 {
          CaptureTrans(steps0[key], steps1[key], steps[key]);
        }
        ReadyNext(dev.sem, blobs, node, now, next, fuel);
        now, left := next, left - 1;
        LoopStep(dev.sem, blobs, node, now, left, final, fuel);
        test := EvalSub(dev.sem, blobs, node.cond, now, [], fuel).value;
        ghost var steps2 := steps;
        go := Enter(node, k, state, top, SupportAll(args), c, now, test, b0, o0, steps0, fuel);
      }
      LoopStep(dev.sem, blobs, node, now, left, final, fuel);
    }

    /** The test at the top of the loop, with everything the loop relies on kept. */
    method Enter(node: Node, k: Path, state: seq<Tensor>, ghost top: Path, ghost s: set<nat>, ghost c: Certificate,
        ghost vs: seq<Value>, ghost test: seq<Value>, ghost b0: seq<Value>, ghost o0: seq<Option<Path>>,
        ghost steps0: map<Key, Step>, ghost fuel: nat) returns (go: bool)
      requires StepsOk() && ShapeLaw(dev.sem) && LoopReady(dev.sem, node, vs) && top <= k && Key(k, node) in steps
      requires EvalSub(dev.sem, blobs, node.cond, vs, [], fuel) == Ok(test) && test != []
      requires Certifies(dev.sem, node, k, c)
      requires LoopState(dev.sem, node.body, k, top, s, c.taints, state, vs, dev.Mem(), dev.owner, |b0|)
      requires Touched(b0, o0, dev.bufs, dev.owner, k) && StepsKept(steps0, steps, k)
      modifies this, dev
      ensures StepsOk() && StepsKept(steps0, steps, k) && Touched(b0, o0, dev.bufs, dev.owner, k) && |b0| <= |dev.bufs|
      ensures Key(k, node) in steps && steps[Key(k, node)] == old(steps[Key(k, node)])
      ensures LoopState(dev.sem, node.body, k, top, s, c.taints, state, vs, dev.Mem(), dev.owner, |b0|)
      ensures go == dev.sem.truthy(test[0])
      decreases node, 2
    {
      hide EvalSub, LoopState, NodeWf, TypedSub, Certifies;
      ghost var b1, o1, steps1 := dev.bufs, dev.owner, steps;
      go := Test(node, k, state, top, s, c, vs, test, |b0|, fuel);
      TouchedWider(b1, o1, dev.bufs, dev.owner, k, k + [0]);
      TouchedTrans(b0, o0, b1, o1, dev.bufs, dev.owner, k);
      StepsWider(steps1, steps, k, k + [0]);
      StepsTrans(steps0, steps1, steps, k);
    }

    method Test(node: Node, k: Path, state: seq<Tensor>, ghost top: Path, ghost s: set<nat>, ghost c: Certificate,
        ghost vs: seq<Value>, ghost test: seq<Value>, ghost n: nat, ghost fuel: nat) returns (go: bool)
      requires StepsOk() && ShapeLaw(dev.sem) && LoopReady(dev.sem, node, vs) && n <= |dev.bufs| && top <= k
      requires EvalSub(dev.sem, blobs, node.cond, vs, [], fuel) == Ok(test) && test != []
      requires Certifies(dev.sem, node, k, c)
      requires LoopState(dev.sem, node.body, k, top, s, c.taints, state, vs, dev.Mem(), dev.owner, n)
      modifies this, dev
      ensures StepsOk() && StepsKept(old(steps), steps, k + [0])
      ensures Touched(old(dev.bufs), old(dev.owner), dev.bufs, dev.owner, k + [0])
      ensures LoopState(dev.sem, node.body, k, top, s, c.taints, state, vs, dev.Mem(), dev.owner, n)
      ensures go == dev.sem.truthy(test[0])
      decreases node, 0
    {
      hide EvalSub, LoopState, SubReady, Touched, Holds, OutputsMade, SafeChain, TaintAt, StartTaints, BaseBuf,
          AllTensorsTainted, AllMade, StepsKept;
      ghost var mem, o := dev.Mem(), dev.owner;
      ReadySubs(dev.sem, node, vs);
      StateHolds(dev.sem, node.body, k, top, s, c.taints, state, vs, mem, o, n);
      var outs := RunSub(node.cond, state, k + [0], top, c.cond, Held(c.taints), vs, test, fuel);
      SurvivesTest(dev.sem, node.body, k, top, s, c.taints, state, vs, mem, dev.Mem(), o, dev.owner, n);
      HoldsAt(dev.sem, outs, dev.Mem(), test);
      go := dev.sem.truthy(Read(dev.sem, outs[0], dev.Mem()).value);
    }

    /** A fold whose function holds loops: the function, node by node, once for every element.  Its
        loops' steps are entered again each time. */
    method RunFold(node: Node, k: Path, args: seq<Tensor>, ghost top: Path, ghost x: Taint, ghost y: Taint,
        ghost c: Taint, ghost vs: seq<Value>, ghost shapes: Shapes, ghost fuel: nat) returns (t: Tensor)
      requires StepsOk() && ShapeLaw(dev.sem) && node.Fold? && Loops(node) && NodeWf(node)
      requires TypedNode(dev.sem, node, shapes) && top <= k
      requires |args| == |vs| == 2 && ShapesOfValues(dev.sem, vs) == ShapesOf(node.inputs, shapes)
      requires NodeResults(dev.sem, blobs, node, vs, [], fuel).Ok?
      requires Holds(dev.sem, args, dev.Mem(), vs) && SafeFold(dev.sem, node, k, x, y, c)
      requires TensorTainted(dev.sem, args[0], x, dev.owner, top) && TensorTainted(dev.sem, args[1], y, dev.owner, top)
      modifies this, dev
      ensures StepsOk() && StepsKept(old(steps), steps, k)
      ensures Touched(old(dev.bufs), old(dev.owner), dev.bufs, dev.owner, k)
      ensures Read(dev.sem, t, dev.Mem()).Ok?
      ensures NodeResults(dev.sem, blobs, node, vs, [], fuel) == Ok([Read(dev.sem, t, dev.Mem()).value]) && Concrete(t)
      ensures TensorTainted(dev.sem, t, Taint({}, x.all + c.all), dev.owner, top)
      ensures AllMade(Support(t), SupportAll(args), dev.owner, k, old(|dev.bufs|))
      decreases node, 3
    {
      hide EvalSub, EvalFold, SafeChain, FoldState, SubReady, Holds, Touched, TypedSub, ElementShapes,
          AllTensorsTainted, OutputsMade, AllMade, TensorTainted, StepsKept, WithinTaint, SafeFold, TaintAt,
          StartTaints, ShapeLaw, NodeWf, Loops, DeclaredShapes, SupportAll;
      ghost var sem, n, b0, o0, steps0 := dev.sem, |dev.bufs|, dev.bufs, dev.owner, steps;
      ghost var (accShape, elemShape) := FoldShapes(sem, node, shapes);
      ghost var ms := FoldChain(sem, node, k, x, y, c);
      ghost var v := sem.apply(FoldInit(node.op, node.attrs), vs);
      var acc := Lazy(FoldInit(node.op, node.attrs), args);
      FoldOpens(sem, blobs, node, vs, shapes, accShape, elemShape, fuel);
      FoldStarts(sem, node, k, top, args, vs, x, y, c, dev.Mem(), dev.owner);
      HoldsAt(sem, args, dev.Mem(), vs);
      TouchedNothing(dev.bufs, dev.owner, k);
      StepsSame(steps, k);
      for i := 0 to node.count
        invariant StepsOk() && StepsKept(steps0, steps, k) && Touched(b0, o0, dev.bufs, dev.owner, k) && n <= |dev.bufs|
        invariant FoldState(sem, k, top, args, c, acc, v, dev.Mem(), dev.owner, n)
        invariant Read(sem, args[0], dev.Mem()) == Ok(vs[0]) && TensorTainted(sem, args[0], x, dev.owner, top)
        invariant EvalFold(sem, blobs, node, vs[0], sem.apply(FoldInit(node.op, node.attrs), vs), i, fuel) == Ok(v)
        invariant sem.shape(v) == accShape
      {
        ghost var b1, o1, mem, steps1 := dev.bufs, dev.owner, dev.Mem(), steps;
        ghost var init, e := sem.apply(FoldInit(node.op, node.attrs), vs),
              sem.apply(Element(node.op, node.attrs, i), [vs[0]]);
        FoldBefore(sem, blobs, node, vs[0], init, i + 1, node.count, fuel);
        FoldStep(sem, blobs, node, vs[0], init, i, v, fuel);
        FoldArgs(sem, node, k, top, args, x, c, acc, v, vs[0], i, mem, o1, n);
        ghost var next := EvalSub(sem, blobs, node.fn, [v, e], [], fuel).value;
        FoldElement(sem, node, vs, shapes, accShape, elemShape, i);
        FoldReady(sem, blobs, node, accShape, elemShape, v, e, next, fuel);
        var params := [acc, Lazy(Element(node.op, node.attrs, i), [args[0]])];
        var outs := RunSub(node.fn, params, k + [1], top, ms, [c, x], [v, e], next, fuel);
        TouchedGrows(b1, o1, dev.bufs, dev.owner, k + [1]);
        FoldNext(sem, node, k, top, args, x, y, c, params, outs, TaintAt(ms[|node.fn.nodes|], node.fn.outputs[0].id),
            next, mem, o1, dev.Mem(), dev.owner, n);
        TouchedWider(b1, o1, dev.bufs, dev.owner, k, k + [1]);
        TouchedTrans(b0, o0, b1, o1, dev.bufs, dev.owner, k);
        StepsWider(steps1, steps, k, k + [1]);
        StepsTrans(steps0, steps1, steps, k);
        acc, v := outs[0], next[0];
      }
      FoldEnds(sem, node, k, top, args, x, c, acc, v, vs[0], dev.Mem(), dev.owner, n);
      t := Lazy(FoldFinish(node.op, node.attrs, node.spec), [args[0], acc]);
    }

    method RunNodes(nodes: seq<Node>, env0: TensorEnv, p: Path, ghost top: Path, ghost outs: seq<nat>,
        ghost ms: seq<Taints>, ghost s: set<nat>, ghost vals0: Env, ghost shapes: Shapes, ghost fuel: nat)
        returns (env: TensorEnv)
      requires StepsOk() && ShapeLaw(dev.sem) && AllWf(nodes) && TypedNodes(dev.sem, nodes, shapes)
      requires Shaped(dev.sem, vals0, shapes) && top <= p
      requires EvalNodes(dev.sem, blobs, nodes, vals0, [], fuel).Ok? && SafeChain(dev.sem, nodes, outs, p, ms)
      requires LiveReads(dev.sem, nodes, 0, outs, env0, vals0, dev.Mem())
      requires EnvTainted(dev.sem, env0, ms[0], dev.owner, top) && EnvMade(env0, s, dev.owner, p, |dev.bufs|)
      modifies this, dev
      ensures StepsOk() && StepsKept(old(steps), steps, p)
      ensures Touched(old(dev.bufs), old(dev.owner), dev.bufs, dev.owner, p)
      ensures LiveReads(dev.sem, nodes, |nodes|, outs, env, EvalNodes(dev.sem, blobs, nodes, vals0, [], fuel).value,
          dev.Mem())
      ensures EnvTainted(dev.sem, env, ms[|nodes|], dev.owner, top) && EnvMade(env, s, dev.owner, p, old(|dev.bufs|))
      ensures OnlyDefines(env0, env, nodes)
      decreases nodes, 0
    {
      hide AllWf, TypedNodes, EvalNodes, LiveReads, EnvTainted, EnvMade, OnlyDefines, ShapeLaw, Shaped, LazyNode,
          NodeWf, NodeResults, SafeStep, Lookup, Tensors, NodeIds, Loops, Touched, StepsKept, Flow;
      ghost var n, b0, o0, steps0 := |dev.bufs|, dev.bufs, dev.owner, steps;
      env := env0;
      RunStart(dev.sem, blobs, nodes, outs, env0, ms[0], s, vals0, shapes, dev.Mem(), dev.owner, p, top, n, fuel);
      TouchedNothing(b0, o0, p);
      StepsSame(steps, p);
      for i := 0 to |nodes|
        invariant StepsOk() && StepsKept(steps0, steps, p) && Touched(b0, o0, dev.bufs, dev.owner, p) && n <= |dev.bufs|
        invariant RunInv(dev.sem, blobs, nodes, i, outs, env0, env, ms[i], s, vals0, shapes, dev.Mem(), dev.owner, p,
            top, n, fuel)
      {
        assert SafeStep(dev.sem, nodes, i, outs, p, ms[i], ms[i + 1]);
        if nodes[i].While? {
          env := RunLoopAt(nodes, i, env, p, env0, top, outs, ms[i], ms[i + 1], s, vals0, shapes, b0, o0, steps0, fuel);
        } else if Loops(nodes[i]) {
          LoopsKind(nodes[i]);
          env := RunFoldAt(nodes, i, env, p, env0, top, outs, ms[i], ms[i + 1], s, vals0, shapes, b0, o0, steps0, fuel);
        } else {
          FlowStep(dev.sem, nodes, i, outs, p, ms[i], ms[i + 1]);
          RunNode(dev.sem, blobs, nodes, i, outs, env0, env, ms[i], s, vals0, shapes, dev.Mem(), dev.owner, p, top, n,
              fuel);
          env := env[nodes[i].id := LazyNode(dev.sem, blobs, nodes[i], Tensors(env, nodes[i].inputs).value,
              dev.Mem()).value];
        }
      }
      assert nodes[..|nodes|] == nodes;
    }

    /** Node i, a loop. */
    method RunLoopAt(nodes: seq<Node>, i: nat, env: TensorEnv, p: Path, ghost env0: TensorEnv, ghost top: Path,
        ghost outs: seq<nat>, ghost m: Taints, ghost m': Taints, ghost s: set<nat>, ghost vals0: Env,
        ghost shapes: Shapes, ghost b0: seq<Value>, ghost o0: seq<Option<Path>>, ghost steps0: map<Key, Step>,
        ghost fuel: nat) returns (env': TensorEnv)
      requires StepsOk() && ShapeLaw(dev.sem) && AllWf(nodes) && TypedNodes(dev.sem, nodes, shapes)
      requires Shaped(dev.sem, vals0, shapes) && top <= p
      requires i < |nodes| && nodes[i].While? && EvalNodes(dev.sem, blobs, nodes, vals0, [], fuel).Ok?
      requires SafeStep(dev.sem, nodes, i, outs, p, m, m')
      requires RunInv(dev.sem, blobs, nodes, i, outs, env0, env, m, s, vals0, shapes, dev.Mem(), dev.owner, p, top,
          |b0|, fuel)
      requires Touched(b0, o0, dev.bufs, dev.owner, p) && |b0| <= |dev.bufs| && StepsKept(steps0, steps, p)
      modifies this, dev
      ensures StepsOk() && StepsKept(steps0, steps, p) && Touched(b0, o0, dev.bufs, dev.owner, p) && |b0| <= |dev.bufs|
      ensures RunInv(dev.sem, blobs, nodes, i + 1, outs, env0, env', m', s, vals0, shapes, dev.Mem(), dev.owner, p, top,
          |b0|, fuel)
      decreases nodes[i], 4
    {
      hide AllWf, TypedNodes, EvalNodes, EvalLoop, LoopReady, LoopState, Holds, Shaped, ShapeLaw, Lookup, Tensors,
          BindResults, Bind, BindTaints, SafeLoop, LiveClean, LiveReads, EnvTainted, EnvMade, OnlyDefines, AllMade,
          SupportAll, Touched, StepsKept, TensorTainted, BaseBuf, AllTainted, Replayed, SameCapture, Enters;
      ghost var sem, n, node, k := dev.sem, |b0|, nodes[i], p + [i];
      LoopsEntry(sem, blobs, nodes, i, outs, env0, env, m, s, vals0, shapes, dev.Mem(), dev.owner, p, top, n, fuel);
      ghost var vals := EvalNodes(sem, blobs, nodes[..i], vals0, [], fuel).value;
      ghost var vs := Lookup(vals, node.inputs).value;
      ghost var final := EvalLoop(sem, blobs, node, vs, fuel, fuel).value;
      ghost var mem, o, steps1 := dev.Mem(), dev.owner, steps;
      var args := Tensors(env, nodes[i].inputs).value;
      NodeReady(sem, nodes, shapes, i, vals, vs);
      ghost var t :| SafeLoop(sem, node, k, BasesAt(m, node.inputs), t)
            && m' == BindTaints(OutIds(node.outputs), Held(t), m);
      OperandBases(sem, env, m, node.inputs, args, o, top);
      var rs := RunWhile(nodes[i], p + [i], args, top, BasesAt(m, node.inputs), t, vs, final, fuel);
      TouchedGrows(mem.bufs, o, dev.bufs, dev.owner, k);
      EnvSurvives(sem, nodes, i, outs, env, m, s, vals, mem, o, dev.Mem(), dev.owner, p, top, n);
      LoopBound(sem, nodes, i, outs, env, m, s, vals, args, rs, final, t, dev.Mem(), o, dev.owner, p, top, n,
          |mem.bufs|);
      KeepsLoop(env0, env, nodes, i, rs);
      env' := BindResults(OutIds(nodes[i].outputs), rs, env);
      LoopsExit(sem, blobs, nodes, i, outs, env0, env, env', m, m', s, vals0, shapes, mem, o, dev.Mem(), dev.owner, p,
          top, n, fuel);
      TouchedWider(mem.bufs, o, dev.bufs, dev.owner, p, k);
      TouchedTrans(b0, o0, mem.bufs, o, dev.bufs, dev.owner, p);
      StepsWider(steps1, steps, p, k);
      StepsTrans(steps0, steps1, steps, p);
    }

    /** Node i, a fold whose function holds loops. */
    method RunFoldAt(nodes: seq<Node>, i: nat, env: TensorEnv, p: Path, ghost env0: TensorEnv, ghost top: Path,
        ghost outs: seq<nat>, ghost m: Taints, ghost m': Taints, ghost s: set<nat>, ghost vals0: Env,
        ghost shapes: Shapes, ghost b0: seq<Value>, ghost o0: seq<Option<Path>>, ghost steps0: map<Key, Step>,
        ghost fuel: nat) returns (env': TensorEnv)
      requires StepsOk() && ShapeLaw(dev.sem) && AllWf(nodes) && TypedNodes(dev.sem, nodes, shapes)
      requires Shaped(dev.sem, vals0, shapes) && top <= p
      requires i < |nodes| && nodes[i].Fold? && Loops(nodes[i])
      requires EvalNodes(dev.sem, blobs, nodes, vals0, [], fuel).Ok? && SafeStep(dev.sem, nodes, i, outs, p, m, m')
      requires RunInv(dev.sem, blobs, nodes, i, outs, env0, env, m, s, vals0, shapes, dev.Mem(), dev.owner, p, top,
          |b0|, fuel)
      requires Touched(b0, o0, dev.bufs, dev.owner, p) && |b0| <= |dev.bufs| && StepsKept(steps0, steps, p)
      modifies this, dev
      ensures StepsOk() && StepsKept(steps0, steps, p) && Touched(b0, o0, dev.bufs, dev.owner, p) && |b0| <= |dev.bufs|
      ensures RunInv(dev.sem, blobs, nodes, i + 1, outs, env0, env', m', s, vals0, shapes, dev.Mem(), dev.owner, p, top,
          |b0|, fuel)
      decreases nodes[i], 4
    {
      hide AllWf, TypedNodes, TypedNode, EvalNodes, NodeResults, Holds, Shaped, ShapeLaw, Lookup, Tensors, Bind,
          SafeFold, LiveClean, LiveReads, EnvTainted, EnvMade, OnlyDefines, AllMade, SupportAll, Touched, StepsKept,
          TensorTainted, Loops, NodeWf;
      ghost var sem, n, node, k := dev.sem, |b0|, nodes[i], p + [i];
      LoopsEntry(sem, blobs, nodes, i, outs, env0, env, m, s, vals0, shapes, dev.Mem(), dev.owner, p, top, n, fuel);
      ghost var vals := EvalNodes(sem, blobs, nodes[..i], vals0, [], fuel).value;
      ghost var vs := Lookup(vals, node.inputs).value;
      ghost var mem, o, steps1 := dev.Mem(), dev.owner, steps;
      var args := Tensors(env, nodes[i].inputs).value;
      FoldFits(sem, nodes, shapes, i, vals, vs);
      ghost var x, y := TaintAt(m, node.inputs[0]), TaintAt(m, node.inputs[1]);
      ghost var c: Taint :| SafeFold(sem, node, k, x, y, c) && m' == m[node.id := Taint({}, x.all + c.all)];
      OperandsAt(sem, env, m, node.inputs, args, o, top);
      var t := RunFold(nodes[i], p + [i], args, top, x, y, c, vs, shapes, fuel);
      TouchedGrows(mem.bufs, o, dev.bufs, dev.owner, k);
      EnvSurvives(sem, nodes, i, outs, env, m, s, vals, mem, o, dev.Mem(), dev.owner, p, top, n);
      env' := env[nodes[i].id := t];
      FoldBound(sem, nodes, i, outs, env, m, Taint({}, x.all + c.all), s, vals, args, t, dev.Mem(), o, dev.owner, p,
          top, n, |mem.bufs|);
      KeepsOne(env0, env, nodes, i, t);
      LoopsExit(sem, blobs, nodes, i, outs, env0, env, env', m, m', s, vals0, shapes, mem, o, dev.Mem(), dev.owner, p,
          top, n, fuel);
      TouchedWider(mem.bufs, o, dev.bufs, dev.owner, p, k);
      TouchedTrans(b0, o0, mem.bufs, o, dev.bufs, dev.owner, p);
      StepsWider(steps1, steps, p, k);
      StepsTrans(steps0, steps1, steps, p);
    }
  }
}
