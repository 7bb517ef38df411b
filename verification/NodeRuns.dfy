/** What running a node list on a device keeps true of its environment, node by node. */
module NodeRuns {
  import opened Values
  import opened GraphIR
  import opened GraphForm
  import opened Typing
  import opened LazyTensors
  import opened LazySound
  import opened Devices
  import opened Reentry
  import opened Capture
  import opened TaintSound

  // -- prefixes -----------------------------------------------------------------

  lemma {:induction false} EvalPrefix(sem: Sem, blobs: seq<Bytes>, nodes: seq<Node>, i: nat, env: Env, sym: seq<int>,
      fuel: nat)
    requires i <= |nodes| && EvalNodes(sem, blobs, nodes, env, sym, fuel).Ok?
    ensures EvalNodes(sem, blobs, nodes[..i], env, sym, fuel).Ok?
  {
    if i < |nodes| {
      assert nodes[..|nodes| - 1][..i] == nodes[..i];
      EvalPrefix(sem, blobs, nodes[..|nodes| - 1], i, env, sym, fuel);
    } else {
      assert nodes[..i] == nodes;
    }
  }

  /** Node i, between the environments before and after it. */
  lemma EvalStep(sem: Sem, blobs: seq<Bytes>, nodes: seq<Node>, i: nat, env: Env, sym: seq<int>, fuel: nat)
    requires i < |nodes| && EvalNodes(sem, blobs, nodes, env, sym, fuel).Ok?
    ensures var vals := EvalNodes(sem, blobs, nodes[..i], env, sym, fuel);
            && vals.Ok? && Lookup(vals.value, nodes[i].inputs).Ok?
            && var r := NodeResults(sem, blobs, nodes[i], Lookup(vals.value, nodes[i].inputs).value, sym, fuel);
               && r.Ok?
               && EvalNodes(sem, blobs, nodes[..i + 1], env, sym, fuel) ==
                   Ok(Bind(DefinedIds(nodes[i]), r.value, vals.value))
  {
    EvalPrefix(sem, blobs, nodes, i + 1, env, sym, fuel);
    assert nodes[..i + 1][..i] == nodes[..i];
  }

  lemma {:induction false} TypedAt(sem: Sem, nodes: seq<Node>, shapes: Shapes, i: nat)
    requires i < |nodes| && TypedNodes(sem, nodes, shapes)
    ensures TypedNode(sem, nodes[i], shapes) && TypedNodes(sem, nodes[..i], shapes)
  {
    if i < |nodes| - 1 {
      assert nodes[..|nodes| - 1][..i] == nodes[..i];
      TypedAt(sem, nodes[..|nodes| - 1], shapes, i);
    }
  }

  // -- invariants of the environment ------------------------------------------------

  /** Every id still needed reads as its value. */
  ghost predicate LiveReads(sem: Sem, nodes: seq<Node>, i: nat, outs: seq<nat>, env: TensorEnv, vals: Env,
      mem: Memory)
  {
    forall id :: id in vals && Live(nodes, i, outs, id) ==> id in env && Read(sem, env[id], mem) == Ok(vals[id])
  }

  /** A buffer among these, or allocated since, or written by captured functions below the path. */
  predicate Made(b: nat, s: set<nat>, owner: seq<Option<Path>>, p: Path, n: nat) {
    b < |owner| && (b in s || Under(owner[b], p) || (owner[b].None? && b >= n))
  }

  predicate AllMade(bs: set<nat>, s: set<nat>, owner: seq<Option<Path>>, p: Path, n: nat) {
    forall b :: b in bs ==> Made(b, s, owner, p, n)
  }

  ghost predicate EnvMade(env: TensorEnv, s: set<nat>, owner: seq<Option<Path>>, p: Path, n: nat) {
    forall id :: id in env ==> Concrete(env[id]) && AllMade(Support(env[id]), s, owner, p, n)
  }

  /** Only the ids that these nodes define have changed. */
  ghost predicate OnlyDefines(env0: TensorEnv, env: TensorEnv, nodes: seq<Node>) {
    forall id :: id in env0 && NodeIds(nodes)[id] == 0 ==> id in env && env[id] == env0[id]
  }

  lemma LiveSooner(nodes: seq<Node>, i: nat, outs: seq<nat>, id: nat)
    requires Live(nodes, i + 1, outs, id)
    ensures Live(nodes, i, outs, id)
  {
  }

  /** A node's operands are needed at the node. */
  lemma ArgsRead(sem: Sem, nodes: seq<Node>, i: nat, outs: seq<nat>, env: TensorEnv, vals: Env, mem: Memory)
    requires i < |nodes| && LiveReads(sem, nodes, i, outs, env, vals, mem) && Lookup(vals, nodes[i].inputs).Ok?
    ensures Tensors(env, nodes[i].inputs).Ok?
    ensures ReadAll(sem, Tensors(env, nodes[i].inputs).value, mem) == Lookup(vals, nodes[i].inputs)
  {
    var ids := nodes[i].inputs;
    forall k | 0 <= k < |ids| ensures ids[k] in env && Read(sem, env[ids[k]], mem) == Ok(vals[ids[k]]) {
      assert Live(nodes, i, outs, ids[k]);
    }
    var ts := Tensors(env, ids).value;
    ReadAllAt(sem, ts, mem);
    assert ReadAll(sem, ts, mem).value == Lookup(vals, ids).value;
  }

  lemma ArgsMade(env: TensorEnv, ids: seq<nat>, s: set<nat>, owner: seq<Option<Path>>, p: Path, n: nat)
    requires EnvMade(env, s, owner, p, n) && Tensors(env, ids).Ok?
    ensures AllConcrete(Tensors(env, ids).value) && AllMade(SupportAll(Tensors(env, ids).value), s, owner, p, n)
  {
    var ts := Tensors(env, ids).value;
    AllConcreteAt(ts);
    forall b | b in SupportAll(ts) ensures Made(b, s, owner, p, n) {
      SupportAllAt(ts, b);
      var k :| 0 <= k < |ts| && b in Support(ts[k]);
      assert AllMade(Support(env[ids[k]]), s, owner, p, n);
    }
  }

  // -- a node without loops ------------------------------------------------------

  lemma LoopFreeReads(sem: Sem, blobs: seq<Bytes>, nodes: seq<Node>, i: nat, outs: seq<nat>, env: TensorEnv, vals: Env,
      mem: Memory, fuel: nat)
    requires i < |nodes| && NodeWf(nodes[i]) && !Loops(nodes[i]) && mem.sym == []
    requires LiveReads(sem, nodes, i, outs, env, vals, mem) && Lookup(vals, nodes[i].inputs).Ok?
    requires NodeResults(sem, blobs, nodes[i], Lookup(vals, nodes[i].inputs).value, [], fuel).Ok?
    ensures Tensors(env, nodes[i].inputs).Ok?
    ensures var r := LazyNode(sem, blobs, nodes[i], Tensors(env, nodes[i].inputs).value, mem);
            && r.Ok?
            && LiveReads(sem, nodes, i + 1, outs, env[nodes[i].id := r.value],
                 Bind(DefinedIds(nodes[i]), NodeResults(sem, blobs, nodes[i], Lookup(vals, nodes[i].inputs).value, [],
                     fuel).value, vals), mem)
  {
    hide LazyNode, NodeResults, NodeWf, Lookup, Tensors, ReadAll, Bind, Simple;
    assert !nodes[i].While?;
    var node := nodes[i];
    WfSimple(node);
    ArgsRead(sem, nodes, i, outs, env, vals, mem);
    var args, vs := Tensors(env, node.inputs).value, Lookup(vals, node.inputs).value;
    LazyNodeSound(sem, blobs, node, args, mem, mem, vs, fuel);
    var t := LazyNode(sem, blobs, node, args, mem).value;
    var rs := NodeResults(sem, blobs, node, vs, [], fuel).value;
    BindOne(DefinedIds(node), rs, vals);
    var vals', env' := vals[node.id := rs[0]], env[node.id := t];
    forall id | id in vals' && Live(nodes, i + 1, outs, id) ensures id in env'
        && Read(sem, env'[id], mem) == Ok(vals'[id]) {
      LiveSooner(nodes, i, outs, id);
    }
  }

  lemma LoopFreeMade(sem: Sem, blobs: seq<Bytes>, node: Node, env: TensorEnv, mem: Memory, s: set<nat>,
      owner: seq<Option<Path>>, p: Path, n: nat)
    requires !node.While? && EnvMade(env, s, owner, p, n) && Tensors(env, node.inputs).Ok?
    requires LazyNode(sem, blobs, node, Tensors(env, node.inputs).value, mem).Ok?
    ensures EnvMade(env[node.id := LazyNode(sem, blobs, node, Tensors(env, node.inputs).value, mem).value], s, owner, p,
        n)
  {
    hide LazyNode;
    ArgsMade(env, node.inputs, s, owner, p, n);
    LazyNodeMadeOf(sem, blobs, node, Tensors(env, node.inputs).value, mem);
  }

  // -- a loop ---------------------------------------------------------------------------

  /** What is needed after a node with loops survives it. */
  lemma SurvivesLoops(sem: Sem, nodes: seq<Node>, i: nat, outs: seq<nat>, p: Path, m: Taints, env: TensorEnv, vals: Env,
                      mem: Memory, mem': Memory, o: seq<Option<Path>>, o': seq<Option<Path>>, top: Path)
    requires i < |nodes| && LiveClean(nodes, i, outs, p, m) && top <= p
    requires EnvTainted(sem, env, m, o, top) && LiveReads(sem, nodes, i, outs, env, vals, mem)
    requires Touched(mem.bufs, o, mem'.bufs, o', p + [i]) && mem'.args == mem.args && mem'.sym == mem.sym
    ensures LiveReads(sem, nodes, i + 1, outs, env, vals, mem')
  {
    forall id | id in vals && Live(nodes, i + 1, outs, id) ensures id in env
        && Read(sem, env[id], mem') == Ok(vals[id]) {
      LiveSooner(nodes, i, outs, id);
      assert TensorTainted(sem, env[id], TaintAt(m, id), o, top);
      TaintClear(Support(env[id]), o, top, TaintAt(m, id).all, p + [i]);
      ClearReads(sem, env[id], mem, mem', o, o', p + [i]);
    }
  }

  lemma {:induction false} ResultsRead(sem: Sem, nodes: seq<Node>, i: nat, outs: seq<nat>, ids: seq<nat>,
      env: TensorEnv, vals: Env, rs: seq<Tensor>, final: seq<Value>, mem: Memory)
    requires LiveReads(sem, nodes, i, outs, env, vals, mem) && |rs| == |final|
    requires forall j :: 0 <= j < |rs| ==> Read(sem, rs[j], mem) == Ok(final[j])
    ensures LiveReads(sem, nodes, i, outs, BindResults(ids, rs, env), Bind(ids, final, vals), mem)
  {
    if ids != [] {
      ResultsRead(sem, nodes, i, outs, ids[..|ids| - 1], env, vals, rs, final, mem);
    }
  }

  lemma {:induction false} ResultsMade(ids: seq<nat>, env: TensorEnv, rs: seq<Tensor>, s: set<nat>,
      owner: seq<Option<Path>>, p: Path, n: nat)
    requires EnvMade(env, s, owner, p, n)
    requires forall j :: 0 <= j < |rs| ==> Concrete(rs[j]) && AllMade(Support(rs[j]), s, owner, p, n)
    ensures EnvMade(BindResults(ids, rs, env), s, owner, p, n)
  {
    if ids != [] {
      ResultsMade(ids[..|ids| - 1], env, rs, s, owner, p, n);
    }
  }

  lemma {:induction false} ResultsKeep(ids: seq<nat>, env: TensorEnv, rs: seq<Tensor>, id: nat)
    requires id in env && id !in ids
    ensures id in BindResults(ids, rs, env) && BindResults(ids, rs, env)[id] == env[id]
  {
    if ids != [] {
      assert id !in ids[..|ids| - 1];
      ResultsKeep(ids[..|ids| - 1], env, rs, id);
    }
  }

  /** A node's results come from the environment, its own buffers, or new ones. */
  lemma MadeHere(bs: set<nat>, args: set<nat>, s: set<nat>, o: seq<Option<Path>>, o': seq<Option<Path>>, p: Path,
      k: Path, n: nat, n': nat)
    requires p <= k && o <= o' && n <= n' && AllMade(args, s, o, p, n) && AllMade(bs, args, o', k, n')
    ensures AllMade(bs, s, o', p, n)
  {
    forall b | b in bs ensures Made(b, s, o', p, n) {
      assert Made(b, args, o', k, n');
      if b in args {
        assert Made(b, s, o, p, n);
      }
    }
  }

  lemma EnvMadeLater(env: TensorEnv, s: set<nat>, o: seq<Option<Path>>, o': seq<Option<Path>>, p: Path, n: nat)
    requires EnvMade(env, s, o, p, n) && o <= o'
    ensures EnvMade(env, s, o', p, n)
  {
    forall id | id in env ensures Concrete(env[id]) && AllMade(Support(env[id]), s, o', p, n) {
      assert AllMade(Support(env[id]), s, o, p, n);
      forall b | b in Support(env[id]) ensures Made(b, s, o', p, n) {
        assert Made(b, s, o, p, n);
      }
    }
  }

  // -- ids --------------------------------------------------------------------------------

  lemma KeepsOne(env0: TensorEnv, env: TensorEnv, nodes: seq<Node>, i: nat, t: Tensor)
    requires i < |nodes| && !nodes[i].While? && OnlyDefines(env0, env, nodes[..i])
    ensures OnlyDefines(env0, env[nodes[i].id := t], nodes[..i + 1])
  {
    assert nodes[..i + 1][..i] == nodes[..i];
    forall id | id in env0 && NodeIds(nodes[..i + 1])[id] == 0
        ensures id in env[nodes[i].id := t] && env[nodes[i].id := t][id] == env0[id] {
      assert NodeIds(nodes[..i])[id] == 0 && multiset(DefinedIds(nodes[i]))[id] == 0;
      assert nodes[i].id in DefinedIds(nodes[i]);
    }
  }

  lemma KeepsLoop(env0: TensorEnv, env: TensorEnv, nodes: seq<Node>, i: nat, rs: seq<Tensor>)
    requires i < |nodes| && nodes[i].While? && OnlyDefines(env0, env, nodes[..i])
    ensures OnlyDefines(env0, BindResults(OutIds(nodes[i].outputs), rs, env), nodes[..i + 1])
  {
    assert nodes[..i + 1][..i] == nodes[..i];
    var ids := OutIds(nodes[i].outputs);
    forall id | id in env0 && NodeIds(nodes[..i + 1])[id] == 0
        ensures id in BindResults(ids, rs, env) && BindResults(ids, rs, env)[id] == env0[id] {
      assert NodeIds(nodes[..i])[id] == 0 && multiset(ids)[id] == 0;
      ResultsKeep(ids, env, rs, id);
    }
  }
}
