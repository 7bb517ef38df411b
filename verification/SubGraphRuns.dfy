/** Running a lowered (sub-)graph: what a model promises is what node-by-node evaluation finds. */
module SubGraphRuns {
  import opened Values
  import opened GraphIR
  import opened GraphForm
  import opened Lowering
  import opened LoweringForm
  import opened ExprMeaning
  import opened LoweringMeaning

  /** Every id the environment binds has the model's value. */
  ghost predicate EnvIn(env: Env, m: Model) {
    forall id :: id in env ==> id in m && m[id] == Some(env[id])
  }

  ghost predicate Covers(env: Env, ids: multiset<nat>) {
    forall id: nat :: id in env <==> id in ids
  }

  lemma {:induction false} BindIn(ids: seq<nat>, values: seq<Value>, env: Env, m: Model, base: multiset<nat>)
    requires |ids| == |values| && EnvIn(env, m) && Covers(env, base)
    requires forall k :: 0 <= k < |ids| ==> ids[k] in m && m[ids[k]] == Some(values[k])
    ensures EnvIn(Bind(ids, values, env), m) && Covers(Bind(ids, values, env), base + multiset(ids))
  {
    if ids != [] {
      var last := |ids| - 1;
      BindPrefix(ids[..last], values, env);
      BindIn(ids[..last], values[..last], env, m, base);
      assert ids == ids[..last] + [ids[last]];
    }
  }

  lemma {:induction false} ConstantsRun(x: Run, constants: seq<Constant>, m: Model)
    requires forall k :: 0 <= k < |constants| ==> ConstantHolds(x, constants[k], m)
    ensures var r := BindConstants(x.sem, x.blobs, constants);
            r.Ok? && EnvIn(r.value, m) && Covers(r.value, ConstantIds(constants))
  {
    if constants != [] {
      var last := |constants| - 1;
      ConstantsRun(x, constants[..last], m);
      assert ConstantHolds(x, constants[last], m);
    }
  }

  lemma {:induction false} InputsRun(x: Run, inputs: seq<GraphInput>, m: Model, env: Env, base: multiset<nat>)
    requires forall k :: 0 <= k < |inputs| ==> InputHolds(x, inputs[k], m)
    requires EnvIn(env, m) && Covers(env, base)
    ensures var r := BindInputs(inputs, x.params, env);
            r.Ok? && EnvIn(r.value, m) && Covers(r.value, InputIds(inputs) + base)
  {
    if inputs != [] {
      var last := |inputs| - 1;
      InputsRun(x, inputs[..last], m, env, base);
      assert InputHolds(x, inputs[last], m);
    }
  }

  /** Every id below the bound is defined by the base or by a node. */
  ghost predicate Complete(base: multiset<nat>, nodes: seq<Node>, bound: nat) {
    forall id: nat :: id < bound ==> id in base || id in NodeIds(nodes)
  }

  lemma CompleteBefore(base: multiset<nat>, nodes: seq<Node>, bound: nat)
    requires nodes != [] && NodesOk(nodes, bound) && Complete(base, nodes, bound)
    ensures var node := nodes[|nodes| - 1];
            var before := nodes[..|nodes| - 1];
            && DefinedIds(node) != [] && NodesOk(before, DefinedIds(node)[0])
                && Complete(base, before, DefinedIds(node)[0])
            && forall k :: 0 <= k < |node.inputs| ==> node.inputs[k] in base + NodeIds(before)
  {
    hide NodeSubsOk;
    var node := nodes[|nodes| - 1];
    var ids := DefinedIds(node);
    forall id: nat | id < ids[0] ensures id in base || id in NodeIds(nodes[..|nodes| - 1]) {
      assert id in base || id in NodeIds(nodes);
      assert id !in multiset(ids);
    }
  }

  lemma IdsStep(base: multiset<nat>, nodes: seq<Node>)
    ensures nodes == [] ==> base + NodeIds(nodes) == base
    ensures nodes != [] ==>
      base + NodeIds(nodes[..|nodes| - 1]) + multiset(DefinedIds(nodes[|nodes| - 1])) == base + NodeIds(nodes)
  {
  }

  lemma CoversInputs(node: Node, env: Env, ids: multiset<nat>)
    requires Covers(env, ids) && forall k :: 0 <= k < |node.inputs| ==> node.inputs[k] in ids
    ensures forall k :: 0 <= k < |node.inputs| ==> node.inputs[k] in env
  {
  }

  lemma {:induction false} NodesRun(x: Run, nodes: seq<Node>, m: Model, env: Env, base: multiset<nat>, bound: nat)
    requires forall k :: 0 <= k < |nodes| ==> NodeHolds(x, nodes[k], m)
    requires EnvIn(env, m) && Covers(env, base)
    requires NodesOk(nodes, bound) && Complete(base, nodes, bound)
    ensures var r := EvalNodes(x.sem, x.blobs, nodes, env, [], x.fuel);
            && !r.Stuck?
            && (r.Ok? ==> EnvIn(r.value, m) && Covers(r.value, base + NodeIds(nodes)))
            && (!r.Ok? ==> Broken(m))
    decreases |nodes|
  {
    IdsStep(base, nodes);
    hide NodeHolds, NodesOk, Complete, EnvIn, Covers, NodeResults, Bind, NodeIds;
    if nodes != [] {
      var node := nodes[|nodes| - 1];
      var before := nodes[..|nodes| - 1];
      CompleteBefore(base, nodes, bound);
      assert NodeHolds(x, node, m);
      assert forall k :: 0 <= k < |before| ==> before[k] == nodes[k];
      NodesRun(x, before, m, env, base, DefinedIds(node)[0]);
      var r := EvalNodes(x.sem, x.blobs, before, env, [], x.fuel);
      if r.Ok? {
        CoversInputs(node, r.value, base + NodeIds(before));
        NodeRuns(x, node, m, r.value, base + NodeIds(before));
      }
    }
  }

  /** One node, in an environment that binds its operands. */
  lemma NodeRuns(x: Run, node: Node, m: Model, env: Env, base: multiset<nat>)
    requires NodeHolds(x, node, m) && EnvIn(env, m) && Covers(env, base)
    requires forall k :: 0 <= k < |node.inputs| ==> node.inputs[k] in env
    ensures var args := Lookup(env, node.inputs);
            && args.Ok?
            && var r := NodeResults(x.sem, x.blobs, node, args.value, [], x.fuel);
            && !r.Stuck?
            && (!r.Ok? ==> Broken(m))
            && (r.Ok? ==>
                  var env' := Bind(DefinedIds(node), r.value, env);
                  EnvIn(env', m) && Covers(env', base + multiset(DefinedIds(node))))
  {
    var ids := DefinedIds(node);
    var args := Lookup(env, node.inputs).value;
    assert args == Vals(m, node.inputs);
    var r := NodeResults(x.sem, x.blobs, node, args, [], x.fuel);
    if r.Ok? {
      BindIn(ids, r.value, env, m, base);
    } else {
      var k :| 0 <= k < |ids| && m[ids[k]].None?;
      assert ids[k] in m;
    }
  }

  /** A run and an expression list agree: both give the same values, or neither ends. */
  predicate Same(o: Outcome<seq<Value>>, v: Option<seq<Value>>) {
    !o.Stuck? && (o.Ok? <==> v.Some?) && (o.Ok? ==> o.value == v.value)
  }

  /** A finished state runs from constants and parameters to an environment of the model. */
  lemma StateRuns(x: Run, t: Table, st: State, m: Model, sub: Sub)
    requires StateOk(st) && Holds(x, t, st, m)
    requires sub.inputs == st.inputs && sub.constants == st.constants && sub.nodes == st.nodes
    ensures var env := InitialEnv(x.sem, x.blobs, sub, x.params);
            && env.Ok?
            && var r := EvalNodes(x.sem, x.blobs, st.nodes, env.value, [], x.fuel);
            && !r.Stuck?
            && (r.Ok? ==> EnvIn(r.value, m) && Covers(r.value, Range(st.counter)))
            && (!r.Ok? ==> Broken(m))
  {
    hide NodesOk, NodeHolds, EnvIn, Covers, MemoHolds, MemoKnown, EvalNodes, BindConstants, BindInputs;
    ConstantsRun(x, st.constants, m);
    var env := BindConstants(x.sem, x.blobs, st.constants).value;
    InputsRun(x, st.inputs, m, env, ConstantIds(st.constants));
    var base := InputIds(st.inputs) + ConstantIds(st.constants);
    var env0 := BindInputs(st.inputs, x.params, env).value;
    assert Complete(base, st.nodes, st.counter) by {
      RangeSize(st.counter);
      forall id: nat | id < st.counter ensures id in base || id in NodeIds(st.nodes) {
        assert Range(st.counter)[id] == 1;
      }
    }
    NodesRun(x, st.nodes, m, env0, base, st.counter);
  }

  lemma FinishedRuns(x: Run, t: Table, outputs: seq<Expr>, ids: seq<nat>, st: State, m: Model, vs: Option<seq<Value>>)
    requires |ids| == |outputs| && StateOk(st) && AllBelow(ids, st.counter)
    requires Holds(x, t, st, m) && AllAgree(map[], m, ids, vs)
    ensures Same(EvalSub(x.sem, x.blobs, Finish(outputs, ids, st), x.params, [], x.fuel), vs)
  {
    hide StateOk, ItemsHold, MemoHolds, MemoKnown;
    var sub := Finish(outputs, ids, st);
    StateRuns(x, t, st, m, sub);
    RangeSize(st.counter);
    assert OutIds(sub.outputs) == ids;
    var env := InitialEnv(x.sem, x.blobs, sub, x.params).value;
    var r := EvalNodes(x.sem, x.blobs, st.nodes, env, [], x.fuel);
    if r.Ok? {
      forall id | id in m ensures m[id].Some? && id in r.value {
        assert Range(st.counter)[id] == 1;
      }
      assert Lookup(r.value, ids).value == Vals(m, ids);
    }
  }
}
