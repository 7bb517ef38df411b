/** Loop variables that a body returns as they came. */
module PassThrough {
  import opened Values
  import opened GraphIR
  import opened GraphForm
  import opened SymbolicSound
  import opened LazyTensors
  import opened Reentry

  /** Binding leaves an input's parameter at its id. */
  lemma {:induction false} InputBound(inputs: seq<GraphInput>, j: nat, params: seq<Value>, env: Env)
    requires Unique(InputIds(inputs)) && InputIdAt(inputs, j).Some? && BindInputs(inputs, params, env).Ok?
    ensures var id := InputIdAt(inputs, j).value;
            && InputIds(inputs)[id] == 1 && j < |params|
            && id in BindInputs(inputs, params, env).value && BindInputs(inputs, params, env).value[id] == params[j]
  {
    var last := inputs[|inputs| - 1];
    var init := inputs[..|inputs| - 1];
    if last.index != j {
      assert Unique(InputIds(init)) by {
        forall id: nat ensures InputIds(init)[id] <= 1 { assert InputIds(inputs)[id] <= 1; }
      }
      InputBound(init, j, params, env);
      assert InputIds(inputs)[InputIdAt(init, j).value] <= 1;
    } else {
      assert InputIds(inputs)[last.id] <= 1;
    }
  }

  lemma {:induction false} InputTensorBound(inputs: seq<GraphInput>, j: nat, params: seq<Tensor>, env: TensorEnv)
    requires Unique(InputIds(inputs)) && InputIdAt(inputs, j).Some? && BindTensors(inputs, params, env).Ok?
    ensures var id := InputIdAt(inputs, j).value;
            && InputIds(inputs)[id] == 1 && j < |params|
            && id in BindTensors(inputs, params, env).value && BindTensors(inputs, params, env).value[id] == params[j]
  {
    var last := inputs[|inputs| - 1];
    var init := inputs[..|inputs| - 1];
    if last.index != j {
      assert Unique(InputIds(init)) by {
        forall id: nat ensures InputIds(init)[id] <= 1 { assert InputIds(inputs)[id] <= 1; }
      }
      InputTensorBound(init, j, params, env);
      assert InputIds(inputs)[InputIdAt(init, j).value] <= 1;
    } else {
      assert InputIds(inputs)[last.id] <= 1;
    }
  }

  lemma {:induction false} BindKeeps(ids: seq<nat>, values: seq<Value>, env: Env, id: nat)
    requires id !in ids
    ensures id in env ==> id in Bind(ids, values, env) && Bind(ids, values, env)[id] == env[id]
  {
    if ids != [] {
      assert id !in ids[..|ids| - 1];
      BindKeeps(ids[..|ids| - 1], values, env, id);
    }
  }

  /** Nodes change only the ids they define. */
  lemma {:induction false} NodesKeep(sem: Sem, blobs: seq<Bytes>, nodes: seq<Node>, env: Env, sym: seq<int>, fuel: nat,
      id: nat)
    requires NodeIds(nodes)[id] == 0 && id in env && EvalNodes(sem, blobs, nodes, env, sym, fuel).Ok?
    ensures id in EvalNodes(sem, blobs, nodes, env, sym, fuel).value
    ensures EvalNodes(sem, blobs, nodes, env, sym, fuel).value[id] == env[id]
  {
    if nodes != [] {
      var last := nodes[|nodes| - 1];
      var init := nodes[..|nodes| - 1];
      NodesKeep(sem, blobs, init, env, sym, fuel, id);
      var mid := EvalNodes(sem, blobs, init, env, sym, fuel).value;
      assert id !in DefinedIds(last) by { assert multiset(DefinedIds(last))[id] == 0; }
      BindKeeps(DefinedIds(last), NodeResults(sem, blobs, last, Lookup(mid, last.inputs).value, sym, fuel).value, mid,
          id);
    }
  }

  /** A well-formed graph defines no input id again. */
  lemma InputsOnly(sub: Sub)
    requires SubOk(sub)
    ensures Unique(InputIds(sub.inputs))
    ensures forall id: nat :: InputIds(sub.inputs)[id] == 1 ==> NodeIds(sub.nodes)[id] == 0
  {
    var ids := AllIds(sub.inputs, sub.constants, sub.nodes);
    RangeSize(|ids|);
    forall id: nat ensures InputIds(sub.inputs)[id] + ConstantIds(sub.constants)[id] + NodeIds(sub.nodes)[id] <= 1 {
      assert ids[id] == Range(|ids|)[id] <= 1;
    }
  }

  /** One pass over the body leaves an invariant variable as it was. */
  lemma InvariantValue(sem: Sem, blobs: seq<Bytes>, body: Sub, vs: seq<Value>, next: seq<Value>, sym: seq<int>,
      fuel: nat, j: nat)
    requires SubOk(body) && Invariant(body, j) && EvalSub(sem, blobs, body, vs, sym, fuel) == Ok(next)
    ensures j < |vs| && j < |next| && next[j] == vs[j]
  {
    hide SubOk, BindConstants, BindInputs, InputIdAt, EvalNodes, Unique;
    InputsOnly(body);
    InputBound(body.inputs, j, vs, BindConstants(sem, blobs, body.constants).value);
    NodesKeep(sem, blobs, body.nodes, InitialEnv(sem, blobs, body, vs).value, sym, fuel,
        InputIdAt(body.inputs, j).value);
  }
}
