/** The state of a running loop: its values, and where they are. */
module LoopStates {
  import opened Values
  import opened GraphIR
  import opened LazyTensors
  import opened LazySound
  import opened Devices
  import opened Reentry
  import opened TaintSound
  import opened NodeRuns

  /** Tensors that read as these values, with nothing of a trace in them. */
  ghost predicate Holds(sem: Sem, ts: seq<Tensor>, mem: Memory, vs: seq<Value>) {
    ReadAll(sem, ts, mem) == Ok(vs) && AllConcrete(ts)
  }

  lemma HoldsAt(sem: Sem, ts: seq<Tensor>, mem: Memory, vs: seq<Value>)
    ensures Holds(sem, ts, mem, vs) <==>
            |ts| == |vs| && forall j :: 0 <= j < |ts| ==> Read(sem, ts[j], mem) == Ok(vs[j]) && Concrete(ts[j])
  {
    ReadAllAt(sem, ts, mem);
    AllConcreteAt(ts);
    if |ts| == |vs| && forall j :: 0 <= j < |ts| ==> Read(sem, ts[j], mem) == Ok(vs[j]) && Concrete(ts[j]) {
      assert ReadAll(sem, ts, mem).value == vs;
    }
  }

  /** One loop variable between iterations: its value, and where it is.  One that is passed through
      always has a buffer. */
  ghost predicate VarOk(sem: Sem, body: Sub, k: Path, top: Path, s: set<nat>, taint: set<Path>, j: nat, t: Tensor,
      v: Value, mem: Memory, owner: seq<Option<Path>>, n: nat)
  {
    && Read(sem, t, mem) == Ok(v) && Concrete(t)
    && (Realized(sem, t) || (Support(t) == {} && !Invariant(body, j)))
    && AllMade(Support(t), s, owner, k, n)
    && AllTainted(Support(t), owner, top, taint)
  }

  ghost predicate LoopState(sem: Sem, body: Sub, k: Path, top: Path, s: set<nat>, taints: seq<set<Path>>,
      state: seq<Tensor>, vs: seq<Value>, mem: Memory, owner: seq<Option<Path>>, n: nat)
  {
    && |state| == |vs| == |taints|
    && forall j :: 0 <= j < |state| ==> VarOk(sem, body, k, top, s, taints[j], j, state[j], vs[j], mem, owner, n)
  }

  lemma StateHolds(sem: Sem, body: Sub, k: Path, top: Path, s: set<nat>, taints: seq<set<Path>>, state: seq<Tensor>,
      vs: seq<Value>, mem: Memory, owner: seq<Option<Path>>, n: nat)
    requires LoopState(sem, body, k, top, s, taints, state, vs, mem, owner, n)
    ensures Holds(sem, state, mem, vs) && |state| == |vs| == |taints|
    ensures AllTensorsTainted(sem, state, Held(taints), owner, top) && AllMade(SupportAll(state), s, owner, k, n)
  {
    forall j | 0 <= j < |state|
      ensures Read(sem, state[j], mem) == Ok(vs[j]) && Concrete(state[j])
      ensures TensorTainted(sem, state[j], Held(taints)[j], owner, top)
    {
      assert VarOk(sem, body, k, top, s, taints[j], j, state[j], vs[j], mem, owner, n);
      BaseInSupport(sem, state[j]);
    }
    HoldsAt(sem, state, mem, vs);
    forall b | b in SupportAll(state) ensures Made(b, s, owner, k, n) {
      SupportAllAt(state, b);
      var j :| 0 <= j < |state| && b in Support(state[j]);
      assert VarOk(sem, body, k, top, s, taints[j], j, state[j], vs[j], mem, owner, n);
    }
  }

  // -- starting a loop ----------------------------------------------------------------

  /** A tensor, or a new buffer that holds what it holds. */
  ghost predicate Settled(sem: Sem, t: Tensor, r: Tensor, v: Value, mem: Memory, owner: seq<Option<Path>>, n: nat) {
    && Read(sem, r, mem) == Ok(v) && Concrete(r)
    && (r == t || (r.Buf? && n <= r.b < |owner| && owner[r.b].None?))
    && (Realized(sem, r) || Support(r) == {})
  }

  lemma FirstState(sem: Sem, body: Sub, k: Path, top: Path, taints: seq<set<Path>>, args: seq<Tensor>,
      state: seq<Tensor>, vs: seq<Value>, mem: Memory, owner: seq<Option<Path>>, n: nat)
    requires |args| == |state| == |vs| == |taints| && |owner| == |mem.bufs|
    requires forall j :: 0 <= j < |state| ==>
        Settled(sem, args[j], state[j], vs[j], mem, owner, n) && Realized(sem, state[j])
    requires forall j :: 0 <= j < |args| ==> AllTainted(BaseBuf(sem, args[j]), owner, top, taints[j])
    ensures LoopState(sem, body, k, top, SupportAll(args), taints, state, vs, mem, owner, n)
  {
    forall j | 0 <= j < |state| ensures VarOk(sem, body, k, top, SupportAll(args), taints[j], j, state[j], vs[j], mem,
        owner, n) {
      assert Settled(sem, args[j], state[j], vs[j], mem, owner, n);
      ReadBound(sem, state[j], mem);
      RealizedSupport(sem, state[j]);
      assert AllTainted(BaseBuf(sem, args[j]), owner, top, taints[j]);
      forall b | b in Support(state[j]) ensures Made(b, SupportAll(args), owner, k, n) {
        SupportAllAt(args, b);
      }
    }
  }

  // -- the condition --------------------------------------------------------------------

  /** Evaluating the condition leaves the state as it is. */
  lemma SurvivesTest(sem: Sem, body: Sub, k: Path, top: Path, s: set<nat>, taints: seq<set<Path>>, state: seq<Tensor>,
      vs: seq<Value>, mem: Memory, mem': Memory, o: seq<Option<Path>>, o': seq<Option<Path>>, n: nat)
    requires LoopState(sem, body, k, top, s, taints, state, vs, mem, o, n) && top <= k
    requires forall j :: 0 <= j < |taints| ==> Clean(taints[j], k + [0])
    requires Touched(mem.bufs, o, mem'.bufs, o', k + [0]) && mem'.args == mem.args && mem'.sym == mem.sym
    ensures LoopState(sem, body, k, top, s, taints, state, vs, mem', o', n)
  {
    forall j | 0 <= j < |state| ensures VarOk(sem, body, k, top, s, taints[j], j, state[j], vs[j], mem', o', n) {
      assert VarOk(sem, body, k, top, s, taints[j], j, state[j], vs[j], mem, o, n);
      TaintClear(Support(state[j]), o, top, taints[j], k + [0]);
      ClearReads(sem, state[j], mem, mem', o, o', k + [0]);
      MadeLater(Support(state[j]), s, o, o', k, n);
    }
  }

  lemma MadeLater(bs: set<nat>, s: set<nat>, o: seq<Option<Path>>, o': seq<Option<Path>>, k: Path, n: nat)
    requires AllMade(bs, s, o, k, n) && o <= o'
    ensures AllMade(bs, s, o', k, n)
  {
    forall b | b in bs ensures Made(b, s, o', k, n) {
      assert Made(b, s, o, k, n);
    }
  }

  // -- one interpreted iteration ------------------------------------------------------------

  /** What a sub-graph's outputs are read from. */
  ghost predicate OutputsMade(outs: seq<Tensor>, params: seq<Tensor>, owner: seq<Option<Path>>, p: Path, n: nat) {
    forall j :: 0 <= j < |outs| ==> AllMade(Support(outs[j]), SupportAll(params), owner, p, n)
  }

  /** The next state: the body's outputs, each realized. */
  lemma NextState(sem: Sem, body: Sub, k: Path, top: Path, s: set<nat>, taints: seq<set<Path>>, state: seq<Tensor>,
      vs: seq<Value>, next: seq<Value>, mem: Memory, o: seq<Option<Path>>, outs: seq<Tensor>, o1: seq<Option<Path>>,
      settled: seq<Tensor>, mem2: Memory, o2: seq<Option<Path>>, n: nat, n': nat)
    requires LoopState(sem, body, k, top, s, taints, state, vs, mem, o, n) && o <= o1 <= o2 && n <= n' <= |o1|
    requires |outs| == |state| == |settled| == |next| && OutputsMade(outs, state, o1, k + [1], n')
    requires forall j :: 0 <= j < |outs| ==> AllTainted(BaseBuf(sem, outs[j]), o1, top, taints[j])
    requires forall j :: 0 <= j < |outs| && Invariant(body, j) ==> outs[j] == state[j]
    requires forall j :: 0 <= j < |outs| ==> Settled(sem, outs[j], settled[j], next[j], mem2, o2, |o1|)
    requires forall j :: 0 <= j < |outs| && Realized(sem, outs[j]) ==> settled[j] == outs[j]
    ensures LoopState(sem, body, k, top, s, taints, settled, next, mem2, o2, n)
  {
    StateHolds(sem, body, k, top, s, taints, state, vs, mem, o, n);
    forall j | 0 <= j < |settled| ensures VarOk(sem, body, k, top, s, taints[j], j, settled[j], next[j], mem2, o2, n) {
      assert Settled(sem, outs[j], settled[j], next[j], mem2, o2, |o1|);
      assert AllTainted(BaseBuf(sem, outs[j]), o1, top, taints[j]);
      assert VarOk(sem, body, k, top, s, taints[j], j, state[j], vs[j], mem, o, n);
      if settled[j] == outs[j] {
        if Realized(sem, outs[j]) {
          RealizedSupport(sem, outs[j]);
        }
        MadeHere(Support(outs[j]), SupportAll(state), s, o, o1, k, k + [1], n, n');
        MadeLater(Support(outs[j]), s, o1, o2, k, n);
      }
    }
  }

  // -- starting a sub-graph -------------------------------------------------------------------

  lemma {:induction false} LiteralsStart(sem: Sem, blobs: seq<Bytes>, constants: seq<Constant>,
      owner: seq<Option<Path>>, p: Path, s: set<nat>, n: nat)
    requires LiteralTensors(sem, blobs, constants).Ok?
    ensures var env := LiteralTensors(sem, blobs, constants).value;
            && EnvMade(env, s, owner, p, n)
            && forall id :: id in env ==> Support(env[id]) == {}
  {
    if constants != [] {
      LiteralsStart(sem, blobs, constants[..|constants| - 1], owner, p, s, n);
    }
  }

  /** Parameters bring their taints to the ids they are bound to. */
  lemma {:induction false} InputsStart(sem: Sem, inputs: seq<GraphInput>, params: seq<Tensor>, env: TensorEnv,
      owner: seq<Option<Path>>, p: Path, top: Path, taints: seq<Taint>, n: nat)
    requires BindTensors(inputs, params, env).Ok? && AllTensorsTainted(sem, params, taints, owner, top)
    requires AllConcrete(params)
    requires EnvMade(env, SupportAll(params), owner, p, n) && forall id :: id in env ==> Support(env[id]) == {}
    ensures EnvTainted(sem, BindTensors(inputs, params, env).value, StartTaints(inputs, taints), owner, top)
    ensures EnvMade(BindTensors(inputs, params, env).value, SupportAll(params), owner, p, n)
  {
    if inputs == [] {
      forall id | id in env ensures TensorTainted(sem, env[id], CLEAN, owner, top) {
        BaseInSupport(sem, env[id]);
      }
    } else {
      var last := inputs[|inputs| - 1];
      InputsStart(sem, inputs[..|inputs| - 1], params, env, owner, p, top, taints, n);
      var t := params[last.index];
      AllConcreteAt(params);
      assert TensorTainted(sem, t, taints[last.index], owner, top);
      forall b | b in Support(t) ensures Made(b, SupportAll(params), owner, p, n) {
        SupportAllAt(params, b);
        assert b < |owner|;
      }
      var before, m := BindTensors(inputs[..|inputs| - 1], params, env).value,
          StartTaints(inputs[..|inputs| - 1], taints);
      var after, m' := before[last.id := t], StartTaints(inputs, taints);
      forall id | id in after ensures TensorTainted(sem, after[id], TaintAt(m', id), owner, top) {
        if id != last.id { assert TensorTainted(sem, before[id], TaintAt(m, id), owner, top); }
      }
    }
  }

  lemma AllReadAt(sem: Sem, nodes: seq<Node>, outs: seq<nat>, env: TensorEnv, vals: Env, mem: Memory)
    requires Denotes(sem, env, mem, vals)
    ensures LiveReads(sem, nodes, 0, outs, env, vals, mem)
  {
  }

  /** At the end, what is live is the outputs. */
  lemma OutputsRead(sem: Sem, nodes: seq<Node>, outs: seq<nat>, env: TensorEnv, vals: Env, mem: Memory)
    requires LiveReads(sem, nodes, |nodes|, outs, env, vals, mem) && Lookup(vals, outs).Ok?
    ensures Tensors(env, outs).Ok? && ReadAll(sem, Tensors(env, outs).value, mem) == Lookup(vals, outs)
  {
    forall k | 0 <= k < |outs| ensures outs[k] in env && Read(sem, env[outs[k]], mem) == Ok(vals[outs[k]]) {
      assert Live(nodes, |nodes|, outs, outs[k]);
    }
    var ts := Tensors(env, outs).value;
    ReadAllAt(sem, ts, mem);
    assert ReadAll(sem, ts, mem).value == Lookup(vals, outs).value;
  }
}
