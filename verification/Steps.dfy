/** One captured iteration of a loop on a device. */
module Steps {
  import opened Values
  import opened GraphIR
  import opened Typing
  import opened SymbolicPlan
  import opened SymbolicSound
  import opened LazyTensors
  import opened LazySound
  import opened Devices
  import opened Reentry
  import opened Capture

  lemma {:induction false} AncestorsSimple(nodes: seq<Node>, needed: set<nat>)
    requires AllSimple(nodes)
    ensures AllSimple(Ancestors(nodes, needed).0)
  {
    if nodes != [] {
      var init := nodes[..|nodes| - 1];
      assert forall k :: 0 <= k < |init| ==> init[k] == nodes[k];
      AncestorsSimple(init, needed);
      AncestorsSimple(init, needed + SetOf(nodes[|nodes| - 1].inputs));
    }
  }

  /** Evaluating the ancestors over tensors finds the start values. */
  function AncestorTensors(sem: Sem, blobs: seq<Bytes>, body: Sub, plan: Plan, state: seq<Tensor>,
      mem: Memory): Outcome<TensorEnv>
  {
    var env :- LiteralTensors(sem, blobs, plan.constants);
    var env :- BindTensors(body.inputs, state, env);
    LazyNodes(sem, blobs, plan.ancestors, env, mem)
  }

  lemma AncestorTensorsDenote(sem: Sem, blobs: seq<Bytes>, body: Sub, state: seq<Tensor>, vs: seq<Value>, mem: Memory,
      fuel: nat)
    requires InputsDeclared(body.nodes, DeclaredShapes(body)) && AllSimple(body.nodes)
    requires ReadAll(sem, state, mem) == Ok(vs) && AncestorEnv(sem, blobs, body, PlanOf(body), vs, fuel).Ok?
    ensures var r := AncestorTensors(sem, blobs, body, PlanOf(body), state, mem);
            r.Ok? && Denotes(sem, r.value, mem, AncestorEnv(sem, blobs, body, PlanOf(body), vs, fuel).value)
  {
    var plan := PlanOf(body);
    AncestorsSimple(body.nodes, UseIds(plan.uses));
    SimpleFoldable(plan.ancestors);
    LiteralsDenote(sem, blobs, plan.constants, mem);
    var lits := LiteralTensors(sem, blobs, plan.constants).value;
    InputsDenote(sem, body.inputs, state, vs, lits, BindConstants(sem, blobs, plan.constants).value, mem);
    var env := BindTensors(body.inputs, state, lits).value;
    LazyNodesSound(sem, blobs, plan.ancestors, env, mem, mem,
        BindInputs(body.inputs, vs, BindConstants(sem, blobs, plan.constants).value).value, [], fuel);
  }

  /** The host-side start values: read, then clamped into the variable's range. */
  method BindStarts(sem: Sem, blobs: seq<Bytes>, body: Sub, plan: Plan, state: seq<Tensor>, mem: Memory,
      ghost vs: seq<Value>, ghost fuel: nat) returns (bound: seq<int>)
    requires InputsDeclared(body.nodes, DeclaredShapes(body)) && AllSimple(body.nodes) && plan == PlanOf(body)
    requires ReadAll(sem, state, mem) == Ok(vs) && AncestorEnv(sem, blobs, body, plan, vs, fuel).Ok?
    requires forall k :: 0 <= k < |plan.uses| ==> plan.uses[k].id in AncestorEnv(sem, blobs, body, plan, vs, fuel).value
    ensures bound == BoundValues(sem, plan.uses, AncestorEnv(sem, blobs, body, plan, vs, fuel).value)
    ensures forall k :: 0 <= k < |bound| ==> Nearest(
        IntOf(sem.toNumber(AncestorEnv(sem, blobs, body, plan, vs, fuel).value[plan.uses[k].id])), plan.uses[k].hi,
        bound[k])
  {
    bound := [];
    AncestorTensorsDenote(sem, blobs, body, state, vs, mem, fuel);
    var scratch := AncestorTensors(sem, blobs, body, plan, state, mem).value;
    for k := 0 to |plan.uses|
      invariant |bound| == k
      invariant forall i :: 0 <= i < k ==>
          bound[i] == BoundValues(sem, plan.uses, AncestorEnv(sem, blobs, body, plan, vs, fuel).value)[i]
    {
      var use := plan.uses[k];
      var raw := IntOf(sem.toNumber(Read(sem, scratch[use.id], mem).value));
      bound := bound + [Clamp(raw, use.hi)];
    }
    forall k | 0 <= k < |bound| ensures Nearest(
        IntOf(sem.toNumber(AncestorEnv(sem, blobs, body, plan, vs, fuel).value[plan.uses[k].id])), plan.uses[k].hi,
        bound[k])
    {
      var raw := IntOf(sem.toNumber(AncestorEnv(sem, blobs, body, plan, vs, fuel).value[plan.uses[k].id]));
      ClampNearest(raw, plan.uses[k].hi, bound[k]);
    }
  }

  /** The step's inputs are ready: realized, pairwise in different buffers, reading the loop state,
      and none in a buffer the captured function writes. */
  predicate InputsReady(sem: Sem, inputs: seq<Tensor>, mem: Memory, vs: seq<Value>, owned: set<nat>) {
    && ReadAll(sem, inputs, mem) == Ok(vs)
    && DistinctBases(sem, inputs)
    && SupportAll(inputs) !! owned
  }

  lemma SupportAppend(ts: seq<Tensor>, t: Tensor)
    ensures SupportAll(ts + [t]) == SupportAll(ts) + Support(t)
  {
    assert (ts + [t])[..|ts|] == ts;
  }

  /** Reading survives anything that leaves old buffers alone. */
  lemma ReadAllLater(sem: Sem, ts: seq<Tensor>, mem: Memory, mem': Memory)
    requires ReadAll(sem, ts, mem).Ok? && mem'.args == mem.args && mem'.sym == mem.sym && mem.bufs <= mem'.bufs
    ensures ReadAll(sem, ts, mem') == ReadAll(sem, ts, mem)
  {
    ReadAllBound(sem, ts, mem);
    ReadAllStable(sem, ts, mem, mem');
  }

  lemma ReadLater(sem: Sem, t: Tensor, mem: Memory, mem': Memory)
    requires Read(sem, t, mem).Ok? && mem'.args == mem.args && mem'.sym == mem.sym && mem.bufs <= mem'.bufs
    ensures Read(sem, t, mem') == Read(sem, t, mem)
  {
    ReadBound(sem, t, mem);
    ReadStable(sem, t, mem, mem');
  }

  /** Inputs gathered so far.  Buffers from `n` on are clones; `seen` holds the other bases. */
  predicate Gathered(sem: Sem, inputs: seq<Tensor>, seen: set<Base>, mem: Memory, vs: seq<Value>, owned: set<nat>,
      n: nat)
  {
    && InputsReady(sem, inputs, mem, vs, owned)
    && (forall i :: 0 <= i < |inputs| ==> Counted(BaseOf(sem, inputs[i]), seen, n, |mem.bufs|))
    && (forall s :: s in seen && s.OfBuf? ==> s.b < n)
    && n <= |mem.bufs|
  }

  predicate Counted(base: Option<Base>, seen: set<Base>, n: nat, size: nat) {
    base.Some? && (base.value in seen || (base.value.OfBuf? && n <= base.value.b < size))
  }

  lemma GatherOne(sem: Sem, inputs: seq<Tensor>, seen: set<Base>, mem: Memory, vs: seq<Value>, owned: set<nat>, n: nat,
      t: Tensor, v: Value)
    requires Gathered(sem, inputs, seen, mem, vs, owned, n)
    requires Read(sem, t, mem) == Ok(v) && Realized(sem, t) && Support(t) !! owned
    requires BaseOf(sem, t).value !in seen && (BaseOf(sem, t).value.OfBuf? ==> BaseOf(sem, t).value.b < n)
    ensures Gathered(sem, inputs + [t], seen + {BaseOf(sem, t).value}, mem, vs + [v], owned, n)
  {
    SupportAppend(inputs, t);
    ReadOneMore(sem, inputs, t, mem);
    var more := inputs + [t];
    forall i, j | 0 <= i < j < |more| ensures BaseOf(sem, more[i]) != BaseOf(sem, more[j]) {
      if j == |inputs| {
        assert Counted(BaseOf(sem, inputs[i]), seen, n, |mem.bufs|);
      }
    }
    forall i | 0 <= i < |more| ensures Counted(BaseOf(sem, more[i]), seen + {BaseOf(sem, t).value}, n, |mem.bufs|) {
      if i < |inputs| {
        assert Counted(BaseOf(sem, inputs[i]), seen, n, |mem.bufs|);
      }
    }
  }

  lemma GatherClone(sem: Sem, inputs: seq<Tensor>, seen: set<Base>, mem: Memory, mem': Memory, vs: seq<Value>,
      owned: set<nat>, n: nat, v: Value)
    requires Gathered(sem, inputs, seen, mem, vs, owned, n)
    requires mem' == mem.(bufs := mem.bufs + [v]) && |mem.bufs| !in owned
    ensures Gathered(sem, inputs + [Buf(|mem.bufs|)], seen, mem', vs + [v], owned, n)
  {
    var t := Buf(|mem.bufs|);
    ReadAllLater(sem, inputs, mem, mem');
    SupportAppend(inputs, t);
    ReadOneMore(sem, inputs, t, mem');
    var more := inputs + [t];
    forall i, j | 0 <= i < j < |more| ensures BaseOf(sem, more[i]) != BaseOf(sem, more[j]) {
      if j == |inputs| {
        assert Counted(BaseOf(sem, inputs[i]), seen, n, |mem.bufs|);
      }
    }
    forall i | 0 <= i < |more| ensures Counted(BaseOf(sem, more[i]), seen, n, |mem'.bufs|) {
      if i < |inputs| {
        assert Counted(BaseOf(sem, inputs[i]), seen, n, |mem.bufs|);
      }
    }
  }

  /** A realized tensor that can be read has its base among the existing buffers. */
  lemma BaseExists(sem: Sem, t: Tensor, mem: Memory)
    requires Read(sem, t, mem).Ok? && Realized(sem, t)
    ensures BaseOf(sem, t).value.OfBuf? ==> BaseOf(sem, t).value.b < |mem.bufs|
  {
    RealizedSupport(sem, t);
    ReadBound(sem, t, mem);
  }

  lemma NoneGathered(sem: Sem, mem: Memory, owned: set<nat>)
    ensures Gathered(sem, [], {}, mem, [], owned, |mem.bufs|)
  {
  }

  lemma AllGathered(sem: Sem, inputs: seq<Tensor>, seen: set<Base>, mem: Memory, vs: seq<Value>, owned: set<nat>,
      n: nat)
    requires Gathered(sem, inputs, seen, mem, vs, owned, n)
    ensures InputsReady(sem, inputs, mem, vs, owned)
  {
  }

  lemma OwnedBelow(owner: seq<Option<Path>>, p: Path)
    ensures forall b :: b in OwnedBy(owner, p) ==> b < |owner|
  {
  }

  /** New buffers without an owner leave a function's own as they are. */
  lemma OwnedStays(o0: seq<Option<Path>>, o1: seq<Option<Path>>, p: Path)
    requires o0 <= o1 && forall b :: |o0| <= b < |o1| ==> o1[b] == None
    ensures OwnedBy(o1, p) == OwnedBy(o0, p)
  {
  }

  /** The step's inputs: invariant variables go in as they are, but only once per buffer; every other
      variable, and every repeated buffer, is cloned. */
  method StepInputs(dev: Device, body: Sub, state: seq<Tensor>, ghost vs: seq<Value>, ghost p: Path)
      returns (inputs: seq<Tensor>)
    requires dev.Valid() && ReadAll(dev.sem, state, dev.Mem()) == Ok(vs)
    requires forall j :: 0 <= j < |state| && Invariant(body, j) ==>
               Realized(dev.sem, state[j]) && Support(state[j]) !! OwnedBy(dev.owner, p)
    modifies dev
    ensures dev.OnlyAdds(None)
    ensures InputsReady(dev.sem, inputs, dev.Mem(), vs, OwnedBy(dev.owner, p)) && |inputs| == |state|
  {
    hide ReadAll, Read, Support, SupportAll, DistinctBases, BaseOf, Counted, Invariant, InputsReady, Gathered, OwnedBy;
    inputs := [];
    var seen: set<Base> := {};
    NoneGathered(dev.sem, dev.Mem(), OwnedBy(dev.owner, p));
    OwnedBelow(dev.owner, p);
    ghost var mem0, owned, owner0 := dev.Mem(), OwnedBy(dev.owner, p), dev.owner;
    assert vs[..0] == [];
    for j := 0 to |state|
      invariant dev.OnlyAdds(None) && |inputs| == j
      invariant Gathered(dev.sem, inputs, seen, dev.Mem(), vs[..j], owned, |mem0.bufs|)
    {
      var t := state[j];
      ReadAllAt(dev.sem, state, mem0);
      ReadLater(dev.sem, t, mem0, dev.Mem());
      assert vs[..j + 1] == vs[..j] + [vs[j]];
      ghost var before := dev.Mem();
      if Invariant(body, j) && BaseOf(dev.sem, t).value !in seen {
        BaseExists(dev.sem, t, mem0);
        GatherOne(dev.sem, inputs, seen, before, vs[..j], owned, |mem0.bufs|, t, vs[j]);
        seen := seen + {BaseOf(dev.sem, t).value};
        inputs := inputs + [t];
      } else {
        t := dev.Clone(t);
        assert dev.Mem() == before.(bufs := before.bufs + [vs[j]]);
        GatherClone(dev.sem, inputs, seen, before, dev.Mem(), vs[..j], owned, |mem0.bufs|, vs[j]);
        inputs := inputs + [t];
      }
    }
    assert vs[..|state|] == vs;
    OwnedStays(owner0, dev.owner, p);
    AllGathered(dev.sem, inputs, seen, dev.Mem(), vs, owned, |mem0.bufs|);
  }
}
