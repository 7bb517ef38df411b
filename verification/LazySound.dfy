/** Lazy evaluation denotes what node-by-node evaluation computes: now if it reads runtime scalars,
    and under any later memory, arguments and variables if it reads none. */
module LazySound {
  import opened Values
  import opened GraphIR
  import opened LazyTensors

  // -- which nodes --------------------------------------------------------------

  /** No loop, and no symbolic start, at any depth. */
  predicate Simple(node: Node)
    decreases node
  {
    match node
    case Compute(_, k, _) => k.Window? ==> NoSymbolicStarts(k)
    case Fold(_, _, _, _, _, fn, _) => forall k :: 0 <= k < |fn.nodes| ==> Simple(fn.nodes[k])
    case While(_, _, _, _) => false
  }

  /** A node that can be evaluated lazily; only its own starts may be symbolic. */
  predicate Foldable(node: Node) {
    !node.While? && (node.Fold? ==> Simple(node))
  }

  /** No runtime scalar is read, at any depth. */
  predicate StaticNode(node: Node)
    decreases node
  {
    match node
    case Compute(_, k, _) => k.Window? ==> !HasInputStart(k)
    case Fold(_, _, _, _, _, fn, _) => forall k :: 0 <= k < |fn.nodes| ==> StaticNode(fn.nodes[k])
    case While(_, _, _, _) => true
  }

  predicate AllFoldable(nodes: seq<Node>) {
    forall k :: 0 <= k < |nodes| ==> Foldable(nodes[k])
  }

  predicate AllSimple(nodes: seq<Node>) {
    forall k :: 0 <= k < |nodes| ==> Simple(nodes[k])
  }

  lemma SimpleFoldable(nodes: seq<Node>)
    requires forall k :: 0 <= k < |nodes| ==> Simple(nodes[k])
    ensures AllSimple(nodes) && AllFoldable(nodes)
  {
  }

  predicate AllStatic(nodes: seq<Node>) {
    forall k :: 0 <= k < |nodes| ==> StaticNode(nodes[k])
  }

  ghost predicate Denotes(sem: Sem, env: TensorEnv, mem: Memory, vals: Env) {
    forall id :: id in vals ==> id in env && Read(sem, env[id], mem) == Ok(vals[id])
  }

  // -- kernels ------------------------------------------------------------------

  lemma RoomPrefix(sem: Sem, k: Kernel, k': Kernel, vs: seq<Value>, axis: nat)
    requires k.Window? && |vs| >= FirstStart(k.wop) && k'.Window? && k' == k.(starts := k'.starts)
    ensures Room(sem, k', vs[..FirstStart(k.wop)], axis) == Room(sem, k, vs, axis)
  {
  }

  /** A frozen window finds the starts it was frozen at. */
  lemma {:induction false} FrozenStarts(sem: Sem, k: Kernel, k': Kernel, vs: seq<Value>, sym: seq<int>, n: nat)
    requires k.Window? && |vs| >= FirstStart(k.wop) && n <= |k.starts| && ResolveStarts(sem, k, vs, sym, n).Ok?
    requires FreezeStarts(sem, k, vs, n).Ok?
    requires k'.Window? && k' == k.(starts := k'.starts) && n <= |k'.starts|
    requires k'.starts[..n] == FreezeStarts(sem, k, vs, n).value
    ensures ResolveStarts(sem, k', vs[..FirstStart(k.wop)], sym, n) == ResolveStarts(sem, k, vs, sym, n)
    decreases n
  {
    if n > 0 {
      var before := FreezeStarts(sem, k, vs, n - 1).value;
      assert k'.starts[..n - 1] == k'.starts[..n][..n - 1] == before;
      assert k'.starts[n - 1] == k'.starts[..n][n - 1];
      FrozenStarts(sem, k, k', vs, sym, n - 1);
      RoomPrefix(sem, k, k', vs, n - 1);
    }
  }

  lemma {:induction false} FreezeOk(sem: Sem, k: Kernel, vs: seq<Value>, sym: seq<int>, n: nat)
    requires k.Window? && |vs| >= FirstStart(k.wop) && n <= |k.starts| && ResolveStarts(sem, k, vs, sym, n).Ok?
    ensures FreezeStarts(sem, k, vs, n).Ok?
  {
    if n > 0 {
      FreezeOk(sem, k, vs, sym, n - 1);
    }
  }

  /** Start operands that no start names can be dropped. */
  lemma {:induction false} StaticStarts(sem: Sem, k: Kernel, vs: seq<Value>, sym: seq<int>, n: nat)
    requires k.Window? && |vs| >= FirstStart(k.wop) && n <= |k.starts| && !HasInputStart(k)
    ensures ResolveStarts(sem, k, vs[..FirstStart(k.wop)], sym, n) == ResolveStarts(sem, k, vs, sym, n)
  {
    if n > 0 {
      StaticStarts(sem, k, vs, sym, n - 1);
      RoomPrefix(sem, k, k, vs, n - 1);
      assert !k.starts[n - 1].Input?;
    }
  }

  lemma {:induction false} ReadAllPrefix(sem: Sem, ts: seq<Tensor>, mem: Memory, n: nat)
    requires n <= |ts| && ReadAll(sem, ts, mem).Ok?
    ensures ReadAll(sem, ts[..n], mem) == Ok(ReadAll(sem, ts, mem).value[..n])
  {
    if n == |ts| {
      assert ts[..n] == ts;
      assert ReadAll(sem, ts, mem).value[..n] == ReadAll(sem, ts, mem).value;
    } else {
      assert ts[..|ts| - 1][..n] == ts[..n];
      ReadAllPrefix(sem, ts[..|ts| - 1], mem, n);
      assert ReadAll(sem, ts, mem).value[..n] == ReadAll(sem, ts[..|ts| - 1], mem).value[..n];
    }
  }

  /** A kernel's lazy result reads as the kernel's value. */
  lemma KernelSound(sem: Sem, k: Kernel, args: seq<Tensor>, mem: Memory, mem': Memory, vs: seq<Value>)
    requires ReadAll(sem, args, mem') == Ok(vs) && ApplyKernel(sem, k, vs, mem'.sym).Ok?
    requires mem == mem' || !k.Window? || !HasInputStart(k)
    ensures var r := LazyKernel(sem, k, args, mem);
            r.Ok? && Read(sem, r.value, mem') == ApplyKernel(sem, k, vs, mem'.sym)
  {
    if k.Window? {
      var first := FirstStart(k.wop);
      ReadAllPrefix(sem, args, mem', first);
      assert vs[..first][..first] == vs[..first];
      if HasInputStart(k) {
        FreezeOk(sem, k, vs, mem'.sym, |k.starts|);
        var starts := FreezeStarts(sem, k, vs, |k.starts|).value;
        var k' := k.(starts := starts);
        assert k'.starts[..|k.starts|] == starts;
        FrozenStarts(sem, k, k', vs, mem'.sym, |k.starts|);
        assert k'.(starts := []) == k.(starts := []);
      } else {
        StaticStarts(sem, k, vs, mem'.sym, |k.starts|);
      }
    }
  }

  lemma ReadTwo(sem: Sem, a: Tensor, b: Tensor, mem: Memory)
    requires Read(sem, a, mem).Ok? && Read(sem, b, mem).Ok?
    ensures ReadAll(sem, [a, b], mem) == Ok([Read(sem, a, mem).value, Read(sem, b, mem).value])
  {
    var ts := [a, b];
    assert ts[..1] == [a] && ts[..1][..0] == [];
    assert ReadAll(sem, ts[..1], mem) == Ok([] + [Read(sem, a, mem).value]);
    assert [] + [Read(sem, a, mem).value] + [Read(sem, b, mem).value] ==
        [Read(sem, a, mem).value, Read(sem, b, mem).value];
  }

  lemma ReadOne(sem: Sem, a: Tensor, mem: Memory)
    requires Read(sem, a, mem).Ok?
    ensures ReadAll(sem, [a], mem) == Ok([Read(sem, a, mem).value])
  {
    var ts := [a];
    assert ts[..0] == [];
    assert ReadAll(sem, ts[..0], mem) == Ok([]);
    assert [] + [Read(sem, a, mem).value] == [Read(sem, a, mem).value];
  }

  // -- nodes --------------------------------------------------------------------

  lemma {:induction false} LazyNodeSound(sem: Sem, blobs: seq<Bytes>, node: Node, args: seq<Tensor>, mem: Memory,
      mem': Memory, vs: seq<Value>, fuel: nat)
    requires Foldable(node) && (mem == mem' || StaticNode(node)) && ReadAll(sem, args, mem') == Ok(vs)
    requires NodeResults(sem, blobs, node, vs, mem'.sym, fuel).Ok?
    ensures var r := LazyNode(sem, blobs, node, args, mem);
            r.Ok? && Read(sem, r.value, mem') == Ok(NodeResults(sem, blobs, node, vs, mem'.sym, fuel).value[0])
    decreases node, 2
  {
    if node.Compute? {
      KernelSound(sem, node.kernel, args, mem, mem', vs);
    } else {
      ReadAllAt(sem, args, mem');
      var init := Lazy(FoldInit(node.op, node.attrs), args);
      assert Read(sem, init, mem') == Ok(sem.apply(init.kernel, vs));
      LazyFoldSound(sem, blobs, node, args[0], init, node.count, mem, mem', vs[0], sem.apply(init.kernel, vs), fuel);
      var acc := LazyFold(sem, blobs, node, args[0], init, node.count, mem).value;
      ReadTwo(sem, args[0], acc, mem');
    }
  }

  lemma {:induction false} LazyFoldSound(sem: Sem, blobs: seq<Bytes>, node: Node, t: Tensor, init: Tensor, n: nat,
      mem: Memory, mem': Memory, tv: Value, iv: Value, fuel: nat)
    requires node.Fold? && Simple(node) && (mem == mem' || StaticNode(node))
    requires Read(sem, t, mem') == Ok(tv) && Read(sem, init, mem') == Ok(iv)
    requires EvalFold(sem, blobs, node, tv, iv, n, fuel).Ok?
    ensures var r := LazyFold(sem, blobs, node, t, init, n, mem);
            r.Ok? && Read(sem, r.value, mem') == EvalFold(sem, blobs, node, tv, iv, n, fuel)
    decreases node, 1, n
  {
    if n > 0 {
      LazyFoldSound(sem, blobs, node, t, init, n - 1, mem, mem', tv, iv, fuel);
      var acc := LazyFold(sem, blobs, node, t, init, n - 1, mem).value;
      var av := EvalFold(sem, blobs, node, tv, iv, n - 1, fuel).value;
      var e := Lazy(Element(node.op, node.attrs, n - 1), [t]);
      var ev := sem.apply(Element(node.op, node.attrs, n - 1), [tv]);
      ReadOne(sem, t, mem');
      ReadTwo(sem, acc, e, mem');
      LazySubSound(sem, blobs, node.fn, [acc, e], mem, mem', [av, ev], [], fuel);
      ReadAllAt(sem, LazySub(sem, blobs, node.fn, [acc, e], mem).value, mem');
    }
  }

  lemma {:induction false} LiteralsDenote(sem: Sem, blobs: seq<Bytes>, constants: seq<Constant>, mem: Memory)
    requires BindConstants(sem, blobs, constants).Ok?
    ensures var r := LiteralTensors(sem, blobs, constants);
            r.Ok? && Denotes(sem, r.value, mem, BindConstants(sem, blobs, constants).value)
  {
    if constants != [] {
      LiteralsDenote(sem, blobs, constants[..|constants| - 1], mem);
    }
  }

  lemma {:induction false} InputsDenote(sem: Sem, inputs: seq<GraphInput>, params: seq<Tensor>, vs: seq<Value>,
      env: TensorEnv, vals: Env, mem: Memory)
    requires Denotes(sem, env, mem, vals) && BindInputs(inputs, vs, vals).Ok? && ReadAll(sem, params, mem) == Ok(vs)
    ensures var r := BindTensors(inputs, params, env);
            r.Ok? && Denotes(sem, r.value, mem, BindInputs(inputs, vs, vals).value)
  {
    if inputs != [] {
      InputsDenote(sem, inputs[..|inputs| - 1], params, vs, env, vals, mem);
      ReadAllAt(sem, params, mem);
    }
  }

  lemma TensorsDenote(sem: Sem, env: TensorEnv, vals: Env, ids: seq<nat>, mem: Memory)
    requires Denotes(sem, env, mem, vals) && Lookup(vals, ids).Ok?
    ensures Tensors(env, ids).Ok? && ReadAll(sem, Tensors(env, ids).value, mem) == Lookup(vals, ids)
  {
    var ts := Tensors(env, ids).value;
    ReadAllAt(sem, ts, mem);
    assert ReadAll(sem, ts, mem).value == Lookup(vals, ids).value;
  }

  /** A whole loop-free sub-graph. */
  lemma {:induction false} LazySubSound(sem: Sem, blobs: seq<Bytes>, sub: Sub, params: seq<Tensor>, mem: Memory,
      mem': Memory, vs: seq<Value>, sym: seq<int>, fuel: nat)
    requires AllFoldable(sub.nodes) && (mem == mem' || AllStatic(sub.nodes))
    requires (sym == mem'.sym || AllSimple(sub.nodes))
    requires ReadAll(sem, params, mem') == Ok(vs) && EvalSub(sem, blobs, sub, vs, sym, fuel).Ok?
    ensures var r := LazySub(sem, blobs, sub, params, mem);
            r.Ok? && ReadAll(sem, r.value, mem') == EvalSub(sem, blobs, sub, vs, sym, fuel)
    decreases sub, 0
  {
    LiteralsDenote(sem, blobs, sub.constants, mem');
    var lits := LiteralTensors(sem, blobs, sub.constants).value;
    InputsDenote(sem, sub.inputs, params, vs, lits, BindConstants(sem, blobs, sub.constants).value, mem');
    var env := BindTensors(sub.inputs, params, lits).value;
    var vals := InitialEnv(sem, blobs, sub, vs).value;
    LazyNodesSound(sem, blobs, sub.nodes, env, mem, mem', vals, sym, fuel);
    TensorsDenote(sem, LazyNodes(sem, blobs, sub.nodes, env, mem).value,
        EvalNodes(sem, blobs, sub.nodes, vals, sym, fuel).value, OutIds(sub.outputs), mem');
  }

  lemma {:induction false} LazyNodesSound(sem: Sem, blobs: seq<Bytes>, nodes: seq<Node>, env: TensorEnv, mem: Memory,
      mem': Memory, vals: Env, sym: seq<int>, fuel: nat)
    requires AllFoldable(nodes) && (mem == mem' || AllStatic(nodes)) && (sym == mem'.sym || AllSimple(nodes))
    requires Denotes(sem, env, mem', vals) && EvalNodes(sem, blobs, nodes, vals, sym, fuel).Ok?
    ensures var r := LazyNodes(sem, blobs, nodes, env, mem);
            r.Ok? && Denotes(sem, r.value, mem', EvalNodes(sem, blobs, nodes, vals, sym, fuel).value)
    decreases nodes, 0
  {
    if nodes != [] {
      var last := nodes[|nodes| - 1];
      var init := nodes[..|nodes| - 1];
      LazyNodesSound(sem, blobs, init, env, mem, mem', vals, sym, fuel);
      var env1 := LazyNodes(sem, blobs, init, env, mem).value;
      var vals1 := EvalNodes(sem, blobs, init, vals, sym, fuel).value;
      TensorsDenote(sem, env1, vals1, last.inputs, mem');
      var args := Tensors(env1, last.inputs).value;
      var vs := Lookup(vals1, last.inputs).value;
      assert Foldable(last) && (mem == mem' || StaticNode(last)) && (sym == mem'.sym || Simple(last));
      NodeIgnoresSym(sem, blobs, last, vs, sym, mem'.sym, fuel);
      var rs := NodeResults(sem, blobs, last, vs, sym, fuel).value;
      LazyNodeSound(sem, blobs, last, args, mem, mem', vs, fuel);
      assert |rs| == 1 && DefinedIds(last) == [last.id];
      BindOne(DefinedIds(last), rs, vals1);
    }
  }

  lemma NodeIgnoresSym(sem: Sem, blobs: seq<Bytes>, node: Node, vs: seq<Value>, sym: seq<int>, sym': seq<int>,
      fuel: nat)
    requires Foldable(node) && (sym == sym' || Simple(node))
    ensures NodeResults(sem, blobs, node, vs, sym, fuel) == NodeResults(sem, blobs, node, vs, sym', fuel)
  {
    if node.Compute? && node.kernel.Window? && sym != sym' && |vs| >= FirstStart(node.kernel.wop) {
      StartsIgnoreSym(sem, node.kernel, vs, sym, |node.kernel.starts|);
      StartsIgnoreSym(sem, node.kernel, vs, sym', |node.kernel.starts|);
    }
  }

  // -- what a lazy result is read from ----------------------------------------------

  lemma {:induction false} SupportPrefix(ts: seq<Tensor>, n: nat)
    requires n <= |ts|
    ensures SupportAll(ts[..n]) <= SupportAll(ts)
    ensures AllConcrete(ts) ==> AllConcrete(ts[..n])
  {
    if n == |ts| {
      assert ts[..n] == ts;
    } else {
      assert ts[..|ts| - 1][..n] == ts[..n];
      SupportPrefix(ts[..|ts| - 1], n);
    }
  }

  lemma SupportTwo(a: Tensor, b: Tensor)
    ensures SupportAll([a]) == Support(a) && SupportAll([a, b]) == Support(a) + Support(b)
    ensures AllConcrete([a]) == Concrete(a) && AllConcrete([a, b]) == (Concrete(a) && Concrete(b))
  {
    assert [a][..0] == [] && [a, b][..1] == [a];
    assert SupportAll([a]) == SupportAll([a][..0]) + Support(a);
    assert AllConcrete([a]) == (AllConcrete([a][..0]) && Concrete(a));
  }

  lemma {:induction false} LazyNodeMadeOf(sem: Sem, blobs: seq<Bytes>, node: Node, args: seq<Tensor>, mem: Memory)
    requires !node.While? && LazyNode(sem, blobs, node, args, mem).Ok?
    ensures Support(LazyNode(sem, blobs, node, args, mem).value) <= SupportAll(args)
    ensures AllConcrete(args) ==> Concrete(LazyNode(sem, blobs, node, args, mem).value)
    decreases node, 2
  {
    if node.Compute? {
      if node.kernel.Window? {
        SupportPrefix(args, FirstStart(node.kernel.wop));
      }
    } else {
      var init := Lazy(FoldInit(node.op, node.attrs), args);
      assert args == [args[0], args[1]];
      SupportTwo(args[0], args[1]);
      LazyFoldMadeOf(sem, blobs, node, args[0], init, node.count, mem);
      SupportTwo(args[0], LazyFold(sem, blobs, node, args[0], init, node.count, mem).value);
    }
  }

  lemma {:induction false} LazyFoldMadeOf(sem: Sem, blobs: seq<Bytes>, node: Node, t: Tensor, init: Tensor, n: nat,
      mem: Memory)
    requires node.Fold? && LazyFold(sem, blobs, node, t, init, n, mem).Ok?
    ensures Support(LazyFold(sem, blobs, node, t, init, n, mem).value) <= Support(t) + Support(init)
    ensures Concrete(t) && Concrete(init) ==> Concrete(LazyFold(sem, blobs, node, t, init, n, mem).value)
    decreases node, 1, n
  {
    if n > 0 {
      LazyFoldMadeOf(sem, blobs, node, t, init, n - 1, mem);
      var acc := LazyFold(sem, blobs, node, t, init, n - 1, mem).value;
      var e := Lazy(Element(node.op, node.attrs, n - 1), [t]);
      SupportTwo(t, t);
      SupportTwo(acc, e);
      LazySubMadeOf(sem, blobs, node.fn, [acc, e], mem);
      AllMadeOfAt(LazySub(sem, blobs, node.fn, [acc, e], mem).value, 0);
    }
  }

  lemma {:induction false} AllMadeOfAt(ts: seq<Tensor>, i: nat)
    requires i < |ts|
    ensures Support(ts[i]) <= SupportAll(ts)
    ensures AllConcrete(ts) ==> Concrete(ts[i])
  {
    if i < |ts| - 1 {
      AllMadeOfAt(ts[..|ts| - 1], i);
    }
  }

  predicate EnvMadeOf(env: TensorEnv, s: set<nat>, concrete: bool) {
    forall id :: id in env ==> Support(env[id]) <= s && (concrete ==> Concrete(env[id]))
  }

  lemma {:induction false} LiteralsMadeOf(sem: Sem, blobs: seq<Bytes>, constants: seq<Constant>, s: set<nat>,
      concrete: bool)
    requires LiteralTensors(sem, blobs, constants).Ok?
    ensures EnvMadeOf(LiteralTensors(sem, blobs, constants).value, s, concrete)
  {
    if constants != [] {
      LiteralsMadeOf(sem, blobs, constants[..|constants| - 1], s, concrete);
    }
  }

  lemma {:induction false} BindMadeOf(inputs: seq<GraphInput>, params: seq<Tensor>, env: TensorEnv, s: set<nat>,
      concrete: bool)
    requires BindTensors(inputs, params, env).Ok? && EnvMadeOf(env, s, concrete)
    requires SupportAll(params) <= s && (concrete ==> AllConcrete(params))
    ensures EnvMadeOf(BindTensors(inputs, params, env).value, s, concrete)
  {
    if inputs != [] {
      BindMadeOf(inputs[..|inputs| - 1], params, env, s, concrete);
      AllMadeOfAt(params, inputs[|inputs| - 1].index);
    }
  }

  lemma {:induction false} TensorsMadeOf(env: TensorEnv, ids: seq<nat>, s: set<nat>, concrete: bool)
    requires EnvMadeOf(env, s, concrete) && Tensors(env, ids).Ok?
    ensures SupportAll(Tensors(env, ids).value) <= s
    ensures concrete ==> AllConcrete(Tensors(env, ids).value)
  {
    var ts := Tensors(env, ids).value;
    forall b | b in SupportAll(ts) ensures b in s {
      SupportAllAt(ts, b);
    }
    AllConcreteAt(ts);
  }

  lemma {:induction false} LazySubMadeOf(sem: Sem, blobs: seq<Bytes>, sub: Sub, params: seq<Tensor>, mem: Memory)
    requires LazySub(sem, blobs, sub, params, mem).Ok?
    ensures SupportAll(LazySub(sem, blobs, sub, params, mem).value) <= SupportAll(params)
    ensures AllConcrete(params) ==> AllConcrete(LazySub(sem, blobs, sub, params, mem).value)
    decreases sub, 0
  {
    var s, c := SupportAll(params), AllConcrete(params);
    LiteralsMadeOf(sem, blobs, sub.constants, s, c);
    var lits := LiteralTensors(sem, blobs, sub.constants).value;
    BindMadeOf(sub.inputs, params, lits, s, c);
    var env := BindTensors(sub.inputs, params, lits).value;
    LazyNodesMadeOf(sem, blobs, sub.nodes, env, mem, s, c);
    TensorsMadeOf(LazyNodes(sem, blobs, sub.nodes, env, mem).value, OutIds(sub.outputs), s, c);
  }

  lemma {:induction false} LazyNodesMadeOf(sem: Sem, blobs: seq<Bytes>, nodes: seq<Node>, env: TensorEnv, mem: Memory,
      s: set<nat>, concrete: bool)
    requires LazyNodes(sem, blobs, nodes, env, mem).Ok? && EnvMadeOf(env, s, concrete)
    ensures EnvMadeOf(LazyNodes(sem, blobs, nodes, env, mem).value, s, concrete)
    decreases nodes, 0
  {
    if nodes != [] {
      var last := nodes[|nodes| - 1];
      var init := nodes[..|nodes| - 1];
      LazyNodesMadeOf(sem, blobs, init, env, mem, s, concrete);
      var env1 := LazyNodes(sem, blobs, init, env, mem).value;
      var args := Tensors(env1, last.inputs).value;
      TensorsMadeOf(env1, last.inputs, s, concrete);
      LazyNodeMadeOf(sem, blobs, last, args, mem);
    }
  }
}
