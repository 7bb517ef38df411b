/** Declared shapes are the shapes found at run time. */
module Typing {
  import opened Values
  import opened GraphIR

  type Shapes = map<nat, seq<nat>>

  /** The shape every id of a graph declares. */
  function DeclaredShapes(sub: Sub): Shapes {
    NodeShapes(sub.nodes, ConstantShapes(sub.constants, InputShapes(sub.inputs)))
  }

  function InputShapes(inputs: seq<GraphInput>): Shapes {
    if inputs == [] then map[]
    else var last := |inputs| - 1; InputShapes(inputs[..last])[inputs[last].id := inputs[last].spec.shape]
  }

  function ConstantShapes(constants: seq<Constant>, shapes: Shapes): Shapes {
    if constants == [] then shapes
    else var last := |constants| - 1;
        ConstantShapes(constants[..last], shapes)[constants[last].id := constants[last].spec.shape]
  }

  function OutShapes(outs: seq<Out>, shapes: Shapes): Shapes {
    if outs == [] then shapes
    else var last := |outs| - 1; OutShapes(outs[..last], shapes)[outs[last].id := outs[last].spec.shape]
  }

  function NodeShapes(nodes: seq<Node>, shapes: Shapes): Shapes {
    if nodes == [] then shapes
    else
      var last := nodes[|nodes| - 1];
      var before := NodeShapes(nodes[..|nodes| - 1], shapes);
      if last.While? then OutShapes(last.outputs, before) else before[last.id := NodeSpec(last).shape]
  }

  function NodeSpec(node: Node): Spec
    requires !node.While?
  {
    if node.Fold? then node.spec else KernelSpec(node.kernel)
  }

  function KernelSpec(k: Kernel): Spec {
    match k
    case Op(_, _, _, spec) => spec
    case Window(_, _, _, _, spec) => spec
    case FoldFinish(_, _, spec) => spec
    case _ => Spec([], "")
  }

  // -- well-typed graphs ----------------------------------------------------

  /** How many operands decide a kernel's shape: a window's start operands do not. */
  function OperandCount(k: Kernel, n: nat): nat {
    if k.Window? then FirstStart(k.wop) else n
  }

  function Stripped(k: Kernel): Kernel {
    if k.Window? then k.(starts := []) else k
  }

  function ShapesOf(ids: seq<nat>, shapes: Shapes): (s: seq<seq<nat>>)
    requires forall k :: 0 <= k < |ids| ==> ids[k] in shapes
    ensures |s| == |ids| && forall k :: 0 <= k < |ids| ==> s[k] == shapes[ids[k]]
  {
    seq(|ids|, k requires 0 <= k < |ids| => shapes[ids[k]])
  }

  predicate AllIn(ids: seq<nat>, shapes: Shapes) {
    forall k :: 0 <= k < |ids| ==> ids[k] in shapes
  }

  /** A fold's accumulator and elements have these shapes, before its function has run. */
  ghost predicate ElementShapes(sem: Sem, op: string, attrs: Attrs, count: nat, x: seq<nat>, y: seq<nat>,
      acc: seq<nat>, elem: seq<nat>)
  {
    && (forall t, a :: sem.shape(t) == x && sem.shape(a) == y ==>
        sem.shape(sem.apply(FoldInit(op, attrs), [t, a])) == acc)
    && forall t, i: nat :: sem.shape(t) == x && i < count ==>
        sem.shape(sem.apply(Element(op, attrs, i), [t])) == elem
  }

  /** Each node's kernel fits its operands' declared shapes; a loop keeps the shapes of its state; and
      a fold whose function holds loops keeps the shape of its accumulator. */
  ghost predicate TypedNode(sem: Sem, node: Node, shapes: Shapes)
    decreases node, 0
  {
    && AllIn(node.inputs, shapes)
    && match node
       case Compute(id, k, inputs) =>
         var n := OperandCount(k, |inputs|);
         && (k.Op? || k.Window?) && n <= |inputs|
         && sem.fits(Stripped(k), ShapesOf(inputs[..n], shapes))
         && id in shapes && shapes[id] == KernelSpec(k).shape
       case Fold(id, op, attrs, inputs, count, fn, spec) =>
         && |inputs| == 2 && sem.fits(FoldFinish(op, attrs, spec), [shapes[inputs[0]]])
         && id in shapes && shapes[id] == spec.shape
         && (Loops(node) ==> exists acc: seq<nat>, elem: seq<nat> ::
               && ElementShapes(sem, op, attrs, count, shapes[inputs[0]], shapes[inputs[1]], acc, elem)
               && TypedSub(sem, fn, [acc, elem]) && fn.outputs != []
               && fn.outputs[0].id in DeclaredShapes(fn) && DeclaredShapes(fn)[fn.outputs[0].id] == acc)
       case While(inputs, cond, body, outputs) =>
         var s := ShapesOf(inputs, shapes);
         && TypedSub(sem, cond, s) && TypedSub(sem, body, s)
         && AllIn(OutIds(body.outputs), DeclaredShapes(body))
         && ShapesOf(OutIds(body.outputs), DeclaredShapes(body)) == s
         && AllIn(OutIds(outputs), shapes) && ShapesOf(OutIds(outputs), shapes) == s
  }

  ghost predicate TypedNodes(sem: Sem, nodes: seq<Node>, shapes: Shapes)
    decreases nodes, 0
  {
    nodes == [] || (TypedNodes(sem, nodes[..|nodes| - 1], shapes) && TypedNode(sem, nodes[|nodes| - 1], shapes))
  }

  predicate TypedInputs(inputs: seq<GraphInput>, s: seq<seq<nat>>, shapes: Shapes) {
    forall k :: 0 <= k < |inputs| ==>
      inputs[k].index < |s| && inputs[k].spec.shape == s[inputs[k].index] &&
      inputs[k].id in shapes && shapes[inputs[k].id] == inputs[k].spec.shape
  }

  predicate TypedConstants(constants: seq<Constant>, shapes: Shapes) {
    forall k :: 0 <= k < |constants| ==>
      constants[k].id in shapes && shapes[constants[k].id] == constants[k].spec.shape
  }

  ghost predicate TypedSub(sem: Sem, sub: Sub, s: seq<seq<nat>>)
    decreases sub, 0
  {
    var shapes := DeclaredShapes(sub);
    TypedInputs(sub.inputs, s, shapes) && TypedConstants(sub.constants, shapes) && TypedNodes(sem, sub.nodes, shapes)
  }

  // -- shapes at run time ---------------------------------------------------

  function ShapesOfValues(sem: Sem, vs: seq<Value>): (s: seq<seq<nat>>)
    ensures |s| == |vs| && forall k :: 0 <= k < |vs| ==> s[k] == sem.shape(vs[k])
  {
    seq(|vs|, k requires 0 <= k < |vs| => sem.shape(vs[k]))
  }

  /** Nx's shape rules: a kernel that fits its operands gives the shape it declares. */
  ghost predicate ShapeLaw(sem: Sem) {
    && (forall k: Kernel, vs: seq<Value> :: k.Op? && sem.fits(k, ShapesOfValues(sem, vs)) ==>
        sem.shape(sem.apply(k, vs)) == k.spec.shape)
    && (forall k: Kernel, vs: seq<Value>, at: seq<int> :: k.Window? && sem.fits(k, ShapesOfValues(sem, vs)) ==>
        sem.shape(sem.window(k, vs, at)) == k.spec.shape)
    && (forall k: Kernel, t: Value, acc: Value :: k.FoldFinish? && sem.fits(k, [sem.shape(t)]) ==>
        sem.shape(sem.apply(k, [t, acc])) == k.spec.shape)
    && (forall n: Number, spec: Spec :: sem.shape(sem.scalar(n, spec)) == spec.shape)
    && (forall b: Bytes, spec: Spec :: sem.shape(sem.literal(b, spec)) == spec.shape)
  }

  predicate Shaped(sem: Sem, env: Env, shapes: Shapes) {
    forall id :: id in env ==> id in shapes && sem.shape(env[id]) == shapes[id]
  }

  lemma {:induction false} BindShaped(sem: Sem, ids: seq<nat>, vs: seq<Value>, env: Env, shapes: Shapes)
    requires Shaped(sem, env, shapes) && AllIn(ids, shapes) && |vs| <= |ids|
    requires forall k :: 0 <= k < |vs| ==> sem.shape(vs[k]) == shapes[ids[k]]
    ensures Shaped(sem, Bind(ids, vs, env), shapes)
  {
    if ids != [] {
      var last := |ids| - 1;
      if last < |vs| {
        BindPrefix(ids[..last], vs, env);
        BindShaped(sem, ids[..last], vs[..last], env, shapes);
      } else {
        BindShaped(sem, ids[..last], vs, env, shapes);
      }
    }
  }

  lemma ComputeShaped(sem: Sem, k: Kernel, args: seq<Value>, sym: seq<int>)
    requires ShapeLaw(sem) && (k.Op? || k.Window?) && OperandCount(k, |args|) <= |args|
    requires sem.fits(Stripped(k), ShapesOfValues(sem, args[..OperandCount(k, |args|)]))
    ensures var r := ApplyKernel(sem, k, args, sym); r.Ok? ==> sem.shape(r.value) == KernelSpec(k).shape
  {
    if k.Op? {
      assert args[..|args|] == args;
    }
  }

  lemma {:induction false} NodeShaped(sem: Sem, blobs: seq<Bytes>, node: Node, args: seq<Value>, shapes: Shapes,
      sym: seq<int>, fuel: nat)
    requires ShapeLaw(sem) && TypedNode(sem, node, shapes)
    requires ShapesOfValues(sem, args) == ShapesOf(node.inputs, shapes)
    ensures var r := NodeResults(sem, blobs, node, args, sym, fuel);
            r.Ok? ==> |r.value| == |DefinedIds(node)| && AllIn(DefinedIds(node), shapes) &&
                      ShapesOfValues(sem, r.value) == ShapesOf(DefinedIds(node), shapes)
    decreases node, 1
  {
    match node {
      case Compute(id, k, inputs) =>
        var n := OperandCount(k, |inputs|);
        assert ShapesOfValues(sem, args[..n]) == ShapesOf(inputs[..n], shapes);
        ComputeShaped(sem, k, args, sym);
      case Fold(id, op, attrs, inputs, count, fn, spec) =>
      case While(inputs, cond, body, outputs) =>
        LoopShaped(sem, blobs, node, args, fuel, fuel);
    }
  }

  /** A typed loop keeps the shapes of its state. */
  lemma {:induction false} LoopShaped(sem: Sem, blobs: seq<Bytes>, node: Node, state: seq<Value>, left: nat, fuel: nat)
    requires ShapeLaw(sem) && node.While? && var s := ShapesOfValues(sem, state);
             && TypedSub(sem, node.body, s)
             && AllIn(OutIds(node.body.outputs), DeclaredShapes(node.body))
             && ShapesOf(OutIds(node.body.outputs), DeclaredShapes(node.body)) == s
    ensures var r := EvalLoop(sem, blobs, node, state, left, fuel);
            r.Ok? ==> ShapesOfValues(sem, r.value) == ShapesOfValues(sem, state)
    decreases node, 0, left
  {
    if left > 0 {
      var next := EvalSub(sem, blobs, node.body, state, [], fuel);
      if next.Ok? {
        SubShaped(sem, blobs, node.body, state, [], fuel);
        assert ShapesOfValues(sem, next.value) == ShapesOfValues(sem, state);
        LoopShaped(sem, blobs, node, next.value, left - 1, fuel);
      }
    }
  }

  lemma {:induction false} NodesShaped(sem: Sem, blobs: seq<Bytes>, nodes: seq<Node>, env: Env, shapes: Shapes,
      sym: seq<int>, fuel: nat)
    requires ShapeLaw(sem) && TypedNodes(sem, nodes, shapes) && Shaped(sem, env, shapes)
    ensures var r := EvalNodes(sem, blobs, nodes, env, sym, fuel); r.Ok? ==> Shaped(sem, r.value, shapes)
    decreases nodes, 0
  {
    if nodes != [] {
      var node := nodes[|nodes| - 1];
      NodesShaped(sem, blobs, nodes[..|nodes| - 1], env, shapes, sym, fuel);
      var r := EvalNodes(sem, blobs, nodes[..|nodes| - 1], env, sym, fuel);
      if r.Ok? && Lookup(r.value, node.inputs).Ok? {
        var args := Lookup(r.value, node.inputs).value;
        assert ShapesOfValues(sem, args) == ShapesOf(node.inputs, shapes);
        NodeShaped(sem, blobs, node, args, shapes, sym, fuel);
        var results := NodeResults(sem, blobs, node, args, sym, fuel);
        if results.Ok? {
          assert forall k :: 0 <= k < |results.value| ==>
              sem.shape(results.value[k]) == ShapesOf(DefinedIds(node), shapes)[k];
          BindShaped(sem, DefinedIds(node), results.value, r.value, shapes);
        }
      }
    }
  }

  lemma {:induction false} ConstantsShaped(sem: Sem, blobs: seq<Bytes>, constants: seq<Constant>, shapes: Shapes)
    requires ShapeLaw(sem) && TypedConstants(constants, shapes)
    ensures var r := BindConstants(sem, blobs, constants); r.Ok? ==> Shaped(sem, r.value, shapes)
  {
    if constants != [] {
      ConstantsShaped(sem, blobs, constants[..|constants| - 1], shapes);
    }
  }

  lemma {:induction false} InputsShaped(sem: Sem, inputs: seq<GraphInput>, params: seq<Value>, env: Env, shapes: Shapes)
    requires TypedInputs(inputs, ShapesOfValues(sem, params), shapes) && Shaped(sem, env, shapes)
    ensures var r := BindInputs(inputs, params, env); r.Ok? ==> Shaped(sem, r.value, shapes)
  {
    if inputs != [] {
      InputsShaped(sem, inputs[..|inputs| - 1], params, env, shapes);
    }
  }

  lemma {:induction false} InitialShaped(sem: Sem, blobs: seq<Bytes>, sub: Sub, params: seq<Value>)
    requires ShapeLaw(sem) && TypedSub(sem, sub, ShapesOfValues(sem, params))
    ensures var r := InitialEnv(sem, blobs, sub, params); r.Ok? ==> Shaped(sem, r.value, DeclaredShapes(sub))
  {
    var shapes := DeclaredShapes(sub);
    ConstantsShaped(sem, blobs, sub.constants, shapes);
    var env := BindConstants(sem, blobs, sub.constants);
    if env.Ok? {
      InputsShaped(sem, sub.inputs, params, env.value, shapes);
    }
  }

  /** A typed graph on arguments of the right shapes: every output has its declared shape. */
  lemma {:induction false} SubShaped(sem: Sem, blobs: seq<Bytes>, sub: Sub, params: seq<Value>, sym: seq<int>,
      fuel: nat)
    requires ShapeLaw(sem) && TypedSub(sem, sub, ShapesOfValues(sem, params))
    requires AllIn(OutIds(sub.outputs), DeclaredShapes(sub))
    ensures var r := EvalSub(sem, blobs, sub, params, sym, fuel);
            r.Ok? ==> ShapesOfValues(sem, r.value) == ShapesOf(OutIds(sub.outputs), DeclaredShapes(sub))
    decreases sub, 1
  {
    InitialShaped(sem, blobs, sub, params);
    var env := InitialEnv(sem, blobs, sub, params);
    if env.Ok? {
      NodesShaped(sem, blobs, sub.nodes, env.value, DeclaredShapes(sub), sym, fuel);
    }
  }

  /** One output alone. */
  lemma OutputShaped(sem: Sem, blobs: seq<Bytes>, sub: Sub, params: seq<Value>, sym: seq<int>, fuel: nat, j: nat)
    requires ShapeLaw(sem) && TypedSub(sem, sub, ShapesOfValues(sem, params)) && j < |sub.outputs|
    requires sub.outputs[j].id in DeclaredShapes(sub)
    ensures var r := EvalSub(sem, blobs, sub, params, sym, fuel);
            r.Ok? ==> sem.shape(r.value[j]) == DeclaredShapes(sub)[sub.outputs[j].id]
  {
    InitialShaped(sem, blobs, sub, params);
    var env := InitialEnv(sem, blobs, sub, params);
    if env.Ok? {
      NodesShaped(sem, blobs, sub.nodes, env.value, DeclaredShapes(sub), sym, fuel);
    }
  }
}
