/** The tensor graph and its reference meaning: plain node-by-node interpretation. */
module GraphIR {
  import opened Values

  /** A constant is a scalar broadcast to its shape, or bytes in the shared blob list. */
  datatype Source = Scalar(number: Number) | Data(index: nat)

  datatype GraphInput = GraphInput(id: nat, index: nat, spec: Spec)
  datatype Constant = Constant(id: nat, source: Source, spec: Spec)
  datatype Out = Out(id: nat, spec: Spec)

  /** A graph, or the self-contained sub-graph of a loop or fold. */
  datatype Sub = Sub(inputs: seq<GraphInput>, constants: seq<Constant>, nodes: seq<Node>, outputs: seq<Out>)

  /** `count` is the number of elements a fold visits: the product of the folded sizes, which the
      operand's shape fixes. */
  datatype Node =
    | Compute(id: nat, kernel: Kernel, inputs: seq<nat>)
    | Fold(id: nat, op: string, attrs: Attrs, inputs: seq<nat>, count: nat, fn: Sub, spec: Spec)
    | While(inputs: seq<nat>, cond: Sub, body: Sub, outputs: seq<Out>)

  /** A loop, or a fold whose function holds one, at any depth. */
  predicate Loops(node: Node)
    decreases node
  {
    match node
    case Compute(_, _, _) => false
    case Fold(_, _, _, _, _, fn, _) => exists k :: 0 <= k < |fn.nodes| && Loops(fn.nodes[k])
    case While(_, _, _, _) => true
  }

  predicate NoneLoops(nodes: seq<Node>) {
    forall k :: 0 <= k < |nodes| ==> !Loops(nodes[k])
  }

  type Env = map<nat, Value>

  function DefinedIds(node: Node): seq<nat> {
    if node.While? then OutIds(node.outputs) else [node.id]
  }

  function OutIds(outs: seq<Out>): (ids: seq<nat>)
    ensures |ids| == |outs|
    ensures forall k :: 0 <= k < |outs| ==> ids[k] == outs[k].id
  {
    seq(|outs|, k requires 0 <= k < |outs| => outs[k].id)
  }

  // -- one kernel ---------------------------------------------------------

  /** How many operands of a window come before its start operands. */
  function FirstStart(wop: WindowOp): nat {
    if wop.Slice? then 1 else 2
  }

  /** The largest start at which the window still fits on an axis. */
  function Room(sem: Sem, k: Kernel, args: seq<Value>, axis: nat): Outcome<int>
    requires k.Window? && |args| >= FirstStart(k.wop)
  {
    var dims := sem.shape(args[0]);
    var spans := if k.wop.Slice? then k.lengths else sem.shape(args[1]);
    if axis < |dims| && axis < |spans| then
      Ok(dims[axis] as int - spans[axis] as int)
    else Misfit
  }

  /** The start one axis really uses: a slice takes a static start as it is, every other start that
      is not symbolic is clamped. */
  function ResolveStart(sem: Sem, k: Kernel, args: seq<Value>, sym: seq<int>, axis: nat): Outcome<int>
    requires k.Window? && |args| >= FirstStart(k.wop) && axis < |k.starts|
  {
    match k.starts[axis]
    case Static(n) =>
      if k.wop.Slice? then Ok(n)
      else var hi :- Room(sem, k, args, axis); Ok(Clamp(n, hi))
    case Symbolic(v) => if v < |sym| then Ok(sym[v]) else Stuck
    case Input(j) =>
      var hi :- Room(sem, k, args, axis);
      if FirstStart(k.wop) + j < |args| then Ok(Clamp(IntOf(sem.toNumber(args[FirstStart(k.wop) + j])), hi))
      else Stuck
  }

  function ResolveStarts(sem: Sem, k: Kernel, args: seq<Value>, sym: seq<int>, n: nat): (r: Outcome<seq<int>>)
    requires k.Window? && |args| >= FirstStart(k.wop) && n <= |k.starts|
    ensures r.Ok? ==> |r.value| == n
    ensures !r.Diverged?
  {
    if n == 0 then Ok([])
    else
      var before :- ResolveStarts(sem, k, args, sym, n - 1);
      var last :- ResolveStart(sem, k, args, sym, n - 1);
      Ok(before + [last])
  }

  /** What a kernel computes.  Start operands only decide the starts. */
  function ApplyKernel(sem: Sem, k: Kernel, args: seq<Value>, sym: seq<int>): (r: Outcome<Value>)
    ensures !r.Diverged?
  {
    match k
    case Window(wop, _, _, starts, _) =>
      if |args| < FirstStart(wop) then Stuck
      else
        var at :- ResolveStarts(sem, k, args, sym, |starts|);
        Ok(sem.window(k.(starts := []), args[..FirstStart(wop)], at))
    case Copy => if |args| == 1 then Ok(args[0]) else Stuck
    case _ => Ok(sem.apply(k, args))
  }

  predicate NoSymbolicStarts(k: Kernel)
    requires k.Window?
  {
    forall i :: 0 <= i < |k.starts| ==> !k.starts[i].Symbolic?
  }

  lemma {:induction false} StartsIgnoreSym(sem: Sem, k: Kernel, args: seq<Value>, sym: seq<int>, n: nat)
    requires k.Window? && NoSymbolicStarts(k) && |args| >= FirstStart(k.wop) && n <= |k.starts|
    ensures ResolveStarts(sem, k, args, sym, n) == ResolveStarts(sem, k, args, [], n)
  {
    if n > 0 {
      StartsIgnoreSym(sem, k, args, sym, n - 1);
    }
  }

  // -- graphs -------------------------------------------------------------

  function Lookup(env: Env, ids: seq<nat>): (r: Outcome<seq<Value>>)
    ensures !r.Diverged?
    ensures r.Ok? <==> forall i :: 0 <= i < |ids| ==> ids[i] in env
    ensures r.Ok? ==> |r.value| == |ids| && forall i :: 0 <= i < |ids| ==> r.value[i] == env[ids[i]]
  {
    if forall i :: 0 <= i < |ids| ==> ids[i] in env
    then Ok(seq(|ids|, i requires 0 <= i < |ids| => env[ids[i]]))
    else Stuck
  }

  function ConstantValue(sem: Sem, blobs: seq<Bytes>, c: Constant): (r: Outcome<Value>)
    ensures !r.Diverged?
  {
    match c.source
    case Scalar(number) => Ok(sem.scalar(number, c.spec))
    case Data(index) => if index < |blobs| then Ok(sem.literal(blobs[index], c.spec)) else Stuck
  }

  function BindConstants(sem: Sem, blobs: seq<Bytes>, constants: seq<Constant>): (r: Outcome<Env>)
    ensures !r.Diverged?
  {
    if constants == [] then Ok(map[])
    else
      var last := |constants| - 1;
      var env :- BindConstants(sem, blobs, constants[..last]);
      var v :- ConstantValue(sem, blobs, constants[last]);
      Ok(env[constants[last].id := v])
  }

  function BindInputs(inputs: seq<GraphInput>, params: seq<Value>, env: Env): (r: Outcome<Env>)
    ensures !r.Diverged?
  {
    if inputs == [] then Ok(env)
    else
      var last := |inputs| - 1;
      var env :- BindInputs(inputs[..last], params, env);
      if inputs[last].index < |params| then Ok(env[inputs[last].id := params[inputs[last].index]]) else Stuck
  }

  function InitialEnv(sem: Sem, blobs: seq<Bytes>, sub: Sub, params: seq<Value>): (r: Outcome<Env>)
    ensures !r.Diverged?
  {
    var env :- BindConstants(sem, blobs, sub.constants);
    BindInputs(sub.inputs, params, env)
  }

  /** Values, by position, to ids. */
  function Bind(ids: seq<nat>, values: seq<Value>, env: Env): Env {
    if ids == [] then env
    else
      var last := |ids| - 1;
      var env := Bind(ids[..last], values, env);
      if last < |values| then env[ids[last] := values[last]] else env
  }

  function EvalNodes(sem: Sem, blobs: seq<Bytes>, nodes: seq<Node>, env: Env, sym: seq<int>, fuel: nat): Outcome<Env>
    decreases nodes, 0
  {
    if nodes == [] then Ok(env)
    else
      var node := nodes[|nodes| - 1];
      var env :- EvalNodes(sem, blobs, nodes[..|nodes| - 1], env, sym, fuel);
      var args :- Lookup(env, node.inputs);
      var results :- NodeResults(sem, blobs, node, args, sym, fuel);
      Ok(Bind(DefinedIds(node), results, env))
  }

  /** What a node computes from its operands: one value, or a loop's final state. */
  function NodeResults(sem: Sem, blobs: seq<Bytes>, node: Node, args: seq<Value>, sym: seq<int>,
      fuel: nat): (r: Outcome<seq<Value>>)
    ensures r.Ok? && !node.While? ==> |r.value| == 1
    decreases node, 2
  {
    match node
    case Compute(_, kernel, _) =>
      var v :- ApplyKernel(sem, kernel, args, sym);
      Ok([v])
    case Fold(_, op, attrs, _, count, _, spec) =>
      if |args| != 2 then Stuck
      else
        var acc :- EvalFold(sem, blobs, node, args[0], sem.apply(FoldInit(op, attrs), args), count, fuel);
        Ok([sem.apply(FoldFinish(op, attrs, spec), [args[0], acc])])
    case While(_, _, _, _) =>
      EvalLoop(sem, blobs, node, args, fuel, fuel)
  }

  /** The accumulator after the first n elements. */
  function EvalFold(sem: Sem, blobs: seq<Bytes>, node: Node, t: Value, init: Value, n: nat, fuel: nat): Outcome<Value>
    requires node.Fold?
    decreases node, 1, n
  {
    if n == 0 then Ok(init)
    else
      var acc :- EvalFold(sem, blobs, node, t, init, n - 1, fuel);
      var outs :- EvalSub(sem, blobs, node.fn, [acc, sem.apply(Element(node.op, node.attrs, n - 1), [t])], [], fuel);
      if outs == [] then Stuck else Ok(outs[0])
  }

  /** At most `left` more iterations. */
  function EvalLoop(sem: Sem, blobs: seq<Bytes>, node: Node, state: seq<Value>, left: nat,
      fuel: nat): Outcome<seq<Value>>
    requires node.While?
    decreases node, 1, left
  {
    var test :- EvalSub(sem, blobs, node.cond, state, [], fuel);
    if test == [] then Stuck
    else if !sem.truthy(test[0]) then Ok(state)
    else if left == 0 then Diverged
    else
      var next :- EvalSub(sem, blobs, node.body, state, [], fuel);
      EvalLoop(sem, blobs, node, next, left - 1, fuel)
  }

  function EvalSub(sem: Sem, blobs: seq<Bytes>, sub: Sub, params: seq<Value>, sym: seq<int>,
      fuel: nat): (r: Outcome<seq<Value>>)
    ensures r.Ok? ==> |r.value| == |sub.outputs|
    decreases sub, 0
  {
    var env :- InitialEnv(sem, blobs, sub, params);
    var env :- EvalNodes(sem, blobs, sub.nodes, env, sym, fuel);
    Lookup(env, OutIds(sub.outputs))
  }

  // -- composition --------------------------------------------------------

  lemma {:induction false} EvalNodesConcat(sem: Sem, blobs: seq<Bytes>, a: seq<Node>, b: seq<Node>, env: Env,
      sym: seq<int>, fuel: nat)
    ensures EvalNodes(sem, blobs, a + b, env, sym, fuel) ==
            var mid := EvalNodes(sem, blobs, a, env, sym, fuel);
            if mid.Ok? then EvalNodes(sem, blobs, b, mid.value, sym, fuel) else mid
    decreases |b|
  {
    hide NodeResults, Lookup, Bind, DefinedIds;
    if b == [] {
      assert a + b == a;
    } else {
      var last := |b| - 1;
      assert (a + b)[..|a + b| - 1] == a + b[..last] && (a + b)[|a + b| - 1] == b[last];
      EvalNodesConcat(sem, blobs, a, b[..last], env, sym, fuel);
    }
  }

  lemma {:induction false} BindPrefix(ids: seq<nat>, values: seq<Value>, env: Env)
    requires |ids| <= |values|
    ensures Bind(ids, values, env) == Bind(ids, values[..|ids|], env)
  {
    if ids != [] {
      var last := |ids| - 1;
      BindPrefix(ids[..last], values, env);
      BindPrefix(ids[..last], values[..|ids|], env);
      assert values[..|ids|][..last] == values[..last];
    }
  }

  lemma {:induction false} BindOne(ids: seq<nat>, vs: seq<Value>, env: Env)
    requires |ids| == |vs| == 1
    ensures Bind(ids, vs, env) == env[ids[0] := vs[0]]
  {
    assert ids[..0] == [];
    assert Bind(ids[..0], vs, env) == env;
  }
}
