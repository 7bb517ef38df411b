/** Tensors as the runtime has them: device buffers, constants, and computations not yet run. */
module LazyTensors {
  import opened Values
  import opened GraphIR

  /** A tensor.  `Arg` is an input of a traced function.  A literal constant has a buffer of its
      own, which nothing writes; a scalar constant is folded and has none. */
  datatype Tensor =
    | Buf(b: nat)
    | Arg(i: nat)
    | Lit(v: Value, realized: bool)
    | Lazy(kernel: Kernel, args: seq<Tensor>)

  /** What a tensor is read against: buffer contents, trace arguments and bound variables. */
  datatype Memory = Memory(bufs: seq<Value>, args: seq<Value>, sym: seq<int>)

  type TensorEnv = map<nat, Tensor>

  function Read(sem: Sem, t: Tensor, mem: Memory): (r: Outcome<Value>)
    ensures !r.Diverged?
    decreases t, 1
  {
    match t
    case Buf(b) => if b < |mem.bufs| then Ok(mem.bufs[b]) else Stuck
    case Arg(i) => if i < |mem.args| then Ok(mem.args[i]) else Stuck
    case Lit(v, _) => Ok(v)
    case Lazy(k, args) => var vs :- ReadAll(sem, args, mem); ApplyKernel(sem, k, vs, mem.sym)
  }

  function ReadAll(sem: Sem, ts: seq<Tensor>, mem: Memory): (r: Outcome<seq<Value>>)
    ensures !r.Diverged?
    ensures r.Ok? ==> |r.value| == |ts|
    decreases ts, 0
  {
    if ts == [] then Ok([])
    else
      var vs :- ReadAll(sem, ts[..|ts| - 1], mem);
      var v :- Read(sem, ts[|ts| - 1], mem);
      Ok(vs + [v])
  }

  lemma {:induction false} ReadAllAt(sem: Sem, ts: seq<Tensor>, mem: Memory)
    ensures ReadAll(sem, ts, mem).Ok? <==> forall i :: 0 <= i < |ts| ==> Read(sem, ts[i], mem).Ok?
    ensures ReadAll(sem, ts, mem).Ok? ==> forall i :: 0 <= i < |ts| ==>
        Read(sem, ts[i], mem) == Ok(ReadAll(sem, ts, mem).value[i])
  {
    if ts != [] {
      ReadAllAt(sem, ts[..|ts| - 1], mem);
    }
  }

  /** The buffers a tensor is read from. */
  function Support(t: Tensor): set<nat>
    decreases t, 1
  {
    match t
    case Buf(b) => {b}
    case Lazy(_, args) => SupportAll(args)
    case _ => {}
  }

  function SupportAll(ts: seq<Tensor>): set<nat>
    decreases ts, 0
  {
    if ts == [] then {} else SupportAll(ts[..|ts| - 1]) + Support(ts[|ts| - 1])
  }

  lemma {:induction false} SupportAllAt(ts: seq<Tensor>, b: nat)
    ensures b in SupportAll(ts) <==> exists i :: 0 <= i < |ts| && b in Support(ts[i])
  {
    if ts != [] {
      SupportAllAt(ts[..|ts| - 1], b);
      if i :| 0 <= i < |ts| && b in Support(ts[i]) {
        assert i < |ts| - 1 ==> b in Support(ts[..|ts| - 1][i]);
      }
    }
  }

  /** A kernel that moves no data: its result is a view of its operand's buffer. */
  predicate IsView(sem: Sem, k: Kernel) {
    match k
    case Op(op, _, _, _) => sem.viewOp(op)
    case Window(wop, _, _, _, _) => wop.Slice?
    case Element(_, _, _) => true
    case _ => false
  }

  /** What holds a realized tensor's data.  Two literals with equal contents count as one buffer. */
  datatype Base = OfBuf(b: nat) | OfArg(i: nat) | OfLit(v: Value)

  function BaseOf(sem: Sem, t: Tensor): Option<Base> {
    match t
    case Buf(b) => Some(OfBuf(b))
    case Arg(i) => Some(OfArg(i))
    case Lit(v, realized) => if realized then Some(OfLit(v)) else None
    case Lazy(k, args) => if IsView(sem, k) && |args| == 1 then BaseOf(sem, args[0]) else None
  }

  predicate Realized(sem: Sem, t: Tensor) {
    BaseOf(sem, t).Some?
  }

  function BaseBuf(sem: Sem, t: Tensor): set<nat> {
    match BaseOf(sem, t)
    case Some(OfBuf(b)) => {b}
    case _ => {}
  }

  /** A realized tensor is read from its base alone. */
  lemma {:induction false} RealizedSupport(sem: Sem, t: Tensor)
    requires Realized(sem, t)
    ensures Support(t) == BaseBuf(sem, t)
  {
    if t.Lazy? {
      RealizedSupport(sem, t.args[0]);
      assert t.args[..0] == [];
      assert SupportAll(t.args[..0]) == {};
    }
  }

  lemma BaseInSupport(sem: Sem, t: Tensor)
    ensures BaseBuf(sem, t) <= Support(t)
  {
    if Realized(sem, t) {
      RealizedSupport(sem, t);
    }
  }

  /** No trace argument anywhere. */
  predicate Concrete(t: Tensor)
    decreases t, 1
  {
    match t
    case Arg(_) => false
    case Lazy(_, args) => AllConcrete(args)
    case _ => true
  }

  predicate AllConcrete(ts: seq<Tensor>)
    decreases ts, 0
  {
    ts == [] || (AllConcrete(ts[..|ts| - 1]) && Concrete(ts[|ts| - 1]))
  }

  lemma {:induction false} AllConcreteAt(ts: seq<Tensor>)
    ensures AllConcrete(ts) <==> forall i :: 0 <= i < |ts| ==> Concrete(ts[i])
  {
    if ts != [] {
      AllConcreteAt(ts[..|ts| - 1]);
    }
  }

  /** Reading depends on the support only. */
  lemma {:induction false} ReadStable(sem: Sem, t: Tensor, mem: Memory, mem': Memory)
    requires mem'.args == mem.args && mem'.sym == mem.sym && |mem.bufs| <= |mem'.bufs|
    requires forall b :: b in Support(t) ==> b < |mem.bufs| && mem'.bufs[b] == mem.bufs[b]
    ensures Read(sem, t, mem') == Read(sem, t, mem)
    decreases t, 1
  {
    if t.Lazy? {
      assert Support(t) == SupportAll(t.args);
      ReadAllStable(sem, t.args, mem, mem');
    }
  }

  lemma {:induction false} ReadAllStable(sem: Sem, ts: seq<Tensor>, mem: Memory, mem': Memory)
    requires mem'.args == mem.args && mem'.sym == mem.sym && |mem.bufs| <= |mem'.bufs|
    requires forall b :: b in SupportAll(ts) ==> b < |mem.bufs| && mem'.bufs[b] == mem.bufs[b]
    ensures ReadAll(sem, ts, mem') == ReadAll(sem, ts, mem)
    decreases ts, 0
  {
    if ts != [] {
      assert SupportAll(ts) == SupportAll(ts[..|ts| - 1]) + Support(ts[|ts| - 1]);
      ReadAllStable(sem, ts[..|ts| - 1], mem, mem');
      ReadStable(sem, ts[|ts| - 1], mem, mem');
    }
  }

  /** A tensor that can be read is read from buffers that exist. */
  lemma {:induction false} ReadBound(sem: Sem, t: Tensor, mem: Memory)
    requires Read(sem, t, mem).Ok?
    ensures forall b :: b in Support(t) ==> b < |mem.bufs|
    decreases t, 1
  {
    if t.Lazy? {
      ReadAllBound(sem, t.args, mem);
    }
  }

  lemma {:induction false} ReadAllBound(sem: Sem, ts: seq<Tensor>, mem: Memory)
    requires ReadAll(sem, ts, mem).Ok?
    ensures forall b :: b in SupportAll(ts) ==> b < |mem.bufs|
    decreases ts, 0
  {
    if ts != [] {
      ReadAllBound(sem, ts[..|ts| - 1], mem);
      ReadBound(sem, ts[|ts| - 1], mem);
    }
  }

  // -- building lazy tensors ----------------------------------------------------

  function Tensors(env: TensorEnv, ids: seq<nat>): (r: Outcome<seq<Tensor>>)
    ensures r.Ok? <==> forall i :: 0 <= i < |ids| ==> ids[i] in env
    ensures r.Ok? ==> |r.value| == |ids| && forall i :: 0 <= i < |ids| ==> r.value[i] == env[ids[i]]
    ensures !r.Diverged?
  {
    if forall i :: 0 <= i < |ids| ==> ids[i] in env
    then Ok(seq(|ids|, i requires 0 <= i < |ids| => env[ids[i]]))
    else Stuck
  }

  /** Dynamic starts are read now, and clamped: what stays lazy is a window at known starts. */
  function FreezeStarts(sem: Sem, k: Kernel, vs: seq<Value>, n: nat): (r: Outcome<seq<Start>>)
    requires k.Window? && |vs| >= FirstStart(k.wop) && n <= |k.starts|
    ensures r.Ok? ==> |r.value| == n
    ensures !r.Diverged?
  {
    if n == 0 then Ok([])
    else
      var before :- FreezeStarts(sem, k, vs, n - 1);
      var s := k.starts[n - 1];
      if s.Input? then
        var at :- ResolveStart(sem, k, vs, [], n - 1);
        Ok(before + [Static(at)])
      else Ok(before + [s])
  }

  predicate HasInputStart(k: Kernel)
    requires k.Window?
  {
    exists i :: 0 <= i < |k.starts| && k.starts[i].Input?
  }

  /** One kernel over tensors: nothing runs, but a dynamic start is read. */
  function LazyKernel(sem: Sem, k: Kernel, args: seq<Tensor>, mem: Memory): (r: Outcome<Tensor>)
    ensures !r.Diverged?
  {
    if k.Window? then
      if |args| < FirstStart(k.wop) then Stuck
      else if HasInputStart(k) then
        var vs :- ReadAll(sem, args, mem);
        var starts :- FreezeStarts(sem, k, vs, |k.starts|);
        Ok(Lazy(k.(starts := starts), args[..FirstStart(k.wop)]))
      else Ok(Lazy(k, args[..FirstStart(k.wop)]))
    else Ok(Lazy(k, args))
  }

  function LiteralTensors(sem: Sem, blobs: seq<Bytes>, constants: seq<Constant>): (r: Outcome<TensorEnv>)
    ensures !r.Diverged?
  {
    if constants == [] then Ok(map[])
    else
      var last := constants[|constants| - 1];
      var env :- LiteralTensors(sem, blobs, constants[..|constants| - 1]);
      var v :- ConstantValue(sem, blobs, last);
      Ok(env[last.id := Lit(v, last.source.Data?)])
  }

  function BindTensors(inputs: seq<GraphInput>, params: seq<Tensor>, env: TensorEnv): (r: Outcome<TensorEnv>)
    ensures !r.Diverged?
  {
    if inputs == [] then Ok(env)
    else
      var last := inputs[|inputs| - 1];
      var env :- BindTensors(inputs[..|inputs| - 1], params, env);
      if last.index < |params| then Ok(env[last.id := params[last.index]]) else Stuck
  }

  /** Node-by-node evaluation of a loop-free node list, over tensors. */
  function LazyNodes(sem: Sem, blobs: seq<Bytes>, nodes: seq<Node>, env: TensorEnv, mem: Memory): Outcome<TensorEnv>
    decreases nodes, 0
  {
    if nodes == [] then Ok(env)
    else
      var last := nodes[|nodes| - 1];
      var env :- LazyNodes(sem, blobs, nodes[..|nodes| - 1], env, mem);
      var args :- Tensors(env, last.inputs);
      if last.While? then Stuck
      else
        var t :- LazyNode(sem, blobs, last, args, mem);
        Ok(env[last.id := t])
  }

  function LazyNode(sem: Sem, blobs: seq<Bytes>, node: Node, args: seq<Tensor>, mem: Memory): Outcome<Tensor>
    requires !node.While?
    decreases node, 2
  {
    match node
    case Compute(_, k, _) => LazyKernel(sem, k, args, mem)
    case Fold(_, op, attrs, _, count, _, spec) =>
      if |args| != 2 then Stuck
      else
        var acc :- LazyFold(sem, blobs, node, args[0], Lazy(FoldInit(op, attrs), args), count, mem);
        Ok(Lazy(FoldFinish(op, attrs, spec), [args[0], acc]))
  }

  function LazyFold(sem: Sem, blobs: seq<Bytes>, node: Node, t: Tensor, init: Tensor, n: nat,
      mem: Memory): Outcome<Tensor>
    requires node.Fold?
    decreases node, 1, n
  {
    if n == 0 then Ok(init)
    else
      var acc :- LazyFold(sem, blobs, node, t, init, n - 1, mem);
      var outs :- LazySub(sem, blobs, node.fn, [acc, Lazy(Element(node.op, node.attrs, n - 1), [t])], mem);
      if outs == [] then Stuck else Ok(outs[0])
  }

  function LazySub(sem: Sem, blobs: seq<Bytes>, sub: Sub, params: seq<Tensor>, mem: Memory): Outcome<seq<Tensor>>
    decreases sub, 0
  {
    var env :- LiteralTensors(sem, blobs, sub.constants);
    var env :- BindTensors(sub.inputs, params, env);
    var env :- LazyNodes(sem, blobs, sub.nodes, env, mem);
    Tensors(env, OutIds(sub.outputs))
  }
}
