/** A graph captured whole keeps the window starts that its inputs had when it was captured.  When a
    later call is right all the same. */
module Frozen {
  import opened Values
  import opened GraphIR
  import opened LazyTensors
  import opened LazySound
  import opened Capture

  /** Outputs leave the graph contiguous, or cloned when they already are: always by a kernel. */
  function Copies(sem: Sem, ts: seq<Tensor>): (r: seq<Tensor>)
    ensures |r| == |ts| && forall j :: 0 <= j < |r| ==> r[j] == Lazy(Copy, [ts[j]]) && !Realized(sem, r[j])
  {
    seq(|ts|, j requires 0 <= j < |ts| => Lazy(Copy, [ts[j]]))
  }

  /** The trace of a graph run on these inputs.  A start that is read while tracing, in a fold's
      function, is the one that these inputs give. */
  function GraphTrace(sem: Sem, blobs: seq<Bytes>, graph: Sub, was: seq<Value>): (r: Outcome<seq<Tensor>>)
    ensures r.Ok? ==> forall j :: 0 <= j < |r.value| ==> !Realized(sem, r.value[j])
  {
    var outs :- LazySub(sem, blobs, graph, ArgList(|graph.inputs|), Memory([], was, []));
    Ok(Copies(sem, outs))
  }

  lemma CopiesRead(sem: Sem, ts: seq<Tensor>, mem: Memory, vs: seq<Value>)
    requires ReadAll(sem, ts, mem) == Ok(vs)
    ensures ReadAll(sem, Copies(sem, ts), mem) == Ok(vs)
  {
    ReadAllAt(sem, ts, mem);
    ReadAllAt(sem, Copies(sem, ts), mem);
    forall j | 0 <= j < |ts| ensures Read(sem, Copies(sem, ts)[j], mem) == Ok(vs[j]) {
      ReadOne(sem, ts[j], mem);
    }
    assert ReadAll(sem, Copies(sem, ts), mem).value == vs;
  }

  /** Run on the inputs it was traced with, a trace gives the graph's values. */
  lemma OwnTrace(sem: Sem, blobs: seq<Bytes>, graph: Sub, vs: seq<Value>, next: seq<Value>, fuel: nat)
    requires AllSimple(graph.nodes) && |vs| == |graph.inputs| && EvalSub(sem, blobs, graph, vs, [], fuel) == Ok(next)
    ensures var r := GraphTrace(sem, blobs, graph, vs); r.Ok? && ReadAll(sem, r.value, Memory([], vs, [])) == Ok(next)
  {
    SimpleFoldable(graph.nodes);
    var mem := Memory([], vs, []);
    ReadArgs(sem, |vs|, vs, []);
    LazySubSound(sem, blobs, graph, ArgList(|vs|), mem, mem, vs, [], fuel);
    CopiesRead(sem, LazySub(sem, blobs, graph, ArgList(|vs|), mem).value, mem, next);
  }

  // -- traces of one graph --------------------------------------------------------------

  /** The same kernel, but for the fixed starts of a window. */
  predicate AlikeKernels(k: Kernel, l: Kernel) {
    k == l ||
    (&& k.Window? && l.Window? && k.(starts := []) == l.(starts := []) && |k.starts| == |l.starts|
     && forall i :: 0 <= i < |k.starts| ==> k.starts[i] == l.starts[i] || (k.starts[i].Static? && l.starts[i].Static?))
  }

  /** Built alike, but for the fixed starts of windows. */
  predicate Alike(t: Tensor, u: Tensor)
    decreases t, 1
  {
    if t.Lazy? && u.Lazy? then
      && AlikeKernels(t.kernel, u.kernel) && AlikeAll(t.args, u.args)
      && (t.kernel.Window? ==> |t.args| == FirstStart(t.kernel.wop))
    else t == u && !t.Lazy?
  }

  predicate AlikeAll(ts: seq<Tensor>, us: seq<Tensor>)
    decreases ts, 0
  {
    |ts| == |us| && (ts == [] || (AlikeAll(ts[..|ts| - 1], us[..|us| - 1]) && Alike(ts[|ts| - 1], us[|us| - 1])))
  }

  lemma {:induction false} AlikeAllAt(ts: seq<Tensor>, us: seq<Tensor>)
    ensures AlikeAll(ts, us) <==> |ts| == |us| && forall i :: 0 <= i < |ts| ==> Alike(ts[i], us[i])
  {
    if ts != [] && |ts| == |us| {
      AlikeAllAt(ts[..|ts| - 1], us[..|us| - 1]);
    }
  }

  ghost predicate AlikeEnvs(e: TensorEnv, f: TensorEnv) {
    e.Keys == f.Keys && forall id :: id in e ==> Alike(e[id], f[id])
  }

  lemma {:induction false} FrozenAlike(sem: Sem, k: Kernel, vs: seq<Value>, ws: seq<Value>, n: nat)
    requires k.Window? && |vs| >= FirstStart(k.wop) && |ws| >= FirstStart(k.wop) && n <= |k.starts|
    requires FreezeStarts(sem, k, vs, n).Ok? && FreezeStarts(sem, k, ws, n).Ok?
    ensures var a, b := FreezeStarts(sem, k, vs, n).value, FreezeStarts(sem, k, ws, n).value;
            forall i :: 0 <= i < n ==> a[i] == b[i] || (a[i].Static? && b[i].Static?)
  {
    if n > 0 {
      FrozenAlike(sem, k, vs, ws, n - 1);
    }
  }

  lemma {:induction false} AlikePrefix(ts: seq<Tensor>, us: seq<Tensor>, n: nat)
    requires AlikeAll(ts, us) && n <= |ts|
    ensures AlikeAll(ts[..n], us[..n])
  {
    AlikeAllAt(ts, us);
    AlikeAllAt(ts[..n], us[..n]);
  }

  lemma {:induction false} AlikeTwo(a: Tensor, b: Tensor, c: Tensor, d: Tensor)
    ensures AlikeAll([a], [c]) <==> Alike(a, c)
    ensures AlikeAll([a, b], [c, d]) <==> Alike(a, c) && Alike(b, d)
  {
    AlikeAllAt([a], [c]);
    AlikeAllAt([a, b], [c, d]);
    if Alike(a, c) && Alike(b, d) {
      assert forall i :: 0 <= i < 2 ==> Alike([a, b][i], [c, d][i]);
    }
    if AlikeAll([a, b], [c, d]) {
      assert Alike([a, b][0], [c, d][0]) && Alike([a, b][1], [c, d][1]);
    }
    if AlikeAll([a], [c]) {
      assert Alike([a][0], [c][0]);
    }
  }

  lemma {:induction false} NodeAlike(sem: Sem, blobs: seq<Bytes>, node: Node, ts: seq<Tensor>, us: seq<Tensor>,
      m: Memory, n: Memory)
    requires !node.While? && AlikeAll(ts, us) && LazyNode(sem, blobs, node, ts, m).Ok?
    requires LazyNode(sem, blobs, node, us, n).Ok?
    ensures Alike(LazyNode(sem, blobs, node, ts, m).value, LazyNode(sem, blobs, node, us, n).value)
    decreases node, 2
  {
    if node.Compute? {
      var k := node.kernel;
      if k.Window? {
        AlikePrefix(ts, us, FirstStart(k.wop));
        if HasInputStart(k) {
          FrozenAlike(sem, k, ReadAll(sem, ts, m).value, ReadAll(sem, us, n).value, |k.starts|);
        }
      }
    } else {
      AlikeAllAt(ts, us);
      var i, j := Lazy(FoldInit(node.op, node.attrs), ts), Lazy(FoldInit(node.op, node.attrs), us);
      FoldAlike(sem, blobs, node, ts[0], us[0], i, j, node.count, m, n);
      AlikeTwo(ts[0], LazyFold(sem, blobs, node, ts[0], i, node.count, m).value, us[0],
          LazyFold(sem, blobs, node, us[0], j, node.count, n).value);
    }
  }

  lemma {:induction false} FoldAlike(sem: Sem, blobs: seq<Bytes>, node: Node, t: Tensor, u: Tensor, i: Tensor,
      j: Tensor, c: nat, m: Memory, n: Memory)
    requires node.Fold? && Alike(t, u) && Alike(i, j) && LazyFold(sem, blobs, node, t, i, c, m).Ok?
    requires LazyFold(sem, blobs, node, u, j, c, n).Ok?
    ensures Alike(LazyFold(sem, blobs, node, t, i, c, m).value, LazyFold(sem, blobs, node, u, j, c, n).value)
    decreases node, 1, c
  {
    if c > 0 {
      FoldAlike(sem, blobs, node, t, u, i, j, c - 1, m, n);
      var a, b := LazyFold(sem, blobs, node, t, i, c - 1, m).value, LazyFold(sem, blobs, node, u, j, c - 1, n).value;
      var e, f := Lazy(Element(node.op, node.attrs, c - 1), [t]), Lazy(Element(node.op, node.attrs, c - 1), [u]);
      AlikeTwo(t, t, u, u);
      AlikeTwo(a, e, b, f);
      SubAlike(sem, blobs, node.fn, [a, e], [b, f], m, n);
      AlikeAllAt(LazySub(sem, blobs, node.fn, [a, e], m).value, LazySub(sem, blobs, node.fn, [b, f], n).value);
    }
  }

  lemma {:induction false} SubAlike(sem: Sem, blobs: seq<Bytes>, sub: Sub, ts: seq<Tensor>, us: seq<Tensor>, m: Memory,
      n: Memory)
    requires AlikeAll(ts, us) && LazySub(sem, blobs, sub, ts, m).Ok? && LazySub(sem, blobs, sub, us, n).Ok?
    ensures AlikeAll(LazySub(sem, blobs, sub, ts, m).value, LazySub(sem, blobs, sub, us, n).value)
    decreases sub, 0
  {
    var lits := LiteralTensors(sem, blobs, sub.constants).value;
    LiteralsAlike(sem, blobs, sub.constants);
    InputsAlike(sub.inputs, ts, us, lits);
    var e, f := BindTensors(sub.inputs, ts, lits).value, BindTensors(sub.inputs, us, lits).value;
    NodesAlike(sem, blobs, sub.nodes, e, f, m, n);
    var e', f' := LazyNodes(sem, blobs, sub.nodes, e, m).value, LazyNodes(sem, blobs, sub.nodes, f, n).value;
    TensorsAlike(e', f', OutIds(sub.outputs));
  }

  lemma {:induction false} LiteralsAlike(sem: Sem, blobs: seq<Bytes>, constants: seq<Constant>)
    requires LiteralTensors(sem, blobs, constants).Ok?
    ensures var e := LiteralTensors(sem, blobs, constants).value; forall id :: id in e ==> e[id].Lit?
  {
    if constants != [] {
      LiteralsAlike(sem, blobs, constants[..|constants| - 1]);
    }
  }

  lemma {:induction false} InputsAlike(inputs: seq<GraphInput>, ts: seq<Tensor>, us: seq<Tensor>, env: TensorEnv)
    requires AlikeAll(ts, us) && BindTensors(inputs, ts, env).Ok? && forall id :: id in env ==> env[id].Lit?
    ensures BindTensors(inputs, us, env).Ok?
    ensures AlikeEnvs(BindTensors(inputs, ts, env).value, BindTensors(inputs, us, env).value)
  {
    if inputs != [] {
      AlikeAllAt(ts, us);
      InputsAlike(inputs[..|inputs| - 1], ts, us, env);
    }
  }

  lemma {:induction false} TensorsAlike(e: TensorEnv, f: TensorEnv, ids: seq<nat>)
    requires AlikeEnvs(e, f) && Tensors(e, ids).Ok?
    ensures Tensors(f, ids).Ok? && AlikeAll(Tensors(e, ids).value, Tensors(f, ids).value)
  {
    AlikeAllAt(Tensors(e, ids).value, Tensors(f, ids).value);
  }

  lemma {:induction false} NodesAlike(sem: Sem, blobs: seq<Bytes>, nodes: seq<Node>, e: TensorEnv, f: TensorEnv,
      m: Memory, n: Memory)
    requires AlikeEnvs(e, f) && LazyNodes(sem, blobs, nodes, e, m).Ok? && LazyNodes(sem, blobs, nodes, f, n).Ok?
    ensures AlikeEnvs(LazyNodes(sem, blobs, nodes, e, m).value, LazyNodes(sem, blobs, nodes, f, n).value)
    decreases nodes, 0
  {
    if nodes != [] {
      var last, init := nodes[|nodes| - 1], nodes[..|nodes| - 1];
      NodesAlike(sem, blobs, init, e, f, m, n);
      var e1, f1 := LazyNodes(sem, blobs, init, e, m).value, LazyNodes(sem, blobs, init, f, n).value;
      TensorsAlike(e1, f1, last.inputs);
      NodeAlike(sem, blobs, last, Tensors(e1, last.inputs).value, Tensors(f1, last.inputs).value, m, n);
    }
  }

  // -- the starts that are used ------------------------------------------------------------

  /** The starts that a window uses on a memory. */
  function WindowStarts(sem: Sem, k: Kernel, args: seq<Tensor>, mem: Memory): Outcome<seq<int>>
    requires k.Window?
  {
    var vs :- ReadAll(sem, args, mem);
    if |vs| < FirstStart(k.wop) then Stuck else ResolveStarts(sem, k, vs, mem.sym, |k.starts|)
  }

  /** The starts of every window, in the order they are computed. */
  function Used(sem: Sem, t: Tensor, mem: Memory): seq<Outcome<seq<int>>>
    decreases t, 1
  {
    match t
    case Lazy(k, args) => UsedAll(sem, args, mem) + if k.Window? then [WindowStarts(sem, k, args, mem)] else []
    case _ => []
  }

  function UsedAll(sem: Sem, ts: seq<Tensor>, mem: Memory): seq<Outcome<seq<int>>>
    decreases ts, 0
  {
    if ts == [] then [] else UsedAll(sem, ts[..|ts| - 1], mem) + Used(sem, ts[|ts| - 1], mem)
  }

  lemma {:induction false} AlikeSizes(sem: Sem, t: Tensor, u: Tensor, mem: Memory)
    requires Alike(t, u)
    ensures |Used(sem, t, mem)| == |Used(sem, u, mem)|
    decreases t, 1
  {
    if t.Lazy? {
      AlikeAllSizes(sem, t.args, u.args, mem);
    }
  }

  lemma {:induction false} AlikeAllSizes(sem: Sem, ts: seq<Tensor>, us: seq<Tensor>, mem: Memory)
    requires AlikeAll(ts, us)
    ensures |UsedAll(sem, ts, mem)| == |UsedAll(sem, us, mem)|
    decreases ts, 0
  {
    if ts != [] {
      AlikeAllSizes(sem, ts[..|ts| - 1], us[..|us| - 1], mem);
      AlikeSizes(sem, ts[|ts| - 1], us[|us| - 1], mem);
    }
  }

  lemma SplitEqual<T>(a: seq<T>, b: seq<T>, c: seq<T>, d: seq<T>)
    requires |a| == |c|
    ensures a + b == c + d <==> a == c && b == d
  {
    if a + b == c + d {
      assert a == (a + b)[..|a|] && b == (a + b)[|a|..];
      assert c == (c + d)[..|c|] && d == (c + d)[|c|..];
    }
  }

  /** The same starts: the same value. */
  lemma {:induction false} SameStarts(sem: Sem, t: Tensor, u: Tensor, mem: Memory)
    requires Alike(t, u) && Used(sem, t, mem) == Used(sem, u, mem)
    ensures Read(sem, t, mem) == Read(sem, u, mem)
    decreases t, 1
  {
    if t.Lazy? {
      var k, l := t.kernel, u.kernel;
      AlikeAllSizes(sem, t.args, u.args, mem);
      SplitEqual(UsedAll(sem, t.args, mem), if k.Window? then [WindowStarts(sem, k, t.args, mem)] else [],
                 UsedAll(sem, u.args, mem), if l.Window? then [WindowStarts(sem, l, u.args, mem)] else []);
      AllSameStarts(sem, t.args, u.args, mem);
      if k.Window? {
        assert [WindowStarts(sem, k, t.args, mem)][0] == [WindowStarts(sem, l, u.args, mem)][0];
      }
    }
  }

  lemma {:induction false} AllSameStarts(sem: Sem, ts: seq<Tensor>, us: seq<Tensor>, mem: Memory)
    requires AlikeAll(ts, us) && UsedAll(sem, ts, mem) == UsedAll(sem, us, mem)
    ensures ReadAll(sem, ts, mem) == ReadAll(sem, us, mem)
    decreases ts, 0
  {
    if ts != [] {
      var ts', us' := ts[..|ts| - 1], us[..|us| - 1];
      AlikeAllSizes(sem, ts', us', mem);
      SplitEqual(UsedAll(sem, ts', mem), Used(sem, ts[|ts| - 1], mem), UsedAll(sem, us', mem),
          Used(sem, us[|us| - 1], mem));
      AllSameStarts(sem, ts', us', mem);
      SameStarts(sem, ts[|ts| - 1], us[|us| - 1], mem);
    }
  }

  /** Operations that give different results for different operands, and windows for different starts. */
  ghost predicate Tells(sem: Sem) {
    && (forall k: Kernel, a: seq<Value>, b: seq<Value> :: sem.apply(k, a) == sem.apply(k, b) ==> a == b)
    && forall k: Kernel, a: seq<Value>, b: seq<Value>, s: seq<int>, t: seq<int> ::
        sem.window(k, a, s) == sem.window(k, b, t) ==> a == b && s == t
  }

  /** Then the same value means the same starts. */
  lemma {:induction false} OtherStarts(sem: Sem, t: Tensor, u: Tensor, mem: Memory)
    requires Tells(sem) && Alike(t, u) && Read(sem, t, mem).Ok? && Read(sem, u, mem) == Read(sem, t, mem)
    ensures Used(sem, t, mem) == Used(sem, u, mem)
    decreases t, 1
  {
    if t.Lazy? {
      var k, l, vs, ws := t.kernel, u.kernel, ReadAll(sem, t.args, mem).value, ReadAll(sem, u.args, mem).value;
      if k.Window? {
        assert vs[..FirstStart(k.wop)] == vs && ws[..FirstStart(l.wop)] == ws;
      } else if k.Copy? {
        assert vs == [vs[0]] && ws == [ws[0]];
      }
      assert vs == ws;
      AllOtherStarts(sem, t.args, u.args, mem);
    }
  }

  lemma {:induction false} AllOtherStarts(sem: Sem, ts: seq<Tensor>, us: seq<Tensor>, mem: Memory)
    requires Tells(sem) && AlikeAll(ts, us) && ReadAll(sem, ts, mem).Ok?
    requires ReadAll(sem, us, mem) == ReadAll(sem, ts, mem)
    ensures UsedAll(sem, ts, mem) == UsedAll(sem, us, mem)
    decreases ts, 0
  {
    if ts != [] {
      var ts', us' := ts[..|ts| - 1], us[..|us| - 1];
      var a, b, c, d := ReadAll(sem, ts', mem).value, Read(sem, ts[|ts| - 1], mem).value, ReadAll(sem, us', mem).value,
          Read(sem, us[|us| - 1], mem).value;
      SplitEqual(a, [b], c, [d]);
      assert [b][0] == [d][0];
      AllOtherStarts(sem, ts', us', mem);
      OtherStarts(sem, ts[|ts| - 1], us[|us| - 1], mem);
    }
  }

  // -- when a replay is right ------------------------------------------------------------------

  /** On these inputs, every window of the trace uses the start that the graph itself would use. */
  predicate Agrees(sem: Sem, blobs: seq<Bytes>, graph: Sub, was: seq<Value>, now: seq<Value>)
    requires GraphTrace(sem, blobs, graph, was).Ok? && GraphTrace(sem, blobs, graph, now).Ok?
  {
    var mem := Memory([], now, []);
    UsedAll(sem, GraphTrace(sem, blobs, graph, was).value, mem) ==
        UsedAll(sem, GraphTrace(sem, blobs, graph, now).value, mem)
  }

  lemma TracesAlike(sem: Sem, blobs: seq<Bytes>, graph: Sub, was: seq<Value>, now: seq<Value>)
    requires GraphTrace(sem, blobs, graph, was).Ok? && GraphTrace(sem, blobs, graph, now).Ok?
    ensures AlikeAll(GraphTrace(sem, blobs, graph, was).value, GraphTrace(sem, blobs, graph, now).value)
  {
    var args, m, n := ArgList(|graph.inputs|), Memory([], was, []), Memory([], now, []);
    AlikeAllAt(args, args);
    SubAlike(sem, blobs, graph, args, args, m, n);
    var ts, us := LazySub(sem, blobs, graph, args, m).value, LazySub(sem, blobs, graph, args, n).value;
    AlikeAllAt(ts, us);
    AlikeAllAt(Copies(sem, ts), Copies(sem, us));
    forall j | 0 <= j < |ts| ensures Alike(Copies(sem, ts)[j], Copies(sem, us)[j]) {
      AlikeTwo(ts[j], ts[j], us[j], us[j]);
    }
  }

  /** A graph captured with some inputs, replayed on others: right if every frozen start is the one
      that the later inputs give; and, where operations tell their operands and starts apart, only
      then. */
  lemma ReplayRight(sem: Sem, blobs: seq<Bytes>, graph: Sub, was: seq<Value>, now: seq<Value>, next: seq<Value>,
      fuel: nat)
    requires AllSimple(graph.nodes) && |now| == |graph.inputs| && EvalSub(sem, blobs, graph, now, [], fuel) == Ok(next)
    requires GraphTrace(sem, blobs, graph, was).Ok?
    ensures GraphTrace(sem, blobs, graph, now).Ok?
    ensures var replay := ReadAll(sem, GraphTrace(sem, blobs, graph, was).value, Memory([], now, []));
            && (Agrees(sem, blobs, graph, was, now) ==> replay == Ok(next))
            && (Tells(sem) ==> (replay == Ok(next) <==> Agrees(sem, blobs, graph, was, now)))
  {
    hide GraphTrace, Tells;
    OwnTrace(sem, blobs, graph, now, next, fuel);
    TracesAlike(sem, blobs, graph, was, now);
    var ts, us, mem := GraphTrace(sem, blobs, graph, was).value, GraphTrace(sem, blobs, graph, now).value,
        Memory([], now, []);
    if Agrees(sem, blobs, graph, was, now) {
      AllSameStarts(sem, ts, us, mem);
    }
    if Tells(sem) && ReadAll(sem, ts, mem) == Ok(next) {
      AllOtherStarts(sem, ts, us, mem);
    }
  }
}
