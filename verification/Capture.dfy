/** The traced function of a loop step: what is captured, and that replaying it computes the body. */
module Capture {
  import opened Values
  import opened GraphIR
  import opened GraphForm
  import opened Typing
  import opened SymbolicPlan
  import opened SymbolicSound
  import opened LazyTensors
  import opened LazySound
  import opened Reentry

  /** Kernels are operations and windows; no start is symbolic yet; every dynamic start names an
      operand; sub-graphs are well formed. */
  predicate NodeWf(node: Node)
    decreases node
  {
    match node
    case Compute(_, k, inputs) =>
      && (k.Op? || k.Window?)
      && (k.Window? ==> NoSymbolicStarts(k))
      && (k.Window? ==> forall i :: 0 <= i < |k.starts| && k.starts[i].Input? ==>
          FirstStart(k.wop) + k.starts[i].k < |inputs|)
    case Fold(_, _, _, _, _, fn, _) => SubOk(fn) && forall k :: 0 <= k < |fn.nodes| ==> NodeWf(fn.nodes[k])
    case While(_, cond, body, _) =>
      && SubOk(cond) && SubOk(body)
      && (forall k :: 0 <= k < |cond.nodes| ==> NodeWf(cond.nodes[k]))
      && (forall k :: 0 <= k < |body.nodes| ==> NodeWf(body.nodes[k]))
  }

  predicate AllWf(nodes: seq<Node>) {
    forall k :: 0 <= k < |nodes| ==> NodeWf(nodes[k])
  }

  lemma {:induction false} WfSimple(node: Node)
    requires NodeWf(node) && !Loops(node)
    ensures Simple(node)
    decreases node
  {
    if node.Fold? {
      forall k | 0 <= k < |node.fn.nodes| ensures Simple(node.fn.nodes[k]) {
        assert !Loops(node.fn.nodes[k]);
        WfSimple(node.fn.nodes[k]);
      }
    }
  }

  lemma {:induction false} WfStatic(node: Node)
    requires NodeWf(node) && !node.While? && !NodeRequiresEager(node) && !HasDynamicStarts(node)
    ensures StaticNode(node)
    decreases node
  {
    if node.Fold? {
      forall k | 0 <= k < |node.fn.nodes| ensures StaticNode(node.fn.nodes[k]) {
        assert !NodeRequiresEager(node.fn.nodes[k]) && !HasDynamicStarts(node.fn.nodes[k]);
        WfStatic(node.fn.nodes[k]);
      }
    }
  }

  lemma {:induction false} StartsStatic(node: Node, shapes: Shapes, n: nat, before: nat)
    requires NodeWf(node) && HasDynamicStarts(node) && AllIn(node.inputs, shapes) && n <= |node.kernel.starts|
    ensures forall i :: 0 <= i < n ==> !RewriteStarts(node, shapes, n, before).0[i].Input?
  {
    if n > 0 {
      StartsStatic(node, shapes, n - 1, before);
    }
  }

  /** The rewritten body reads no runtime scalar. */
  lemma {:induction false} PlanStatic(nodes: seq<Node>, shapes: Shapes)
    requires AllWf(nodes) && InputsDeclared(nodes, shapes) && forall k :: 0 <= k < |nodes| ==>
        !NodeRequiresEager(nodes[k])
    ensures AllFoldable(RewriteNodes(nodes, shapes).0) && AllStatic(RewriteNodes(nodes, shapes).0)
  {
    if nodes != [] {
      var init := nodes[..|nodes| - 1];
      var last := nodes[|nodes| - 1];
      assert forall k :: 0 <= k < |init| ==> init[k] == nodes[k];
      PlanStatic(init, shapes);
      if Loops(last) {
        LoopsEager(last);
      }
      WfSimple(last);
      if HasDynamicStarts(last) {
        StartsStatic(last, shapes, |last.kernel.starts|, |RewriteNodes(init, shapes).1|);
      } else {
        WfStatic(last);
      }
    }
  }

  // -- the traced function --------------------------------------------------------

  function ArgList(n: nat): (ts: seq<Tensor>)
    ensures |ts| == n && forall i :: 0 <= i < n ==> ts[i] == Arg(i)
  {
    seq(n, i requires 0 <= i < n => Arg(i))
  }

  lemma ReadArgs(sem: Sem, n: nat, vs: seq<Value>, sym: seq<int>)
    requires |vs| == n
    ensures ReadAll(sem, ArgList(n), Memory([], vs, sym)) == Ok(vs)
  {
    ReadAllAt(sem, ArgList(n), Memory([], vs, sym));
    assert ReadAll(sem, ArgList(n), Memory([], vs, sym)).value == vs;
  }

  /** How many of the first n loop variables the captured function returns. */
  function Returned(body: Sub, n: nat): nat {
    if n == 0 then 0 else Returned(body, n - 1) + if Invariant(body, n - 1) then 0 else 1
  }

  /** An output that is realized inside the trace runs no kernel: it is copied. */
  function Fixed(sem: Sem, t: Tensor): (r: Tensor)
    ensures !Realized(sem, r) && (!Realized(sem, t) ==> r == t)
  {
    if Realized(sem, t) then Lazy(Copy, [t]) else t
  }

  function FixedOutputs(sem: Sem, body: Sub, outs: seq<Tensor>, n: nat): (r: seq<Tensor>)
    requires n <= |outs|
    ensures |r| == Returned(body, n)
    ensures forall j :: 0 <= j < |r| ==> !Realized(sem, r[j])
  {
    if n == 0 then []
    else FixedOutputs(sem, body, outs, n - 1) + if Invariant(body, n - 1) then [] else [Fixed(sem, outs[n - 1])]
  }

  /** The outputs of the captured step: those of the rewritten body that are not passed through. */
  function StepTrace(sem: Sem, blobs: seq<Bytes>, body: Sub): (r: Outcome<seq<Tensor>>)
    requires InputsDeclared(body.nodes, DeclaredShapes(body))
    ensures r.Ok? ==> forall j :: 0 <= j < |r.value| ==> !Realized(sem, r.value[j])
  {
    var outs :- LazySub(sem, blobs, PlanOf(body).body, ArgList(|body.outputs|), Memory([], [], []));
    if |outs| < |body.outputs| then Stuck else Ok(FixedOutputs(sem, body, outs, |body.outputs|))
  }

  function KeptValues(body: Sub, vs: seq<Value>, n: nat): (r: seq<Value>)
    requires n <= |vs|
    ensures |r| == Returned(body, n)
  {
    if n == 0 then []
    else KeptValues(body, vs, n - 1) + if Invariant(body, n - 1) then [] else [vs[n - 1]]
  }

  lemma {:induction false} KeptAt(body: Sub, vs: seq<Value>, n: nat, j: nat)
    requires j < n <= |vs| && !Invariant(body, j)
    ensures Returned(body, j) < Returned(body, n) && KeptValues(body, vs, n)[Returned(body, j)] == vs[j]
  {
    if j < n - 1 {
      KeptAt(body, vs, n - 1, j);
    }
  }

  lemma FixedRead(sem: Sem, t: Tensor, mem: Memory)
    requires Read(sem, t, mem).Ok?
    ensures Read(sem, Fixed(sem, t), mem) == Read(sem, t, mem)
  {
    ReadOne(sem, t, mem);
  }

  lemma ReadOneMore(sem: Sem, ts: seq<Tensor>, t: Tensor, mem: Memory)
    requires ReadAll(sem, ts, mem).Ok? && Read(sem, t, mem).Ok?
    ensures ReadAll(sem, ts + [t], mem) == Ok(ReadAll(sem, ts, mem).value + [Read(sem, t, mem).value])
  {
    assert (ts + [t])[..|ts|] == ts;
  }

  lemma {:induction false} FixedReads(sem: Sem, body: Sub, outs: seq<Tensor>, vs: seq<Value>, n: nat, mem: Memory)
    requires n <= |outs| == |vs| && ReadAll(sem, outs, mem) == Ok(vs)
    ensures ReadAll(sem, FixedOutputs(sem, body, outs, n), mem) == Ok(KeptValues(body, vs, n))
  {
    hide Invariant, Read, Realized;
    if n > 0 {
      FixedReads(sem, body, outs, vs, n - 1, mem);
      var before, kept := FixedOutputs(sem, body, outs, n - 1), KeptValues(body, vs, n - 1);
      if Invariant(body, n - 1) {
        assert before + [] == before && kept + [] == kept;
      } else {
        ReadAllAt(sem, outs, mem);
        FixedRead(sem, outs[n - 1], mem);
        ReadOneMore(sem, before, Fixed(sem, outs[n - 1]), mem);
      }
    } else {
      assert FixedOutputs(sem, body, outs, 0) == [] && KeptValues(body, vs, 0) == [];
    }
  }

  /** What a loop must satisfy for its body to be captured. */
  predicate CapturedLoop(sem: Sem, node: Node) {
    node.While? && NodeWf(node) && !RequiresEager(node.body)
  }

  lemma CapturedBody(sem: Sem, node: Node)
    requires CapturedLoop(sem, node) && InputsDeclared(node.body.nodes, DeclaredShapes(node.body))
    ensures NoLoops(node.body.nodes) && NoSymbolic(node.body.nodes) && AllSimple(node.body.nodes)
    ensures AllFoldable(PlanOf(node.body).body.nodes) && AllStatic(PlanOf(node.body).body.nodes)
  {
    var nodes := node.body.nodes;
    forall k | 0 <= k < |nodes| ensures !nodes[k].While? && Simple(nodes[k]) {
      assert !NodeRequiresEager(nodes[k]);
      if Loops(nodes[k]) {
        LoopsEager(nodes[k]);
      }
      WfSimple(nodes[k]);
    }
    PlanStatic(nodes, DeclaredShapes(node.body));
  }

  /** Replaying the trace on any loop state, with the variables bound to that state's clamped
      starts, computes what the body returns, kernel by kernel. */
  lemma StepTraceSound(sem: Sem, blobs: seq<Bytes>, node: Node, vs: seq<Value>, bound: seq<int>, next: seq<Value>,
      fuel: nat)
    requires CapturedLoop(sem, node) && InputsDeclared(node.body.nodes, DeclaredShapes(node.body))
    requires |vs| == |node.body.outputs| && EvalSub(sem, blobs, PlanOf(node.body).body, vs, bound, fuel) == Ok(next)
    ensures var r := StepTrace(sem, blobs, node.body);
            && r.Ok? && |r.value| == Returned(node.body, |vs|)
            && ReadAll(sem, r.value, Memory([], vs, bound)) == Ok(KeptValues(node.body, next, |next|))
  {
    var body := node.body;
    var sub := PlanOf(body).body;
    CapturedBody(sem, node);
    var mem, mem' := Memory([], [], []), Memory([], vs, bound);
    ReadArgs(sem, |vs|, vs, bound);
    LazySubSound(sem, blobs, sub, ArgList(|vs|), mem, mem', vs, bound, fuel);
    var outs := LazySub(sem, blobs, sub, ArgList(|vs|), mem).value;
    FixedReads(sem, body, outs, next, |next|, mem');
  }
}
