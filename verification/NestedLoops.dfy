/** Loops that can be entered again: loops without loops inside, nests of any depth that carry a
    variable through, and a fold over a loop.  And the loop that cannot: one that keeps what a captured
    loop inside returned last time. */
module NestedLoops {
  import opened Values
  import opened GraphIR
  import opened GraphForm
  import opened Typing
  import opened SymbolicPlan
  import opened SymbolicSound
  import opened LazyTensors
  import opened Devices
  import opened Reentry
  import opened PassThrough
  import opened TaintSound
  import opened Capture
  import opened LoopStates
  import opened Executor
  import opened Executables

  // -- a list without loops ---------------------------------------------------------------

  function FlowChain(sem: Sem, nodes: seq<Node>, m: Taints): (ms: seq<Taints>)
    requires NoneLoops(nodes)
    ensures |ms| == |nodes| + 1 && ms[0] == m
  {
    if nodes == [] then [m]
    else
      var last := nodes[|nodes| - 1];
      var before := FlowChain(sem, nodes[..|nodes| - 1], m);
      before + [before[|nodes| - 1][last.id := Flow(sem, last, before[|nodes| - 1])]]
  }

  lemma {:induction false} FlowChainAt(sem: Sem, nodes: seq<Node>, m: Taints, i: nat)
    requires NoneLoops(nodes) && i < |nodes|
    ensures var ms := FlowChain(sem, nodes, m);
        !nodes[i].While? && ms[i + 1] == ms[i][nodes[i].id := Flow(sem, nodes[i], ms[i])]
  {
    hide Flow;
    assert !Loops(nodes[i]);
    if i < |nodes| - 1 {
      FlowChainAt(sem, nodes[..|nodes| - 1], m, i);
    }
  }

  lemma {:induction false} FlowChainSafe(sem: Sem, nodes: seq<Node>, outs: seq<nat>, p: Path, m: Taints)
    requires NoneLoops(nodes)
    ensures SafeChain(sem, nodes, outs, p, FlowChain(sem, nodes, m))
  {
    hide Flow;
    var ms := FlowChain(sem, nodes, m);
    forall i | 0 <= i < |nodes| ensures SafeStep(sem, nodes, i, outs, p, ms[i], ms[i + 1]) {
      FlowChainAt(sem, nodes, m, i);
      assert !Loops(nodes[i]);
    }
  }

  /** A node's base is one of its operands', or none. */
  lemma {:induction false} FlowBases(sem: Sem, nodes: seq<Node>, m: Taints, u: set<Path>)
    requires NoneLoops(nodes) && forall id :: TaintAt(m, id).base <= u
    ensures forall id :: TaintAt(FlowChain(sem, nodes, m)[|nodes|], id).base <= u
  {
    if nodes != [] {
      var last, before := nodes[|nodes| - 1], FlowChain(sem, nodes[..|nodes| - 1], m)[|nodes| - 1];
      FlowBases(sem, nodes[..|nodes| - 1], m, u);
      assert !Loops(last);
      var after := FlowChain(sem, nodes, m)[|nodes|];
      assert after == before[last.id := Flow(sem, last, before)];
      forall id ensures TaintAt(after, id).base <= u {
        assert TaintAt(before, id).base <= u;
        if id == last.id && last.inputs != [] {
          assert TaintAt(before, last.inputs[0]).base <= u;
        }
      }
    }
  }

  lemma {:induction false} FlowKeeps(sem: Sem, nodes: seq<Node>, m: Taints, id: nat)
    requires NoneLoops(nodes) && NodeIds(nodes)[id] == 0
    ensures TaintAt(FlowChain(sem, nodes, m)[|nodes|], id) == TaintAt(m, id)
  {
    hide Flow;
    if nodes != [] {
      var last := nodes[|nodes| - 1];
      FlowKeeps(sem, nodes[..|nodes| - 1], m, id);
      assert !Loops(last);
      assert multiset(DefinedIds(last))[id] == 0;
      assert last.id in DefinedIds(last);
    }
  }

  /** An input's taint is its parameter's. */
  lemma {:induction false} InputTaint(inputs: seq<GraphInput>, j: nat, ts: seq<Taint>)
    requires Unique(InputIds(inputs)) && InputIdAt(inputs, j).Some? && j < |ts|
    ensures var id := InputIdAt(inputs, j).value;
        InputIds(inputs)[id] == 1 && TaintAt(StartTaints(inputs, ts), id) == ts[j]
  {
    var last, init := inputs[|inputs| - 1], inputs[..|inputs| - 1];
    if last.index != j {
      assert Unique(InputIds(init)) by {
        forall id: nat ensures InputIds(init)[id] <= 1 { assert InputIds(inputs)[id] <= 1; }
      }
      InputTaint(init, j, ts);
      assert InputIds(inputs)[InputIdAt(init, j).value] <= 1;
    } else {
      assert InputIds(inputs)[last.id] <= 1;
    }
  }

  lemma {:induction false} StartBases(inputs: seq<GraphInput>, ts: seq<Taint>, u: set<Path>)
    requires forall j :: 0 <= j < |ts| ==> ts[j].base <= u
    ensures forall id :: TaintAt(StartTaints(inputs, ts), id).base <= u
  {
    if inputs != [] {
      var last, before := inputs[|inputs| - 1], StartTaints(inputs[..|inputs| - 1], ts);
      StartBases(inputs[..|inputs| - 1], ts, u);
      forall id ensures TaintAt(StartTaints(inputs, ts), id).base <= u {
        assert TaintAt(before, id).base <= u;
      }
    }
  }

  // -- loops without loops inside ------------------------------------------------------------

  predicate Innermost(node: Node) {
    node.While? && NodeWf(node) && NoneLoops(node.cond.nodes) && NoneLoops(node.body.nodes)
  }

  function UnionOf(a: seq<set<Path>>): (u: set<Path>)
    ensures forall j :: 0 <= j < |a| ==> a[j] <= u
    ensures forall r :: r in u ==> exists j :: 0 <= j < |a| && r in a[j]
  {
    if a == [] then {} else UnionOf(a[..|a| - 1]) + a[|a| - 1]
  }

  /** Variables that change may be anywhere the operands were, or in the loop's own buffers. */
  function OwnTaints(node: Node, k: Path, a: seq<set<Path>>): (t: seq<set<Path>>)
    requires node.While?
    ensures |t| == |a| && forall j :: 0 <= j < |a| ==>
        t[j] == if Invariant(node.body, j) then a[j] else UnionOf(a) + {k}
  {
    seq(|a|, j requires 0 <= j < |a| => if Invariant(node.body, j) then a[j] else UnionOf(a) + {k})
  }

  /** A loop without loops inside may be entered again with operands in its own buffers, except for
      variables that it passes through. */
  lemma {:induction false} InnermostSafe(sem: Sem, node: Node, k: Path, a: seq<set<Path>>)
    requires Innermost(node) && |a| == |node.body.outputs|
    requires forall j :: 0 <= j < |a| ==> Clean(a[j], k + [0]) && (Invariant(node.body, j) ==> k !in a[j])
    ensures SafeLoop(sem, node, k, a, OwnTaints(node, k, a))
  {
    hide SafeStep, Flow, SubOk, NodeWf, Loops, RequiresEager;
    var t := OwnTaints(node, k, a);
    forall j | 0 <= j < |t| ensures a[j] <= t[j] && Clean(t[j], k + [0]) {
      forall r | r in t[j] ensures !(k + [0] <= r) {
        if r in UnionOf(a) {
          var i :| 0 <= i < |a| && r in a[i];
        }
      }
    }
    forall j, r | 0 <= j < |t| && r in t[j] ensures k <= r || exists i :: 0 <= i < |a| && r in a[i] {
      if Invariant(node.body, j) {
        assert r in a[j];
      }
    }
    var m0, m1 := StartTaints(node.cond.inputs, Held(t)), StartTaints(node.body.inputs, Held(t));
    FlowChainSafe(sem, node.cond.nodes, OutIds(node.cond.outputs), k + [0], m0);
    assert FlowChain(sem, node.cond.nodes, m0)[0] == StartTaints(node.cond.inputs, Held(t));
    BodySafe(sem, node, k, a);
  }

  lemma {:induction false} BodySafe(sem: Sem, node: Node, k: Path, a: seq<set<Path>>)
    requires Innermost(node) && |a| == |node.body.outputs|
    ensures var t, m := OwnTaints(node, k, a), StartTaints(node.body.inputs, Held(OwnTaints(node, k, a)));
            var ms := FlowChain(sem, node.body.nodes, m);
            && SafeChain(sem, node.body.nodes, OutIds(node.body.outputs), k + [1], ms) && ms[0] == m
            && forall j :: 0 <= j < |t| ==> TaintAt(ms[|node.body.nodes|], node.body.outputs[j].id).base <= t[j]
  {
    hide SafeStep, Flow, Loops;
    assert SubOk(node.body);
    hide NodeWf, SubOk;
    var t := OwnTaints(node, k, a);
    var m, nodes := StartTaints(node.body.inputs, Held(t)), node.body.nodes;
    FlowChainSafe(sem, nodes, OutIds(node.body.outputs), k + [1], m);
    StartBases(node.body.inputs, Held(t), UnionOf(a) + {k});
    FlowBases(sem, nodes, m, UnionOf(a) + {k});
    InputsOnly(node.body);
    forall j | 0 <= j < |t| && Invariant(node.body, j)
      ensures TaintAt(FlowChain(sem, nodes, m)[|nodes|], node.body.outputs[j].id).base <= t[j]
    {
      InputTaint(node.body.inputs, j, Held(t));
      FlowKeeps(sem, nodes, m, node.body.outputs[j].id);
    }
  }

  lemma {:induction false} InnermostEnters(sem: Sem, node: Node)
    requires Innermost(node)
    ensures EntersSafely(sem, node)
  {
    hide SafeLoop, NodeWf, NoneLoops;
    forall k: Path, a: seq<set<Path>> | |a| == |node.body.outputs| && (forall j :: 0 <= j < |a| ==> Clean(a[j], k))
        ensures CanEnter(sem, node, k, a) {
      forall j | 0 <= j < |a| ensures Clean(a[j], k + [0]) && k !in a[j] {
      }
      InnermostSafe(sem, node, k, a);
    }
  }

  // -- nests of any depth ---------------------------------------------------------------------

  /** A loop around a loop: one variable, carried through. */
  function Around(cond: Sub, inner: Node): Node
    requires inner.While? && |inner.outputs| == 1
  {
    While([0], cond, Sub([GraphInput(0, 0, inner.outputs[0].spec)], [], [inner], [inner.outputs[0]]), inner.outputs)
  }

  /** d loops around an innermost one. */
  function Nest(cond: Sub, inner: Node, d: nat): (r: Node)
    requires inner.While? && |inner.outputs| == 1
    ensures r.While? && r.outputs == inner.outputs
  {
    if d == 0 then inner else Around(cond, Nest(cond, inner, d - 1))
  }

  /** Where the innermost loop is, in a nest at path k. */
  function Deepest(k: Path, d: nat): Path
    decreases d
  {
    if d == 0 then k else Deepest(k + [1, 0], d - 1)
  }

  lemma {:induction false} DeepestBelow(k: Path, d: nat)
    ensures k <= Deepest(k, d) && (d > 0 ==> k + [1, 0] <= Deepest(k, d))
    decreases d
  {
    if d > 0 {
      DeepestBelow(k + [1, 0], d - 1);
    }
  }

  /** One variable, that the loop changes, bound to an id afterwards. */
  predicate OneVariable(inner: Node, id: nat) {
    && Innermost(inner) && !RequiresEager(inner.body) && |inner.body.outputs| == 1 && !Invariant(inner.body, 0)
    && inner.inputs == [0] && |inner.outputs| == 1 && inner.outputs[0].id == id
  }

  /** The variable may be in the innermost loop's buffers all the way out, and be given back in. */
  lemma {:induction false} NestSafe(sem: Sem, cond: Sub, inner: Node, d: nat, k: Path, a: set<Path>)
    requires OneVariable(inner, 1) && NoneLoops(cond.nodes)
    requires forall r :: r in a ==> r == Deepest(k, d) || !(k <= r)
    ensures SafeLoop(sem, Nest(cond, inner, d), k, [a], [a + {Deepest(k, d)}])
    decreases d
  {
    hide SafeLoop, OneVariable, NoneLoops, RequiresEager, UnionOf;
    DeepestBelow(k, d);
    if d == 0 {
      NestCore(sem, inner, 1, k, a);
    } else {
      NestVariable(cond, inner, d - 1);
      NestVariable(cond, inner, 0);
      var t, k' := a + {Deepest(k, d)}, k + [1, 0];
      forall r | r in t ensures (r == Deepest(k', d - 1) || !(k' <= r)) && (r in a || k' <= r) {
      }
      assert (k + [0])[|k|] == 0 && k'[|k|] == 1 && (k + [0])[..|k|] == k;
      forall r | r in a ensures !(k + [0] <= r) {
      }
      NestSafe(sem, cond, inner, d - 1, k', t);
      assert t + {Deepest(k', d - 1)} == t;
      AroundSafe(sem, cond, Nest(cond, inner, d - 1), k, a, t);
    }
  }

  lemma {:induction false} NestCore(sem: Sem, inner: Node, id: nat, k: Path, a: set<Path>)
    requires OneVariable(inner, id) && forall r :: r in a ==> r == k || !(k <= r)
    ensures SafeLoop(sem, inner, k, [a], [a + {k}])
  {
    hide SafeLoop, NodeWf, NoneLoops, RequiresEager;
    assert UnionOf([a]) == a by { assert [a][..0] == []; assert UnionOf([a][..0]) == {}; }
    assert OwnTaints(inner, k, [a]) == [a + {k}];
    InnermostSafe(sem, inner, k, [a]);
  }

  lemma {:induction false} NestVariable(cond: Sub, inner: Node, d: nat)
    requires OneVariable(inner, 1)
    ensures var r := Nest(cond, inner, d);
        |r.outputs| == 1 && r.outputs[0].id == 1 && r.inputs == [0] && |r.body.outputs| == 1
  {
  }

  lemma {:induction false} OneStart(inputs: seq<GraphInput>, t: Taint)
    requires |inputs| == 1 && inputs[0].index == 0
    ensures StartTaints(inputs, [t]) == map[inputs[0].id := t]
  {
    assert inputs[..0] == [];
    assert StartTaints(inputs[..0], [t]) == map[];
  }

  lemma {:induction false} OneBound(id: nat, t: Taint, m: Taints)
    ensures BindTaints([id], [t], m) == m[id := t]
  {
    assert [id][..0] == [];
    assert BindTaints([id][..0], [t], m) == m;
  }

  lemma {:induction false} AroundSafe(sem: Sem, cond: Sub, inner: Node, k: Path, a: set<Path>, t: set<Path>)
    requires inner.While? && |inner.outputs| == 1 && inner.inputs == [0] && inner.outputs[0].id == 1
    requires NoneLoops(cond.nodes)
    requires SafeLoop(sem, inner, k + [1, 0], [t], [t]) && a <= t
    requires forall r :: r in t ==> r in a || k + [1, 0] <= r
    requires forall r :: r in a ==> !(k + [0] <= r)
    ensures SafeLoop(sem, Around(cond, inner), k, [a], [t])
  {
    hide SafeStep, FlowChain, NoneLoops, StartTaints, Invariant;
    var node := Around(cond, inner);
    assert (k + [0])[|k|] == 0 && (k + [1, 0])[|k|] == 1;
    forall r | r in t ensures !(k + [0] <= r) && (k <= r || r in [a][0]) {
    }
    assert NodeRequiresEager(node.body.nodes[0]);
    var m := StartTaints(cond.inputs, Held([t]));
    FlowChainSafe(sem, cond.nodes, OutIds(cond.outputs), k + [0], m);
    assert FlowChain(sem, cond.nodes, m)[0] == m;
    var ms := AroundBody(sem, inner, k, t);
    assert ms[0] == StartTaints(node.body.inputs, Held([t]))
        && TaintAt(ms[|node.body.nodes|], node.body.outputs[0].id).base <= [t][0];
    assert node.body.outputs == inner.outputs;
  }

  /** The body around a loop is one node. */
  lemma {:induction false} AroundBody(sem: Sem, inner: Node, k: Path, t: set<Path>) returns (ms: seq<Taints>)
    requires inner.While? && |inner.outputs| == 1 && inner.inputs == [0] && inner.outputs[0].id == 1
    requires SafeLoop(sem, inner, k + [1, 0], [t], [t])
    ensures SafeChain(sem, [inner], OutIds(inner.outputs), k + [1], ms)
    ensures ms[0] == StartTaints([GraphInput(0, 0, inner.outputs[0].spec)], Held([t]))
    ensures TaintAt(ms[1], 1) == Taint(t, t)
  {
    hide SafeLoop;
    var m0: Taints := map[0 := Taint(t, t)];
    assert Held([t]) == [Taint(t, t)];
    OneStart([GraphInput(0, 0, inner.outputs[0].spec)], Taint(t, t));
    OneBound(1, Taint(t, t), m0);
    ms := [m0, m0[1 := Taint(t, t)]];
    assert OutIds(inner.outputs) == [1];
    assert k + [1] + [0] == k + [1, 0];
    assert BasesAt(m0, [0]) == [t];
    assert SafeStep(sem, [inner], 0, [1], k + [1], ms[0], ms[1]);
  }

  /** However deep the nest, it can be entered. */
  lemma {:induction false} NestEnters(sem: Sem, cond: Sub, inner: Node, d: nat)
    requires OneVariable(inner, 1) && NoneLoops(cond.nodes)
    ensures EntersSafely(sem, Nest(cond, inner, d))
  {
    hide SafeLoop, NodeWf, NoneLoops;
    var node := Nest(cond, inner, d);
    NestVariable(cond, inner, d);
    forall k: Path, a: seq<set<Path>> | |a| == |node.body.outputs| && (forall j :: 0 <= j < |a| ==> Clean(a[j], k))
        ensures CanEnter(sem, node, k, a) {
      assert a == [a[0]];
      NestSafe(sem, cond, inner, d, k, a[0]);
    }
  }

  // -- a fold over a loop ----------------------------------------------------------------------

  /** A function that runs a loop on the accumulator, then combines what it gives with the element. */
  function LoopThen(inner: Node, combine: Kernel, acc: Spec, elem: Spec): Sub {
    Sub([GraphInput(0, 0, acc), GraphInput(1, 1, elem)], [], [inner, Compute(3, combine, [2, 1])], [Out(3, acc)])
  }

  function FoldOver(inner: Node, combine: Kernel, acc: Spec, elem: Spec, op: string, attrs: Attrs, inputs: seq<nat>,
      count: nat): Node
  {
    Fold(2, op, attrs, inputs, count, LoopThen(inner, combine, acc, elem), acc)
  }

  /** The loop's captured step is entered again at every element, given back what it returned. */
  lemma {:induction false} FoldEnters(sem: Sem, inner: Node, combine: Kernel, acc: Spec, elem: Spec, op: string,
      attrs: Attrs, inputs: seq<nat>, count: nat)
    requires OneVariable(inner, 2) && combine.Op?
    ensures EntersSafely(sem, FoldOver(inner, combine, acc, elem, op, attrs, inputs, count))
  {
    hide SafeLoop, NodeWf, NoneLoops, SafeFold, Clean;
    var node := FoldOver(inner, combine, acc, elem, op, attrs, inputs, count);
    forall k: Path, x: Taint, y: Taint | Clean(x.all, k) && Clean(y.all, k) ensures CanFold(sem, node, k, x, y) {
      var c := Taint({k + [1, 0]}, x.all + y.all + {k + [1, 0]});
      FoldSafe(sem, node, inner, combine, acc, elem, k, x, y, c);
    }
  }

  lemma {:induction false} FoldSafe(sem: Sem, node: Node, inner: Node, combine: Kernel, acc: Spec, elem: Spec, k: Path,
      x: Taint, y: Taint, c: Taint)
    requires OneVariable(inner, 2) && combine.Op? && node.Fold? && node.fn == LoopThen(inner, combine, acc, elem)
    requires Clean(x.all, k) && c == Taint({k + [1, 0]}, x.all + y.all + {k + [1, 0]})
    ensures SafeFold(sem, node, k, x, y, c)
  {
    hide SafeChain, TaintAt, StartTaints, OneVariable, Clean;
    forall r | r in c.all ensures k <= r || r in x.all + y.all {
    }
    var ms := FoldBody(sem, inner, combine, acc, elem, k, x, c);
    assert ms[0] == StartTaints(node.fn.inputs, [c, x])
        && WithinTaint(TaintAt(ms[|node.fn.nodes|], node.fn.outputs[0].id), c);
  }

  lemma {:induction false} FoldBody(sem: Sem, inner: Node, combine: Kernel, acc: Spec, elem: Spec, k: Path, x: Taint,
      c: Taint) returns (ms: seq<Taints>)
    requires OneVariable(inner, 2) && combine.Op? && Clean(x.all, k) && c.base == {k + [1, 0]}
    requires c.base + x.all <= c.all
    ensures var fn := LoopThen(inner, combine, acc, elem);
            && SafeChain(sem, fn.nodes, OutIds(fn.outputs), k + [1], ms) && ms[0] == StartTaints(fn.inputs, [c, x])
            && |ms| == 3 && WithinTaint(TaintAt(ms[2], 3), c)
  {
    hide SafeLoop, NodeWf, NoneLoops;
    var fn, kin := LoopThen(inner, combine, acc, elem), k + [1, 0];
    var m0: Taints := map[0 := c, 1 := x];
    var m1 := m0[2 := Taint({kin}, {kin})];
    var m2 := m1[3 := Flow(sem, fn.nodes[1], m1)];
    ms := [m0, m1, m2];
    TwoStart(fn.inputs, c, x);
    NestCore(sem, inner, 2, kin, {kin});
    assert {kin} + {kin} == {kin} && BasesAt(m0, [0]) == [{kin}] && Held([{kin}]) == [Taint({kin}, {kin})];
    OneBound(2, Taint({kin}, {kin}), m0);
    assert OutIds(inner.outputs) == [2];
    assert k + [1] + [0] == kin;
    assert LiveClean(fn.nodes, 0, [3], k + [1], m0) by {
      forall id | id in m0 && Live(fn.nodes, 1, [3], id) ensures Clean(m0[id].all, kin) {
        assert id in fn.nodes[1].inputs;
      }
    }
    assert SafeStep(sem, fn.nodes, 0, [3], k + [1], m0, m1);
    assert SafeStep(sem, fn.nodes, 1, [3], k + [1], m1, m2);
    assert OutIds(fn.outputs) == [3];
    assert [2, 1][..1] == [2] && [2][..0] == [];
    assert AllOf(m1, [2]) == AllOf(m1, []) + TaintAt(m1, 2).all;
    assert AllOf(m1, [2, 1]) == AllOf(m1, [2]) + TaintAt(m1, 1).all;
  }

  lemma {:induction false} TwoStart(inputs: seq<GraphInput>, a: Taint, b: Taint)
    requires |inputs| == 2 && inputs[0].index == 0 && inputs[1].index == 1
    ensures StartTaints(inputs, [a, b]) == map[inputs[0].id := a, inputs[1].id := b]
  {
    assert inputs[..1][..0] == [];
    assert StartTaints(inputs[..1][..0], [a, b]) == map[];
    assert StartTaints(inputs[..1], [a, b]) == map[inputs[0].id := a];
  }

  // -- a loop that keeps what came before ----------------------------------------------------------

  /** A captured loop over a counter and x, which changes both. */
  predicate Counted(inner: Node) {
    && Innermost(inner) && !RequiresEager(inner.body) && |inner.body.outputs| == 2
    && !Invariant(inner.body, 0) && !Invariant(inner.body, 1)
    && inner.inputs == [2, 0] && OutIds(inner.outputs) == [3, 4]
  }

  /** (x, before) := (inner(0, x), x): the shape of a convergence test. */
  function Converge(cond: Sub, inner: Node, zero: Number, i: Spec, x: Spec): Node {
    While([0, 1], cond, ConvergeBody(inner, zero, i, x), [Out(2, x), Out(3, x)])
  }

  function ConvergeBody(inner: Node, zero: Number, i: Spec, x: Spec): Sub {
    Sub([GraphInput(0, 0, x), GraphInput(1, 1, x)], [Constant(2, Scalar(zero), i)], [inner], [Out(4, x), Out(0, x)])
  }

  /** Wherever it stands, and whatever it is given, it does not meet the condition: the captured
      step's own buffers hold what it returned last, which is still needed when it is entered again. */
  lemma {:induction false} ConvergeUnsafe(sem: Sem, cond: Sub, inner: Node, zero: Number, i: Spec, x: Spec, k: Path,
      a: seq<set<Path>>, t: seq<set<Path>>)
    requires Counted(inner)
    ensures !SafeLoop(sem, Converge(cond, inner, zero, i, x), k, a, t)
  {
    hide SafeChain, Innermost, RequiresEager, Invariant, Clean;
    var node := Converge(cond, inner, zero, i, x);
    if SafeLoop(sem, node, k, a, t) {
      var ms := CertificateOf(sem, node, k, a, t).body;
      assert OutIds(node.body.outputs) == [4, 0];
      ConvergeClash(sem, node.body, inner, k, t, ms);
    }
  }

  lemma {:induction false} ConvergeClash(sem: Sem, body: Sub, inner: Node, k: Path, t: seq<set<Path>>, ms: seq<Taints>)
    requires Counted(inner) && body.nodes == [inner] && |t| == 2 && OutIds(body.outputs) == [4, 0] && |body.inputs| == 2
    requires body.inputs[0].index == 0 && body.inputs[1].index == 1 && body.inputs[0].id == 0 && body.inputs[1].id == 1
    requires SafeChain(sem, [inner], OutIds(body.outputs), k + [1], ms) && ms[0] == StartTaints(body.inputs, Held(t))
    ensures !(TaintAt(ms[1], 4).base <= t[0])
  {
    hide NodeWf, NoneLoops;
    var kin := k + [1] + [0];
    assert Held(t) == [Taint(t[0], t[0]), Taint(t[1], t[1])];
    TwoStart(body.inputs, Taint(t[0], t[0]), Taint(t[1], t[1]));
    assert SafeStep(sem, [inner], 0, [4, 0], k + [1], ms[0], ms[1]);
    assert Live([inner], 1, [4, 0], 0);
    assert Clean(t[0], kin);
    var s :| SafeLoop(sem, inner, kin, BasesAt(ms[0], [2, 0]), s) && ms[1] == BindTaints([3, 4], Held(s), ms[0]);
    assert kin in s[1] && Held(s)[1] == Taint(s[1], s[1]);
    assert [3, 4][..1] == [3];
    assert ms[1] == BindTaints([3], Held(s), ms[0])[4 := Held(s)[1]];
  }

  /** What the outer loop means: each pass keeps the x it started from. */
  lemma {:induction false} ConvergeMeans(sem: Sem, blobs: seq<Bytes>, inner: Node, zero: Number, i: Spec, x: Spec,
      v: Value, before: Value, next: seq<Value>, fuel: nat)
    requires Counted(inner) && EvalLoop(sem, blobs, inner, [sem.scalar(zero, i), v], fuel, fuel) == Ok(next)
    requires |next| == 2
    ensures EvalSub(sem, blobs, ConvergeBody(inner, zero, i, x), [v, before], [], fuel) == Ok([next[1], v])
  {
    hide EvalLoop, NodeWf, NoneLoops;
    var body, z := ConvergeBody(inner, zero, i, x), sem.scalar(zero, i);
    var e0: Env, e1: Env, e2: Env := map[2 := z], map[2 := z, 0 := v], map[2 := z, 0 := v, 1 := before];
    assert body.constants[..0] == [];
    assert BindConstants(sem, blobs, body.constants) == Ok(e0);
    assert body.inputs[..1][..0] == [];
    assert BindInputs(body.inputs[..1][..0], [v, before], e0) == Ok(e0);
    assert BindInputs(body.inputs[..1], [v, before], e0) == Ok(e1);
    assert BindInputs(body.inputs, [v, before], e0) == Ok(e2);
    assert body.nodes[..0] == [];
    assert EvalNodes(sem, blobs, body.nodes[..0], e2, [], fuel) == Ok(e2);
    assert Lookup(e2, [2, 0]).value == [z, v];
    var e3 := Bind([3, 4], next, e2);
    assert [3, 4][..1] == [3] && [3][..0] == [];
    assert Bind([3][..0], next, e2) == e2;
    assert Bind([3], next, e2) == e2[3 := next[0]];
    assert e3 == e2[3 := next[0]][4 := next[1]];
    assert EvalNodes(sem, blobs, body.nodes, e2, [], fuel) == Ok(e3);
    assert OutIds(body.outputs) == [4, 0];
    assert Lookup(e3, [4, 0]).value == [next[1], v];
  }

  /** A captured loop, entered again.  What it returned the time before, where that is still referred
      to, now reads as what it returns this time: it has survived exactly when the two are equal. */
  method EnterAgain(exec: Executable, node: Node, k: Path, args: seq<Tensor>, before: seq<Tensor>, j: nat,
      ghost was: Value, ghost top: Path, ghost a: seq<set<Path>>, ghost t: seq<set<Path>>, ghost vs: seq<Value>,
      ghost final: seq<Value>, ghost fuel: nat) returns (now: seq<Tensor>)
    requires exec.StepsOk() && ShapeLaw(exec.dev.sem) && LoopReady(exec.dev.sem, node, vs) && top <= k
    requires EvalLoop(exec.dev.sem, exec.blobs, node, vs, fuel, fuel) == Ok(final)
    requires Enters(exec.dev.sem, exec.blobs, node, vs, fuel)
    requires Holds(exec.dev.sem, args, exec.dev.Mem(), vs) && SafeLoop(exec.dev.sem, node, k, a, t) && |a| == |args|
    requires forall i :: 0 <= i < |args| ==> AllTainted(BaseBuf(exec.dev.sem, args[i]), exec.dev.owner, top, a[i])
    requires Key(k, node) in exec.steps && IsCaptured(exec.steps[Key(k, node)])
    requires Replayed(node.body, exec.steps[Key(k, node)].jit.outs, before)
    requires j < |before| == |final| && !Invariant(node.body, j)
    modifies exec, exec.dev
    ensures exec.StepsOk() && StepsKept(old(exec.steps), exec.steps, k)
    ensures Touched(old(exec.dev.bufs), old(exec.dev.owner), exec.dev.bufs, exec.dev.owner, k)
    ensures LoopState(exec.dev.sem, node.body, k, top, SupportAll(args), t, now, final, exec.dev.Mem(), exec.dev.owner,
        old(|exec.dev.bufs|))
    ensures exec.steps[Key(k, node)].Jitted? ==>
        now[j] == before[j] && Read(exec.dev.sem, before[j], exec.dev.Mem()) == Ok(final[j])
    ensures exec.steps[Key(k, node)].Jitted? ==>
        (Read(exec.dev.sem, before[j], exec.dev.Mem()) == Ok(was) <==> final[j] == was)
  {
    hide SafeLoop, LoopReady, ShapeLaw, EvalLoop, Enters, AllTainted, Touched;
    ghost var key := Key(k, node);
    ghost var step := exec.steps[key];
    now := exec.RunWhile(node, k, args, top, a, t, vs, final, fuel);
    StateHolds(exec.dev.sem, node.body, k, top, SupportAll(args), t, now, final, exec.dev.Mem(), exec.dev.owner,
        old(|exec.dev.bufs|));
    HoldsAt(exec.dev.sem, now, exec.dev.Mem(), final);
    if exec.steps[key].Jitted? {
      assert exec.steps[key] == step;
    }
  }

  lemma {:induction false} CountedSafe(sem: Sem, inner: Node, k: Path, s: set<Path>)
    requires Counted(inner) && (s == {} || s == {k})
    ensures SafeLoop(sem, inner, k, [{}, s], [{k}, {k}])
  {
    hide SafeLoop, NodeWf, NoneLoops, RequiresEager, Invariant;
    var a: seq<set<Path>> := [{}, s];
    assert a[..1][..0] == [] && UnionOf(a[..1][..0]) == {};
    assert UnionOf(a[..1]) == {} && UnionOf(a) == s;
    assert s + {k} == {k};
    assert OwnTaints(inner, k, a) == [{k}, {k}];
    InnermostSafe(sem, inner, k, a);
  }

  /** What is kept of a pass is where the inner loop left it, or in a buffer of its own. */
  lemma {:induction false} KeptTaint(sem: Sem, body: Sub, k: Path, top: Path, s: set<nat>, rs: seq<Tensor>,
      vs: seq<Value>, t: Tensor, mem: Memory, o: seq<Option<Path>>, mem': Memory, o': seq<Option<Path>>, n: nat)
    requires |rs| == |vs| == 2 && LoopState(sem, body, k, top, s, [{k}, {k}], rs, vs, mem, o, n) && o <= o'
    requires Settled(sem, rs[1], t, vs[1], mem', o', |o|)
    ensures AllTainted(BaseBuf(sem, t), o', top, {k})
  {
    assert VarOk(sem, body, k, top, s, {k}, 1, rs[1], vs[1], mem, o, n);
    BaseInSupport(sem, rs[1]);
    if t != rs[1] {
      assert BaseBuf(sem, t) == {t.b};
    }
  }

  /** One pass of that outer loop's body, node by node, and the realizing after it: from clean operands
      it is right. */
  method FirstPass(exec: Executable, inner: Node, k: Path, z: Value, x: Tensor, ghost top: Path, ghost v0: Value,
      ghost first: seq<Value>, ghost fuel: nat) returns (rs: seq<Tensor>, one: seq<Tensor>)
    requires exec.StepsOk() && ShapeLaw(exec.dev.sem) && Counted(inner) && top <= k
    requires |first| == 2 && LoopReady(exec.dev.sem, inner, [z, v0])
    requires Enters(exec.dev.sem, exec.blobs, inner, [z, v0], fuel)
    requires EvalLoop(exec.dev.sem, exec.blobs, inner, [z, v0], fuel, fuel) == Ok(first)
    requires Read(exec.dev.sem, x, exec.dev.Mem()) == Ok(v0) && Concrete(x)
    requires AllTainted(Support(x), exec.dev.owner, top, {})
    modifies exec, exec.dev
    ensures exec.StepsOk() && Key(k, inner) in exec.steps && |one| == |rs| == 2
    ensures Holds(exec.dev.sem, one, exec.dev.Mem(), [first[1], v0])
    ensures AllTainted(BaseBuf(exec.dev.sem, one[0]), exec.dev.owner, top, {k})
    ensures IsCaptured(exec.steps[Key(k, inner)]) ==>
        Replayed(inner.body, exec.steps[Key(k, inner)].jit.outs, rs) && rs[1] == one[0]
  {
    hide SafeLoop, LoopReady, ShapeLaw, EvalLoop, Enters, Touched, LoopState, NodeWf, NoneLoops, RequiresEager,
        Returned, Invariant, StepOk, Support, SupportAll, AllTainted;
    ghost var sem, owner0, mem0, n0 := exec.dev.sem, exec.dev.owner, exec.dev.Mem(), |exec.dev.bufs|;
    var args := [Lit(z, false), x];
    HoldsAt(sem, args, mem0, [z, v0]);
    CountedSafe(sem, inner, k, {});
    CleanBases(sem, z, x, owner0, top);
    rs := exec.RunWhile(inner, k, args, top, [{}, {}], [{k}, {k}], [z, v0], first, fuel);
    StateHolds(sem, inner.body, k, top, SupportAll(args), [{k}, {k}], rs, first, exec.dev.Mem(), exec.dev.owner, n0);
    HoldsAt(sem, rs, exec.dev.Mem(), first);
    TaintClear(Support(x), owner0, top, {}, k);
    ClearReads(sem, x, mem0, exec.dev.Mem(), owner0, exec.dev.owner, k);
    HoldsAt(sem, [rs[1], x], exec.dev.Mem(), [first[1], v0]);
    label ran:
    ghost var mem1, owner1 := exec.dev.Mem(), exec.dev.owner;
    one := RealizeAll(exec.dev, [rs[1], x], [first[1], v0]);
    exec.StepsLater@ran();
    KeptTaint(sem, inner.body, k, top, SupportAll(args), rs, first, one[0], mem1, owner1, exec.dev.Mem(),
        exec.dev.owner, n0);
    HoldsAt(sem, one, exec.dev.Mem(), [first[1], v0]);
  }

  lemma {:induction false} CleanBases(sem: Sem, z: Value, x: Tensor, o: seq<Option<Path>>, top: Path)
    requires AllTainted(Support(x), o, top, {})
    ensures AllTainted(BaseBuf(sem, x), o, top, {}) && AllTainted(BaseBuf(sem, Lit(z, false)), o, top, {})
  {
    BaseInSupport(sem, x);
  }

  /** Two passes.  Once the inner loop's step is captured, the variable that should keep the x from
      before the second pass reads as the x after it. */
  method ConvergeRun(exec: Executable, inner: Node, k: Path, z: Value, x: Tensor, ghost top: Path,
                     ghost v0: Value, ghost first: seq<Value>, ghost second: seq<Value>, ghost fuel: nat)
      returns (two: seq<Tensor>, captured: bool)
    requires exec.StepsOk() && ShapeLaw(exec.dev.sem) && Counted(inner) && top <= k
    requires |first| == |second| == 2 && LoopReady(exec.dev.sem, inner, [z, v0])
    requires LoopReady(exec.dev.sem, inner, [z, first[1]])
    requires EvalLoop(exec.dev.sem, exec.blobs, inner, [z, v0], fuel, fuel) == Ok(first)
    requires Enters(exec.dev.sem, exec.blobs, inner, [z, v0], fuel)
    requires EvalLoop(exec.dev.sem, exec.blobs, inner, [z, first[1]], fuel, fuel) == Ok(second)
    requires Enters(exec.dev.sem, exec.blobs, inner, [z, first[1]], fuel)
    requires Read(exec.dev.sem, x, exec.dev.Mem()) == Ok(v0) && Concrete(x)
    requires AllTainted(Support(x), exec.dev.owner, top, {})
    modifies exec, exec.dev
    ensures exec.StepsOk() && |two| == 2 && Read(exec.dev.sem, two[0], exec.dev.Mem()) == Ok(second[1])
    ensures captured ==>
        two[1] == two[0] && (Read(exec.dev.sem, two[1], exec.dev.Mem()) == Ok(first[1]) <==> second[1] == first[1])
  {
    hide SafeLoop, LoopReady, ShapeLaw, EvalLoop, Enters, Touched, LoopState, NodeWf, NoneLoops, RequiresEager,
        Returned, Invariant, StepOk, Support, SupportAll, AllTainted, Replayed, BaseBuf;
    ghost var sem, key := exec.dev.sem, Key(k, inner);
    var rs, one := FirstPass(exec, inner, k, z, x, top, v0, first, fuel);
    ghost var n1 := |exec.dev.bufs|;
    captured := IsCaptured(exec.steps[Key(k, inner)]);
    var args, next := [Lit(z, false), one[0]], [];
    HoldsAt(sem, one, exec.dev.Mem(), [first[1], v0]);
    HoldsAt(sem, args, exec.dev.Mem(), [z, first[1]]);
    CountedSafe(sem, inner, k, {k});
    NoBase(sem, z, exec.dev.owner, top);
    if captured {
      next := EnterAgain(exec, inner, k, args, rs, 1, first[1], top, [{}, {k}], [{k}, {k}], [z, first[1]], second,
          fuel);
    } else {
      next := exec.RunWhile(inner, k, args, top, [{}, {k}], [{k}, {k}], [z, first[1]], second, fuel);
    }
    StateHolds(sem, inner.body, k, top, SupportAll(args), [{k}, {k}], next, second, exec.dev.Mem(), exec.dev.owner, n1);
    HoldsAt(sem, next, exec.dev.Mem(), second);
    captured := captured && exec.steps[Key(k, inner)].Jitted?;
    two := [next[1], one[0]];
  }

  lemma {:induction false} NoBase(sem: Sem, z: Value, o: seq<Option<Path>>, top: Path)
    ensures AllTainted(BaseBuf(sem, Lit(z, false)), o, top, {})
  {
  }

  // -- an instance ---------------------------------------------------------------------------

  const CELL := Spec([], "s32")
  const TURN := Op("turn", map[], None, CELL)
  const PAIR := [GraphInput(0, 0, CELL), GraphInput(1, 1, CELL)]
  const COUNTER := Sub(PAIR, [], [], [Out(0, CELL)])
  const TURN_BOTH := Sub(PAIR, [], [Compute(2, TURN, [0]), Compute(3, TURN, [1])], [Out(2, CELL), Out(3, CELL)])

  /** Turns the counter and x until the counter is false. */
  const TURNS := While([2, 0], COUNTER, TURN_BOTH, [Out(3, CELL), Out(4, CELL)])

  /** Three values in a ring, of which one is false. */
  predicate Ring(sem: Sem, u: Value, v: Value, w: Value) {
    && sem.apply(TURN, [u]) == v && sem.apply(TURN, [v]) == w && sem.apply(TURN, [w]) == u
    && sem.truthy(u) && sem.truthy(v) && !sem.truthy(w)
  }

  lemma {:induction false} TurnOnce(sem: Sem, blobs: seq<Bytes>, i: Value, x: Value, fuel: nat)
    ensures EvalSub(sem, blobs, COUNTER, [i, x], [], fuel) == Ok([i])
    ensures EvalSub(sem, blobs, TURN_BOTH, [i, x], [], fuel) == Ok([sem.apply(TURN, [i]), sem.apply(TURN, [x])])
  {
    var e: Env, e1: Env := map[0 := i, 1 := x], map[0 := i, 1 := x, 2 := sem.apply(TURN, [i])];
    var none: Env := map[];
    assert PAIR[..1][..0] == [] && PAIR[..1] == [PAIR[0]];
    assert BindInputs(PAIR[..1][..0], [i, x], none) == Ok(none);
    assert BindInputs(PAIR[..1], [i, x], none) == Ok(map[0 := i]);
    assert BindInputs(PAIR, [i, x], none) == Ok(e);
    assert OutIds(COUNTER.outputs) == [0];
    assert Lookup(e, [0]).value == [i] && Lookup(e, [1]).value == [x];
    var nodes := TURN_BOTH.nodes;
    assert nodes[..1] == [nodes[0]] && nodes[..1][..0] == [];
    assert EvalNodes(sem, blobs, nodes[..1][..0], e, [], fuel) == Ok(e);
    BindOne([2], [sem.apply(TURN, [i])], e);
    assert EvalNodes(sem, blobs, nodes[..1], e, [], fuel) == Ok(e1);
    assert Lookup(e1, [1]).value == [x];
    BindOne([3], [sem.apply(TURN, [x])], e1);
    var e2 := e1[3 := sem.apply(TURN, [x])];
    assert EvalNodes(sem, blobs, nodes, e, [], fuel) == Ok(e2);
    assert OutIds(TURN_BOTH.outputs) == [2, 3];
    assert Lookup(e2, [2, 3]).value == [sem.apply(TURN, [i]), sem.apply(TURN, [x])];
  }

  /** The second pass leaves another x than the first: run as above, the outer loop is wrong. */
  lemma {:induction false} TurnsDiffer(sem: Sem, blobs: seq<Bytes>, u: Value, v: Value, w: Value, fuel: nat)
    requires Ring(sem, u, v, w) && fuel >= 2
    ensures Enters(sem, blobs, TURNS, [u, u], fuel) && EvalLoop(sem, blobs, TURNS, [u, u], fuel, fuel) == Ok([w, w])
    ensures Enters(sem, blobs, TURNS, [u, w], fuel) && EvalLoop(sem, blobs, TURNS, [u, w], fuel, fuel) == Ok([w, v])
    ensures v != w
  {
    hide EvalSub;
    TurnOnce(sem, blobs, u, u, fuel);
    TurnOnce(sem, blobs, v, v, fuel);
    TurnOnce(sem, blobs, w, w, fuel);
    TurnOnce(sem, blobs, u, w, fuel);
    TurnOnce(sem, blobs, v, u, fuel);
    TurnOnce(sem, blobs, w, v, fuel);
    assert EvalLoop(sem, blobs, TURNS, [w, w], fuel - 2, fuel) == Ok([w, w]);
    assert EvalLoop(sem, blobs, TURNS, [v, v], fuel - 1, fuel) == Ok([w, w]);
    assert EvalLoop(sem, blobs, TURNS, [w, v], fuel - 2, fuel) == Ok([w, v]);
    assert EvalLoop(sem, blobs, TURNS, [v, u], fuel - 1, fuel) == Ok([w, v]);
  }

  lemma {:induction false} PairIds()
    ensures InputIds(PAIR) == multiset{0, 1} && InputIdAt(PAIR, 1) == Some(1) && InputIdAt(PAIR, 0) == Some(0)
  {
    assert PAIR[..1] == [PAIR[0]] && PAIR[..1][..0] == [];
    assert InputIds(PAIR[..1]) == multiset{0};
  }

  lemma {:induction false} CounterOk()
    ensures SubOk(COUNTER)
  {
    PairIds();
    assert Range(1) == multiset{0} && Range(2) == multiset{0, 1};
    assert OutIds(COUNTER.outputs) == [0];
  }

  lemma {:induction false} TurnBothIds()
    ensures NodeIds(TURN_BOTH.nodes) == multiset{2, 3} && NodesOk(TURN_BOTH.nodes, 4)
  {
    var nodes := TURN_BOTH.nodes;
    assert nodes[..1] == [nodes[0]] && nodes[..1][..0] == [];
    assert NodeIds(nodes[..1]) == multiset{2};
    assert NodesOk(nodes[..1], 3);
  }

  lemma {:induction false} TurnBothOk()
    ensures SubOk(TURN_BOTH)
  {
    hide NodesOk;
    PairIds();
    TurnBothIds();
    assert Range(1) == multiset{0} && Range(2) == multiset{0, 1};
    assert Range(3) == multiset{0, 1, 2};
    assert Range(4) == multiset{0, 1, 2, 3};
    assert OutIds(TURN_BOTH.outputs) == [2, 3];
  }

  lemma {:induction false} TurnsCounted()
    ensures Counted(TURNS)
  {
    hide SubOk;
    CounterOk();
    TurnBothOk();
    PairIds();
    hide InputIdAt;
    var nodes := TURN_BOTH.nodes;
    assert NodeWf(nodes[0]) && NodeWf(nodes[1]);
    assert NodeWf(TURNS);
    assert !Loops(nodes[0]) && !Loops(nodes[1]);
    assert Innermost(TURNS);
    assert !NodeRequiresEager(nodes[0]) && !NodeRequiresEager(nodes[1]);
    assert !RequiresEager(TURN_BOTH);
    assert !Invariant(TURN_BOTH, 0);
    assert !Invariant(TURN_BOTH, 1);
    assert OutIds(TURNS.outputs) == [3, 4];
  }

  /** The loop fits any two values of the shape it declares. */
  lemma {:induction false} TurnsReady(sem: Sem, u: Value, v: Value)
    requires sem.fits(TURN, [[]]) && sem.shape(u) == [] && sem.shape(v) == []
    ensures LoopReady(sem, TURNS, [u, v])
  {
    hide Counted, SubOk;
    TurnsCounted();
    assert NodeWf(TURNS) by { CountedWf(TURNS); }
    var s, shapes := ShapesOfValues(sem, [u, v]), DeclaredShapes(TURN_BOTH);
    assert s == [[], []];
    TurnShapes();
    assert TypedInputs(PAIR, s, DeclaredShapes(COUNTER)) && TypedInputs(PAIR, s, shapes);
    var nodes := TURN_BOTH.nodes;
    forall i | 0 <= i < 2 ensures TypedNode(sem, nodes[i], shapes) {
      assert nodes[i].inputs[..1] == nodes[i].inputs && ShapesOf([i], shapes) == [[]];
      assert Stripped(TURN) == TURN;
    }
    assert nodes[..1] == [nodes[0]] && nodes[..1][..0] == [];
    assert TypedNodes(sem, [], shapes) && TypedNodes(sem, nodes[..1], shapes) && TypedNodes(sem, nodes, shapes);
    assert TypedSub(sem, TURN_BOTH, s);
    assert TypedSub(sem, COUNTER, s);
    assert OutIds(TURN_BOTH.outputs) == [2, 3];
    assert ShapesOf([2, 3], shapes) == s;
  }

  lemma CountedWf(node: Node)
    requires Counted(node)
    ensures NodeWf(node)
  {
  }

  lemma TurnShapes()
    ensures DeclaredShapes(COUNTER) == map[0 := [], 1 := []]
    ensures DeclaredShapes(TURN_BOTH) == map[0 := [], 1 := [], 2 := [], 3 := []]
  {
    assert PAIR[..1] == [PAIR[0]] && PAIR[..1][..0] == [];
    assert InputShapes(PAIR[..1]) == map[0 := []];
    var pair, nodes := InputShapes(PAIR), TURN_BOTH.nodes;
    assert pair == map[0 := [], 1 := []];
    assert ConstantShapes([], pair) == pair && NodeShapes([], pair) == pair;
    assert nodes[..1] == [nodes[0]] && nodes[..1][..0] == [];
    assert NodeShapes(nodes[..1], pair) == map[0 := [], 1 := [], 2 := []];
  }

  /** In every such ring the two passes go wrong: once the step is captured, the x from before the
      second pass, w, reads as the x after it. */
  method ConvergeTurns(exec: Executable, k: Path, u: Value, x: Tensor, ghost top: Path, ghost v: Value, ghost w: Value)
      returns (two: seq<Tensor>, captured: bool)
    requires exec.StepsOk() && ShapeLaw(exec.dev.sem) && Ring(exec.dev.sem, u, v, w) && top <= k
    requires exec.dev.sem.fits(TURN, [[]]) && exec.dev.sem.shape(u) == []
    requires Read(exec.dev.sem, x, exec.dev.Mem()) == Ok(u) && Concrete(x)
    requires AllTainted(Support(x), exec.dev.owner, top, {})
    modifies exec, exec.dev
    ensures exec.StepsOk() && |two| == 2 && Read(exec.dev.sem, two[0], exec.dev.Mem()) == Ok(v)
    ensures captured ==> Read(exec.dev.sem, two[1], exec.dev.Mem()) == Ok(v) && v != w
  {
    hide LoopReady, EvalLoop, Enters, Counted, AllTainted, Support, StepOk;
    ghost var sem := exec.dev.sem;
    RingShapes(sem, u, v, w);
    TurnsCounted();
    TurnsReady(sem, u, u);
    TurnsReady(sem, u, w);
    TurnsDiffer(sem, exec.blobs, u, v, w, 2);
    two, captured := ConvergeRun(exec, TURNS, k, u, x, top, u, [w, w], [w, v], 2);
  }

  lemma RingShapes(sem: Sem, u: Value, v: Value, w: Value)
    requires ShapeLaw(sem) && Ring(sem, u, v, w) && sem.fits(TURN, [[]]) && sem.shape(u) == []
    ensures sem.shape(v) == [] && sem.shape(w) == []
  {
    assert ShapesOfValues(sem, [u]) == [[]];
    assert sem.shape(sem.apply(TURN, [u])) == [];
    assert ShapesOfValues(sem, [v]) == [[]];
  }
}
