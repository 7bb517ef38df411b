/** When a run meets an id that nothing defines.  The worker's check looks at ids in the top-level list
    alone; what is in a loop or a fold is met, or not, when it runs. */
module Undefined {
  import opened Values
  import opened GraphIR
  import opened GraphForm
  import opened Validator

  // -- what a graph promises -------------------------------------------------------------

  /** In one list, no id is used before its definition. */
  ghost predicate IdsDefined(sub: Sub) {
    && RefsDefined(sub.nodes, InputIds(sub.inputs) + ConstantIds(sub.constants))
    && RefsIn(OutIds(sub.outputs), AllIds(sub.inputs, sub.constants, sub.nodes))
  }

  /** So in every list, at any depth. */
  ghost predicate DefinedThroughout(sub: Sub)
    decreases sub, 0
  {
    IdsDefined(sub) && forall k :: 0 <= k < |sub.nodes| ==> NodeDefined(sub.nodes[k])
  }

  ghost predicate NodeDefined(node: Node)
    decreases node, 0
  {
    match node
    case Compute(_, _, _) => true
    case Fold(_, _, _, _, _, fn, _) => DefinedThroughout(fn)
    case While(_, cond, body, _) => DefinedThroughout(cond) && DefinedThroughout(body)
  }

  /** So in every list that a run is sure to meet: not in the body of a loop, which may not be
      entered, nor in the function of a fold over nothing. */
  ghost predicate DefinedOnSight(sub: Sub)
    decreases sub, 0
  {
    IdsDefined(sub) && forall k :: 0 <= k < |sub.nodes| ==> NodeOnSight(sub.nodes[k])
  }

  ghost predicate NodeOnSight(node: Node)
    decreases node, 0
  {
    match node
    case Compute(_, _, _) => true
    case Fold(_, _, _, _, count, fn, _) => count > 0 ==> DefinedOnSight(fn)
    case While(_, cond, _, _) => DefinedOnSight(cond)
  }

  /** Parameters, operands and blobs that are named by position are there: n parameters, nb blobs;
      and no window has more axes than a bound. */
  predicate InRange(sub: Sub, n: nat, nb: nat, rank: nat)
    decreases sub, 0
  {
    && (forall k :: 0 <= k < |sub.inputs| ==> sub.inputs[k].index < n)
    && (forall k :: 0 <= k < |sub.constants| && sub.constants[k].source.Data? ==> sub.constants[k].source.index < nb)
    && forall k :: 0 <= k < |sub.nodes| ==> NodeInRange(sub.nodes[k], nb, rank)
  }

  predicate NodeInRange(node: Node, nb: nat, rank: nat)
    decreases node, 0
  {
    match node
    case Compute(_, k, inputs) => k.Op? || (k.Window? && WindowInRange(k, |inputs|, rank))
    case Fold(_, _, _, inputs, _, fn, _) => |inputs| == 2 && fn.outputs != [] && InRange(fn, 2, nb, rank)
    case While(inputs, cond, body, outputs) =>
      && |outputs| == |inputs| == |body.outputs| && cond.outputs != []
      && InRange(cond, |inputs|, nb, rank) && InRange(body, |inputs|, nb, rank)
  }

  predicate WindowInRange(k: Kernel, n: nat, rank: nat)
    requires k.Window?
  {
    && n >= FirstStart(k.wop) && |k.starts| <= rank && (k.wop.Slice? ==> |k.lengths| == |k.starts|)
    && forall i :: 0 <= i < |k.starts| ==>
        !k.starts[i].Symbolic? && (k.starts[i].Input? ==> FirstStart(k.wop) + k.starts[i].k < n)
  }

  // -- the ids an environment has ----------------------------------------------------------

  ghost predicate Exactly(env: Env, m: multiset<nat>) {
    forall id :: id in env <==> id in m
  }

  lemma {:induction false} ConstantsExact(sem: Sem, blobs: seq<Bytes>, constants: seq<Constant>)
    requires forall k :: 0 <= k < |constants| && constants[k].source.Data? ==> constants[k].source.index < |blobs|
    ensures BindConstants(sem, blobs, constants).Ok?
    ensures Exactly(BindConstants(sem, blobs, constants).value, ConstantIds(constants))
  {
    if constants != [] {
      ConstantsExact(sem, blobs, constants[..|constants| - 1]);
    }
  }

  lemma {:induction false} InputsExact(inputs: seq<GraphInput>, params: seq<Value>, env: Env, m: multiset<nat>)
    requires Exactly(env, m) && forall k :: 0 <= k < |inputs| ==> inputs[k].index < |params|
    ensures BindInputs(inputs, params, env).Ok? && Exactly(BindInputs(inputs, params, env).value, m + InputIds(inputs))
  {
    if inputs != [] {
      InputsExact(inputs[..|inputs| - 1], params, env, m);
    }
  }

  lemma {:induction false} BoundExact(ids: seq<nat>, values: seq<Value>, env: Env, m: multiset<nat>)
    requires Exactly(env, m) && |ids| <= |values|
    ensures Exactly(Bind(ids, values, env), m + multiset(ids))
  {
    if ids != [] {
      var init := ids[..|ids| - 1];
      BoundExact(init, values, env, m);
      assert ids == init + [ids[|ids| - 1]];
      assert multiset(ids) == multiset(init) + multiset{ids[|ids| - 1]};
    }
  }

  /** A list starts with its constants and parameters. */
  lemma {:induction false} StartExact(sem: Sem, blobs: seq<Bytes>, sub: Sub, params: seq<Value>, n: nat, rank: nat)
    requires InRange(sub, n, |blobs|, rank) && n <= |params|
    ensures InitialEnv(sem, blobs, sub, params).Ok?
    ensures Exactly(InitialEnv(sem, blobs, sub, params).value, InputIds(sub.inputs) + ConstantIds(sub.constants))
  {
    ConstantsExact(sem, blobs, sub.constants);
    var env := BindConstants(sem, blobs, sub.constants).value;
    InputsExact(sub.inputs, params, env, ConstantIds(sub.constants));
    assert ConstantIds(sub.constants) + InputIds(sub.inputs) == InputIds(sub.inputs) + ConstantIds(sub.constants);
  }

  lemma FoundExactly(env: Env, m: multiset<nat>, ids: seq<nat>)
    requires Exactly(env, m)
    ensures Lookup(env, ids).Ok? <==> RefsIn(ids, m)
    ensures Lookup(env, ids).Ok? || Lookup(env, ids).Stuck?
  {
  }

  lemma {:induction false} RefsSplit(nodes: seq<Node>, known: multiset<nat>)
    requires nodes != []
    ensures var init := nodes[..|nodes| - 1];
            RefsDefined(nodes, known) <==>
                RefsDefined(init, known) && RefsIn(nodes[|nodes| - 1].inputs, known + NodeIds(init))
  {
    hide RefsIn, NodeIds;
    var init := nodes[..|nodes| - 1];
    if RefsDefined(nodes, known) {
      forall k | 0 <= k < |init| ensures RefsIn(init[k].inputs, known + NodeIds(init[..k])) {
        assert init[..k] == nodes[..k];
        assert RefsIn(nodes[k].inputs, known + NodeIds(nodes[..k]));
      }
    }
    if RefsDefined(init, known) && RefsIn(nodes[|nodes| - 1].inputs, known + NodeIds(init)) {
      forall k | 0 <= k < |nodes| ensures RefsIn(nodes[k].inputs, known + NodeIds(nodes[..k])) {
        if k < |init| {
          assert init[..k] == nodes[..k];
          assert RefsIn(init[k].inputs, known + NodeIds(init[..k]));
        }
      }
    }
  }

  /** A loop's state keeps its size. */
  lemma {:induction false} LoopSize(sem: Sem, blobs: seq<Bytes>, node: Node, state: seq<Value>, left: nat, fuel: nat)
    requires node.While? && |state| == |node.body.outputs|
    ensures var r := EvalLoop(sem, blobs, node, state, left, fuel); r.Ok? ==> |r.value| == |state|
    decreases left
  {
    hide EvalSub;
    if left > 0 {
      var next := EvalSub(sem, blobs, node.body, state, [], fuel);
      if next.Ok? {
        assert |next.value| == |node.body.outputs|;
        LoopSize(sem, blobs, node, next.value, left - 1, fuel);
      }
    }
  }

  /** A node defines all its ids. */
  lemma {:induction false} ResultsSize(sem: Sem, blobs: seq<Bytes>, node: Node, args: seq<Value>, nb: nat, rank: nat,
      fuel: nat)
    requires NodeInRange(node, nb, rank) && |args| == |node.inputs|
    ensures var r := NodeResults(sem, blobs, node, args, [], fuel); r.Ok? ==> |r.value| == |DefinedIds(node)|
  {
    if node.While? {
      LoopSize(sem, blobs, node, args, fuel, fuel);
    }
  }

  lemma {:induction false} NodesExact(sem: Sem, blobs: seq<Bytes>, nodes: seq<Node>, env: Env, m: multiset<nat>,
      nb: nat, rank: nat, fuel: nat)
    requires (forall k :: 0 <= k < |nodes| ==> NodeInRange(nodes[k], nb, rank)) && Exactly(env, m)
    requires EvalNodes(sem, blobs, nodes, env, [], fuel).Ok?
    ensures Exactly(EvalNodes(sem, blobs, nodes, env, [], fuel).value, m + NodeIds(nodes))
  {
    hide NodeResults, NodeInRange, Exactly;
    if nodes == [] {
      assert m + NodeIds(nodes) == m;
    } else {
      var init, last := nodes[..|nodes| - 1], nodes[|nodes| - 1];
      NodesExact(sem, blobs, init, env, m, nb, rank, fuel);
      var mid := EvalNodes(sem, blobs, init, env, [], fuel).value;
      var args := Lookup(mid, last.inputs).value;
      ResultsSize(sem, blobs, last, args, nb, rank, fuel);
      BoundExact(DefinedIds(last), NodeResults(sem, blobs, last, args, [], fuel).value, mid, m + NodeIds(init));
      assert m + NodeIds(nodes) == m + NodeIds(init) + multiset(DefinedIds(last));
    }
  }

  // -- never stuck ---------------------------------------------------------------------------

  lemma {:induction false} StartsFound(sem: Sem, k: Kernel, args: seq<Value>, n: nat, rank: nat)
    requires k.Window? && WindowInRange(k, |args|, rank) && n <= |k.starts|
    ensures !ResolveStarts(sem, k, args, [], n).Stuck?
  {
    if n > 0 {
      StartsFound(sem, k, args, n - 1, rank);
    }
  }

  /** With every id defined before its use, at every depth, no run of any kind meets an undefined one. */
  lemma {:induction false} NeverStuck(sem: Sem, blobs: seq<Bytes>, sub: Sub, args: seq<Value>, n: nat, rank: nat,
      fuel: nat)
    requires InRange(sub, n, |blobs|, rank) && n <= |args| && DefinedThroughout(sub)
    ensures !EvalSub(sem, blobs, sub, args, [], fuel).Stuck?
    decreases sub, 0
  {
    hide NodeInRange, NodeDefined, Exactly;
    StartExact(sem, blobs, sub, args, n, rank);
    var env := InitialEnv(sem, blobs, sub, args).value;
    var known := InputIds(sub.inputs) + ConstantIds(sub.constants);
    NodesNeverStuck(sem, blobs, sub.nodes, env, known, rank, fuel);
    var r := EvalNodes(sem, blobs, sub.nodes, env, [], fuel);
    if r.Ok? {
      NodesExact(sem, blobs, sub.nodes, env, known, |blobs|, rank, fuel);
      FoundExactly(r.value, known + NodeIds(sub.nodes), OutIds(sub.outputs));
    }
  }

  lemma {:induction false} NodesNeverStuck(sem: Sem, blobs: seq<Bytes>, nodes: seq<Node>, env: Env,
      known: multiset<nat>, rank: nat, fuel: nat)
    requires Exactly(env, known) && RefsDefined(nodes, known)
    requires forall k :: 0 <= k < |nodes| ==> NodeInRange(nodes[k], |blobs|, rank) && NodeDefined(nodes[k])
    ensures !EvalNodes(sem, blobs, nodes, env, [], fuel).Stuck?
    decreases nodes, 0
  {
    hide NodeInRange, NodeDefined, Exactly, NodeResults, RefsDefined;
    if nodes != [] {
      var init, last := nodes[..|nodes| - 1], nodes[|nodes| - 1];
      RefsSplit(nodes, known);
      NodesNeverStuck(sem, blobs, init, env, known, rank, fuel);
      var mid := EvalNodes(sem, blobs, init, env, [], fuel);
      if mid.Ok? {
        NodesExact(sem, blobs, init, env, known, |blobs|, rank, fuel);
        FoundExactly(mid.value, known + NodeIds(init), last.inputs);
        NodeNeverStuck(sem, blobs, last, Lookup(mid.value, last.inputs).value, rank, fuel);
      }
    }
  }

  lemma {:induction false} NodeNeverStuck(sem: Sem, blobs: seq<Bytes>, node: Node, args: seq<Value>, rank: nat,
      fuel: nat)
    requires NodeInRange(node, |blobs|, rank) && NodeDefined(node) && |args| == |node.inputs|
    ensures !NodeResults(sem, blobs, node, args, [], fuel).Stuck?
    decreases node, 2
  {
    hide InRange, DefinedThroughout, EvalSub;
    match node
    case Compute(_, k, _) =>
      if k.Window? {
        StartsFound(sem, k, args, |k.starts|, rank);
      }
    case Fold(_, op, attrs, _, count, _, _) =>
      FoldNeverStuck(sem, blobs, node, args[0], sem.apply(FoldInit(op, attrs), args), count, rank, fuel);
    case While(_, _, _, _) =>
      LoopNeverStuck(sem, blobs, node, args, fuel, rank, fuel);
  }

  lemma {:induction false} FoldNeverStuck(sem: Sem, blobs: seq<Bytes>, node: Node, t: Value, init: Value, i: nat,
      rank: nat, fuel: nat)
    requires node.Fold? && NodeInRange(node, |blobs|, rank) && NodeDefined(node)
    ensures !EvalFold(sem, blobs, node, t, init, i, fuel).Stuck?
    decreases node, 1, i
  {
    hide InRange, DefinedThroughout, EvalSub;
    if i > 0 {
      FoldNeverStuck(sem, blobs, node, t, init, i - 1, rank, fuel);
      var acc := EvalFold(sem, blobs, node, t, init, i - 1, fuel);
      if acc.Ok? {
        NeverStuck(sem, blobs, node.fn, [acc.value, sem.apply(Element(node.op, node.attrs, i - 1), [t])], 2, rank,
            fuel);
      }
    }
  }

  lemma {:induction false} LoopNeverStuck(sem: Sem, blobs: seq<Bytes>, node: Node, state: seq<Value>, left: nat,
      rank: nat, fuel: nat)
    requires node.While? && NodeInRange(node, |blobs|, rank) && NodeDefined(node) && |state| == |node.inputs|
    ensures !EvalLoop(sem, blobs, node, state, left, fuel).Stuck?
    decreases node, 1, left
  {
    hide InRange, DefinedThroughout, EvalSub;
    NeverStuck(sem, blobs, node.cond, state, |node.inputs|, rank, fuel);
    if left > 0 {
      NeverStuck(sem, blobs, node.body, state, |node.inputs|, rank, fuel);
      var next := EvalSub(sem, blobs, node.body, state, [], fuel);
      if next.Ok? {
        LoopNeverStuck(sem, blobs, node, next.value, left - 1, rank, fuel);
      }
    }
  }

  // -- a run that gives a value has met none ------------------------------------------------------

  /** Whatever the operations mean: a list with an undefined id never gives a value. */
  lemma {:induction false} ValueDefined(sem: Sem, blobs: seq<Bytes>, sub: Sub, args: seq<Value>, n: nat, rank: nat,
      fuel: nat)
    requires InRange(sub, n, |blobs|, rank) && n <= |args| && EvalSub(sem, blobs, sub, args, [], fuel).Ok?
    ensures IdsDefined(sub)
  {
    hide NodeInRange, Exactly, EvalNodes;
    StartExact(sem, blobs, sub, args, n, rank);
    var env := InitialEnv(sem, blobs, sub, args).value;
    var known := InputIds(sub.inputs) + ConstantIds(sub.constants);
    NodesDefined(sem, blobs, sub.nodes, env, known, rank, fuel);
    NodesExact(sem, blobs, sub.nodes, env, known, |blobs|, rank, fuel);
    FoundExactly(EvalNodes(sem, blobs, sub.nodes, env, [], fuel).value, known + NodeIds(sub.nodes),
        OutIds(sub.outputs));
  }

  lemma {:induction false} NodesDefined(sem: Sem, blobs: seq<Bytes>, nodes: seq<Node>, env: Env, known: multiset<nat>,
      rank: nat, fuel: nat)
    requires Exactly(env, known) && EvalNodes(sem, blobs, nodes, env, [], fuel).Ok?
    requires forall k :: 0 <= k < |nodes| ==> NodeInRange(nodes[k], |blobs|, rank)
    ensures RefsDefined(nodes, known)
  {
    hide NodeInRange, Exactly, NodeResults, RefsIn;
    if nodes != [] {
      var init, last := nodes[..|nodes| - 1], nodes[|nodes| - 1];
      NodesDefined(sem, blobs, init, env, known, rank, fuel);
      NodesExact(sem, blobs, init, env, known, |blobs|, rank, fuel);
      FoundExactly(EvalNodes(sem, blobs, init, env, [], fuel).value, known + NodeIds(init), last.inputs);
      RefsSplit(nodes, known);
    }
  }

  /** A loop that gives a value has met its condition, and its body if it was entered. */
  lemma {:induction false} LoopDefined(sem: Sem, blobs: seq<Bytes>, node: Node, state: seq<Value>, left: nat, rank: nat,
      fuel: nat)
    requires node.While? && NodeInRange(node, |blobs|, rank) && |state| == |node.inputs|
    requires EvalLoop(sem, blobs, node, state, left, fuel).Ok?
    ensures IdsDefined(node.cond)
    ensures EvalSub(sem, blobs, node.cond, state, [], fuel).Ok?
    ensures EvalSub(sem, blobs, node.cond, state, [], fuel).value != []
    ensures sem.truthy(EvalSub(sem, blobs, node.cond, state, [], fuel).value[0]) ==> IdsDefined(node.body)
  {
    hide InRange, EvalSub, IdsDefined;
    ValueDefined(sem, blobs, node.cond, state, |node.inputs|, rank, fuel);
    if sem.truthy(EvalSub(sem, blobs, node.cond, state, [], fuel).value[0]) {
      ValueDefined(sem, blobs, node.body, state, |node.inputs|, rank, fuel);
    }
  }

  lemma {:induction false} FoldDefined(sem: Sem, blobs: seq<Bytes>, node: Node, t: Value, init: Value, i: nat,
      rank: nat, fuel: nat)
    requires node.Fold? && NodeInRange(node, |blobs|, rank) && i > 0 && EvalFold(sem, blobs, node, t, init, i, fuel).Ok?
    ensures IdsDefined(node.fn)
  {
    hide InRange, EvalSub, IdsDefined;
    var acc := EvalFold(sem, blobs, node, t, init, i - 1, fuel).value;
    ValueDefined(sem, blobs, node.fn, [acc, sem.apply(Element(node.op, node.attrs, i - 1), [t])], 2, rank, fuel);
  }

  // -- some run meets it ------------------------------------------------------------------------

  /** A meaning in which every operation succeeds, and loops are all entered, or none is. */
  function Plain(u: Value, c: Elem, rank: nat, enters: bool): Sem {
    Sem((_: Kernel, _: seq<Value>) => u, (_: Kernel, _: seq<Value>, _: seq<int>) => u, (_: Number, _: Spec) => u,
        (_: Bytes, _: Spec) => u,
        (_: Value) => seq(rank, _ => 1), (_: Value) => enters, (_: Value) => 0.0, (_: string) => false,
        (_: Kernel, _: seq<seq<nat>>) => true, (_: Spec, _: seq<Value>, _: seq<Value>, d: Value) => d,
        (_: Value, _: Coord) => c, (_: Elem) => true, (_: Spec, e: Elem) => e)
  }

  lemma {:induction false} PlainStarts(u: Value, c: Elem, rank: nat, enters: bool, k: Kernel, args: seq<Value>, n: nat)
    requires k.Window? && WindowInRange(k, |args|, rank) && n <= |k.starts|
    ensures ResolveStarts(Plain(u, c, rank, enters), k, args, [], n).Ok?
  {
    if n > 0 {
      PlainStarts(u, c, rank, enters, k, args, n - 1);
      var sem := Plain(u, c, rank, enters);
      assert |sem.shape(args[0])| == rank;
      assert !k.wop.Slice? ==> |sem.shape(args[1])| == rank;
    }
  }

  /** There, a graph gives a value if its ids are defined in every list that a run is sure to meet,
      and is stuck if not. */
  lemma {:induction false} PlainRun(u: Value, c: Elem, rank: nat, enters: bool, blobs: seq<Bytes>, sub: Sub,
      args: seq<Value>, n: nat, fuel: nat)
    requires InRange(sub, n, |blobs|, rank) && n <= |args| && (enters ==> NoneLoops(sub.nodes))
    ensures var r := EvalSub(Plain(u, c, rank, enters), blobs, sub, args, [], fuel);
            (DefinedOnSight(sub) ==> r.Ok?) && (!DefinedOnSight(sub) ==> r.Stuck?)
    decreases sub, 0
  {
    hide NodeInRange, NodeOnSight, Exactly, Plain, Loops, RefsIn;
    var sem := Plain(u, c, rank, enters);
    StartExact(sem, blobs, sub, args, n, rank);
    var env := InitialEnv(sem, blobs, sub, args).value;
    var known := InputIds(sub.inputs) + ConstantIds(sub.constants);
    PlainNodes(u, c, rank, enters, blobs, sub.nodes, env, known, fuel);
    var r := EvalNodes(sem, blobs, sub.nodes, env, [], fuel);
    if r.Ok? {
      NodesExact(sem, blobs, sub.nodes, env, known, |blobs|, rank, fuel);
      FoundExactly(r.value, known + NodeIds(sub.nodes), OutIds(sub.outputs));
    }
  }

  ghost predicate ListOnSight(nodes: seq<Node>, known: multiset<nat>) {
    RefsDefined(nodes, known) && forall k :: 0 <= k < |nodes| ==> NodeOnSight(nodes[k])
  }

  lemma {:induction false} PlainNodes(u: Value, c: Elem, rank: nat, enters: bool, blobs: seq<Bytes>, nodes: seq<Node>,
      env: Env, known: multiset<nat>, fuel: nat)
    requires Exactly(env, known) && (forall k :: 0 <= k < |nodes| ==> NodeInRange(nodes[k], |blobs|, rank))
    requires (enters ==> NoneLoops(nodes))
    ensures var r := EvalNodes(Plain(u, c, rank, enters), blobs, nodes, env, [], fuel);
            (ListOnSight(nodes, known) ==> r.Ok?) && (!ListOnSight(nodes, known) ==> r.Stuck?)
    decreases nodes, 0
  {
    hide NodeInRange, NodeOnSight, Exactly, NodeResults, RefsDefined, Plain, Loops, RefsIn, ListOnSight;
    var sem := Plain(u, c, rank, enters);
    if nodes == [] {
      assert ListOnSight(nodes, known) by { NoRefs(nodes, known); }
    } else {
      var init, last := nodes[..|nodes| - 1], nodes[|nodes| - 1];
      ListSplit(nodes, known);
      PlainNodes(u, c, rank, enters, blobs, init, env, known, fuel);
      var mid := EvalNodes(sem, blobs, init, env, [], fuel);
      if mid.Ok? {
        NodesExact(sem, blobs, init, env, known, |blobs|, rank, fuel);
        FoundExactly(mid.value, known + NodeIds(init), last.inputs);
        if Lookup(mid.value, last.inputs).Ok? {
          PlainNode(u, c, rank, enters, blobs, last, Lookup(mid.value, last.inputs).value, fuel);
        }
      }
    }
  }

  lemma {:induction false} ListSplit(nodes: seq<Node>, known: multiset<nat>)
    requires nodes != []
    ensures var init, last := nodes[..|nodes| - 1], nodes[|nodes| - 1];
            ListOnSight(nodes, known) <==>
                ListOnSight(init, known) && RefsIn(last.inputs, known + NodeIds(init)) && NodeOnSight(last)
  {
    hide RefsDefined, NodeOnSight, RefsIn;
    RefsSplit(nodes, known);
  }

  lemma NoRefs(nodes: seq<Node>, known: multiset<nat>)
    requires nodes == []
    ensures ListOnSight(nodes, known)
  {
  }

  lemma {:induction false} PlainNode(u: Value, c: Elem, rank: nat, enters: bool, blobs: seq<Bytes>, node: Node,
      args: seq<Value>, fuel: nat)
    requires NodeInRange(node, |blobs|, rank) && |args| == |node.inputs| && (enters ==> !Loops(node))
    ensures var r := NodeResults(Plain(u, c, rank, enters), blobs, node, args, [], fuel);
            (NodeOnSight(node) ==> r.Ok?) && (!NodeOnSight(node) ==> r.Stuck?)
    decreases node, 2
  {
    hide InRange, DefinedOnSight, EvalSub;
    var sem := Plain(u, c, rank, enters);
    match node
    case Compute(_, k, _) =>
      if k.Window? {
        PlainStarts(u, c, rank, enters, k, args, |k.starts|);
      }
    case Fold(_, op, attrs, _, count, _, _) =>
      PlainFold(u, c, rank, enters, blobs, node, args[0], sem.apply(FoldInit(op, attrs), args), count, fuel);
    case While(_, cond, _, _) =>
      PlainRun(u, c, rank, enters, blobs, cond, args, |args|, fuel);
  }

  lemma {:induction false} PlainFold(u: Value, c: Elem, rank: nat, enters: bool, blobs: seq<Bytes>, node: Node,
      t: Value, init: Value, i: nat, fuel: nat)
    requires node.Fold? && NodeInRange(node, |blobs|, rank) && (enters ==> !Loops(node))
    ensures var r := EvalFold(Plain(u, c, rank, enters), blobs, node, t, init, i, fuel);
            (i == 0 || DefinedOnSight(node.fn) ==> r.Ok?) && (i > 0 && !DefinedOnSight(node.fn) ==> r.Stuck?)
    decreases node, 1, i
  {
    hide InRange, DefinedOnSight, EvalSub, Plain;
    var sem := Plain(u, c, rank, enters);
    if i > 0 {
      PlainFold(u, c, rank, enters, blobs, node, t, init, i - 1, fuel);
      var acc := EvalFold(sem, blobs, node, t, init, i - 1, fuel);
      if acc.Ok? {
        PlainRun(u, c, rank, enters, blobs, node.fn, [acc.value, sem.apply(Element(node.op, node.attrs, i - 1), [t])],
            2, fuel);
      }
    }
  }

  // -- accepted graphs -----------------------------------------------------------------------------

  lemma AcceptedTop(cfg: Config, g: Sub, blobs: seq<Bytes>)
    requires Accepted(cfg, g, blobs)
    ensures IdsDefined(g)
  {
  }

  /** An accepted graph whose loops and folds define their ids as well never meets an undefined one:
      for every meaning of the operations, all arguments and any number of iterations. */
  lemma AcceptedRuns(cfg: Config, g: Sub, blobs: seq<Bytes>, sem: Sem, args: seq<Value>, rank: nat, fuel: nat)
    requires Accepted(cfg, g, blobs) && InRange(g, |args|, |blobs|, rank) && forall k :: 0 <= k < |g.nodes| ==>
        NodeDefined(g.nodes[k])
    ensures !EvalSub(sem, blobs, g, args, [], fuel).Stuck?
  {
    hide Accepted, InRange, NodeDefined, IdsDefined;
    AcceptedTop(cfg, g, blobs);
    NeverStuck(sem, blobs, g, args, |args|, rank, fuel);
  }

  /** And exactly those: with no loop entered, an accepted graph is stuck if the condition of a loop, or
      the function of a fold that visits anything, has an undefined id; otherwise it gives a value. */
  lemma AcceptedExactly(cfg: Config, g: Sub, blobs: seq<Bytes>, u: Value, c: Elem, args: seq<Value>, rank: nat,
      fuel: nat)
    requires Accepted(cfg, g, blobs) && InRange(g, |args|, |blobs|, rank)
    ensures EvalSub(Plain(u, c, rank, false), blobs, g, args, [], fuel).Stuck? <==>
        exists k :: 0 <= k < |g.nodes| && !NodeOnSight(g.nodes[k])
  {
    hide Accepted, InRange, NodeOnSight, IdsDefined, Plain, EvalSub;
    AcceptedTop(cfg, g, blobs);
    PlainRun(u, c, rank, false, blobs, g, args, |args|, fuel);
  }

  /** A loop that is entered, after nodes that are fine: stuck if its body has an undefined id. */
  lemma {:induction false} AcceptedBody(cfg: Config, g: Sub, blobs: seq<Bytes>, u: Value, c: Elem, args: seq<Value>,
      rank: nat, i: nat, fuel: nat)
    requires Accepted(cfg, g, blobs) && InRange(g, |args|, |blobs|, rank) && fuel > 0
    requires i < |g.nodes| && g.nodes[i].While? && NoneLoops(g.nodes[..i])
    requires (forall k :: 0 <= k <= i ==> NodeOnSight(g.nodes[k]))
    requires NoneLoops(g.nodes[i].cond.nodes) && NoneLoops(g.nodes[i].body.nodes) && !DefinedOnSight(g.nodes[i].body)
    ensures EvalSub(Plain(u, c, rank, true), blobs, g, args, [], fuel).Stuck?
  {
    hide NodeInRange, NodeOnSight, Exactly, Plain, Accepted, IdsDefined, EvalNodes, RefsIn, Loops, NodeResults;
    var sem, node := Plain(u, c, rank, true), g.nodes[i];
    AcceptedTop(cfg, g, blobs);
    StartExact(sem, blobs, g, args, |args|, rank);
    var env, known := InitialEnv(sem, blobs, g, args).value, InputIds(g.inputs) + ConstantIds(g.constants);
    TopRefs(g, i);
    PlainNodes(u, c, rank, true, blobs, g.nodes[..i], env, known, fuel);
    NodesExact(sem, blobs, g.nodes[..i], env, known, |blobs|, rank, fuel);
    var mid := EvalNodes(sem, blobs, g.nodes[..i], env, [], fuel).value;
    FoundExactly(mid, known + NodeIds(g.nodes[..i]), node.inputs);
    BodyStuck(u, c, rank, blobs, node, Lookup(mid, node.inputs).value, fuel);
    assert g.nodes[..i + 1][..i] == g.nodes[..i];
    StuckThere(sem, blobs, g.nodes[..i + 1], env, fuel);
    StuckStays(sem, blobs, g.nodes, i + 1, env, fuel);
  }

  lemma TopRefs(g: Sub, i: nat)
    requires IdsDefined(g) && i < |g.nodes|
    ensures RefsDefined(g.nodes[..i], InputIds(g.inputs) + ConstantIds(g.constants))
    ensures RefsIn(g.nodes[i].inputs, InputIds(g.inputs) + ConstantIds(g.constants) + NodeIds(g.nodes[..i]))
  {
    forall k | 0 <= k < i
      ensures RefsIn(g.nodes[..i][k].inputs, InputIds(g.inputs) + ConstantIds(g.constants) + NodeIds(g.nodes[..i][..k]))
    {
      assert g.nodes[..i][..k] == g.nodes[..k];
    }
  }

  lemma {:induction false} BodyStuck(u: Value, c: Elem, rank: nat, blobs: seq<Bytes>, node: Node, args: seq<Value>,
      fuel: nat)
    requires node.While? && NodeInRange(node, |blobs|, rank) && |args| == |node.inputs| && fuel > 0 && NodeOnSight(node)
    requires NoneLoops(node.cond.nodes) && NoneLoops(node.body.nodes) && !DefinedOnSight(node.body)
    ensures NodeResults(Plain(u, c, rank, true), blobs, node, args, [], fuel).Stuck?
  {
    hide InRange, DefinedOnSight, EvalSub, NoneLoops;
    PlainRun(u, c, rank, true, blobs, node.cond, args, |args|, fuel);
    PlainRun(u, c, rank, true, blobs, node.body, args, |args|, fuel);
  }

  lemma StuckThere(sem: Sem, blobs: seq<Bytes>, nodes: seq<Node>, env: Env, fuel: nat)
    requires nodes != [] && EvalNodes(sem, blobs, nodes[..|nodes| - 1], env, [], fuel).Ok?
    requires var mid := EvalNodes(sem, blobs, nodes[..|nodes| - 1], env, [], fuel).value;
             Lookup(mid, nodes[|nodes| - 1].inputs).Ok? &&
             NodeResults(sem, blobs, nodes[|nodes| - 1], Lookup(mid, nodes[|nodes| - 1].inputs).value, [], fuel).Stuck?
    ensures EvalNodes(sem, blobs, nodes, env, [], fuel).Stuck?
  {
  }

  lemma {:induction false} StuckStays(sem: Sem, blobs: seq<Bytes>, nodes: seq<Node>, i: nat, env: Env, fuel: nat)
    requires i <= |nodes| && EvalNodes(sem, blobs, nodes[..i], env, [], fuel).Stuck?
    ensures EvalNodes(sem, blobs, nodes, env, [], fuel).Stuck?
  {
    if i == |nodes| {
      assert nodes[..i] == nodes;
    } else {
      assert nodes[..|nodes| - 1][..i] == nodes[..i];
      StuckStays(sem, blobs, nodes[..|nodes| - 1], i, env, fuel);
    }
  }

  /** Lowered graphs define their ids in every list. */
  lemma {:induction false} LoweredDefined(sub: Sub)
    requires SubOk(sub)
    ensures DefinedThroughout(sub)
    decreases sub
  {
    WellFormedIds(sub);
    hide IdsOk, IdsDefined;
    assert IdsDefined(sub) by { TopDefined(sub); }
    forall k | 0 <= k < |sub.nodes| ensures NodeDefined(sub.nodes[k]) {
      FirstBelow(sub.nodes, |AllIds(sub.inputs, sub.constants, sub.nodes)|, k);
      match sub.nodes[k]
      case Compute(_, _, _) =>
      case Fold(_, _, _, _, _, fn, _) => LoweredDefined(fn);
      case While(_, cond, body, _) =>
        LoweredDefined(cond);
        LoweredDefined(body);
    }
  }

  lemma TopDefined(g: Sub)
    requires IdsOk(g)
    ensures IdsDefined(g)
  {
  }
}
