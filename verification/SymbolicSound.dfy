/** The rewritten loop body, run on the clamped starts, computes what the original body computes. */
module SymbolicSound {
  import opened Values
  import opened GraphIR
  import opened GraphForm
  import opened Typing
  import opened SymbolicPlan

  /** Ancestors of the start operands, evaluated from the loop state alone. */
  function AncestorEnv(sem: Sem, blobs: seq<Bytes>, body: Sub, plan: Plan, state: seq<Value>, fuel: nat): Outcome<Env> {
    var env :- BindConstants(sem, blobs, plan.constants);
    var env :- BindInputs(body.inputs, state, env);
    EvalNodes(sem, blobs, plan.ancestors, env, [], fuel)
  }

  /** The value each variable is bound to: its start operand, clamped on the host. */
  function BoundValues(sem: Sem, uses: seq<Use>, env: Env): (bound: seq<int>)
    requires forall k :: 0 <= k < |uses| ==> uses[k].id in env
    ensures |bound| == |uses|
    ensures forall k :: 0 <= k < |uses| ==> bound[k] == Clamp(IntOf(sem.toNumber(env[uses[k].id])), uses[k].hi)
  {
    seq(|uses|, k requires 0 <= k < |uses| => Clamp(IntOf(sem.toNumber(env[uses[k].id])), uses[k].hi))
  }

  predicate NoLoops(nodes: seq<Node>) {
    forall k :: 0 <= k < |nodes| ==> !nodes[k].While?
  }

  predicate NoSymbolic(nodes: seq<Node>) {
    forall k :: 0 <= k < |nodes| ==> nodes[k].Compute? && nodes[k].kernel.Window? ==> NoSymbolicStarts(nodes[k].kernel)
  }

  /** What the second environment must know about the ids in `ids`. */
  predicate AgreeOn(full: Env, part: Env, ids: set<nat>) {
    forall id :: id in ids && id in full ==> id in part && part[id] == full[id]
  }

  // -- ancestors --------------------------------------------------------------

  lemma {:induction false} AncestorsAgree(sem: Sem, blobs: seq<Bytes>, nodes: seq<Node>, needed: set<nat>, full: Env,
      part: Env, fuel: nat)
    requires NoLoops(nodes) && AgreeOn(full, part, Ancestors(nodes, needed).1)
    requires EvalNodes(sem, blobs, nodes, full, [], fuel).Ok?
    ensures var r := EvalNodes(sem, blobs, Ancestors(nodes, needed).0, part, [], fuel);
            r.Ok? && AgreeOn(EvalNodes(sem, blobs, nodes, full, [], fuel).value, r.value, needed)
    decreases |nodes|
  {
    if nodes != [] {
      var last := nodes[|nodes| - 1];
      var init := nodes[..|nodes| - 1];
      var before := EvalNodes(sem, blobs, init, full, [], fuel).value;
      var args := Lookup(before, last.inputs).value;
      var results := NodeResults(sem, blobs, last, args, [], fuel).value;
      assert !last.While?;
      assert |results| == 1 && DefinedIds(last) == [last.id];
      BindOne(DefinedIds(last), results, before);
      if last.id in needed {
        var more := needed + SetOf(last.inputs);
        AncestorsAgree(sem, blobs, init, more, full, part, fuel);
        var anc := Ancestors(init, more).0;
        var found := EvalNodes(sem, blobs, anc, part, [], fuel).value;
        assert forall i :: 0 <= i < |last.inputs| ==> last.inputs[i] in SetOf(last.inputs);
        assert Lookup(found, last.inputs).value == args;
        assert (anc + [last])[..|anc + [last]| - 1] == anc;
        BindOne(DefinedIds(last), results, found);
      } else {
        AncestorsAgree(sem, blobs, init, needed, full, part, fuel);
      }
    }
  }

  lemma {:induction false} ConstantsAgree(sem: Sem, blobs: seq<Bytes>, constants: seq<Constant>, needed: set<nat>)
    requires BindConstants(sem, blobs, constants).Ok?
    ensures var r := BindConstants(sem, blobs, NeededConstants(constants, needed));
            r.Ok? && AgreeOn(BindConstants(sem, blobs, constants).value, r.value, needed)
  {
    if constants != [] {
      var last := |constants| - 1;
      ConstantsAgree(sem, blobs, constants[..last], needed);
      var kept := NeededConstants(constants[..last], needed);
      assert (kept + [constants[last]])[..|kept|] == kept;
      assert kept + [] == kept;
    }
  }

  lemma {:induction false} InputsAgree(inputs: seq<GraphInput>, params: seq<Value>, full: Env, part: Env,
      needed: set<nat>)
    requires AgreeOn(full, part, needed) && BindInputs(inputs, params, full).Ok?
    ensures var r := BindInputs(inputs, params, part);
            r.Ok? && AgreeOn(BindInputs(inputs, params, full).value, r.value, needed)
  {
    if inputs != [] {
      InputsAgree(inputs[..|inputs| - 1], params, full, part, needed);
    }
  }

  /** Evaluating the ancestors alone finds the start values the whole body finds. */
  lemma AncestorsSuffice(sem: Sem, blobs: seq<Bytes>, body: Sub, state: seq<Value>, fuel: nat)
    requires InputsDeclared(body.nodes, DeclaredShapes(body)) && NoLoops(body.nodes)
    requires InitialEnv(sem, blobs, body, state).Ok?
    requires EvalNodes(sem, blobs, body.nodes, InitialEnv(sem, blobs, body, state).value, [], fuel).Ok?
    ensures var plan := PlanOf(body);
            var scratch := AncestorEnv(sem, blobs, body, plan, state, fuel);
            && scratch.Ok?
            && AgreeOn(EvalNodes(sem, blobs, body.nodes, InitialEnv(sem, blobs, body, state).value, [], fuel).value,
                       scratch.value, UseIds(plan.uses))
  {
    var uses := PlanOf(body).uses;
    var all := Ancestors(body.nodes, UseIds(uses)).1;
    ConstantsAgree(sem, blobs, body.constants, all);
    var full := BindConstants(sem, blobs, body.constants).value;
    var part := BindConstants(sem, blobs, PlanOf(body).constants).value;
    InputsAgree(body.inputs, state, full, part, all);
    AncestorsAgree(sem, blobs, body.nodes, UseIds(uses), BindInputs(body.inputs, state, full).value,
        BindInputs(body.inputs, state, part).value, fuel);
  }

  // -- ids are defined once -----------------------------------------------------

  predicate KeysWithin(env: Env, ids: multiset<nat>) {
    forall id :: id in env ==> id in ids
  }

  ghost predicate Unique(ids: multiset<nat>) {
    forall id: nat :: ids[id] <= 1
  }

  lemma {:induction false} NodeIdsPrefix(nodes: seq<Node>, n: nat)
    requires n <= |nodes|
    ensures NodeIds(nodes[..n]) <= NodeIds(nodes)
  {
    if n < |nodes| {
      assert nodes[..|nodes| - 1][..n] == nodes[..n];
      NodeIdsPrefix(nodes[..|nodes| - 1], n);
    } else {
      assert nodes[..n] == nodes;
    }
  }

  lemma {:induction false} NodesStep(sem: Sem, blobs: seq<Bytes>, nodes: seq<Node>, env: Env, sym: seq<int>, fuel: nat)
    requires nodes != [] && NoLoops(nodes) && EvalNodes(sem, blobs, nodes, env, sym, fuel).Ok?
    ensures var last := nodes[|nodes| - 1];
            var before := EvalNodes(sem, blobs, nodes[..|nodes| - 1], env, sym, fuel);
            && before.Ok? && Lookup(before.value, last.inputs).Ok?
            && var r := NodeResults(sem, blobs, last, Lookup(before.value, last.inputs).value, sym, fuel);
            && r.Ok? && |r.value| == 1
            && EvalNodes(sem, blobs, nodes, env, sym, fuel).value == before.value[last.id := r.value[0]]
  {
    var last := nodes[|nodes| - 1];
    var before := EvalNodes(sem, blobs, nodes[..|nodes| - 1], env, sym, fuel).value;
    assert !last.While?;
    var r := NodeResults(sem, blobs, last, Lookup(before, last.inputs).value, sym, fuel).value;
    BindOne(DefinedIds(last), r, before);
  }

  lemma {:induction false} KeysGrow(sem: Sem, blobs: seq<Bytes>, nodes: seq<Node>, env: Env, sym: seq<int>, fuel: nat,
      base: multiset<nat>)
    requires NoLoops(nodes) && KeysWithin(env, base) && EvalNodes(sem, blobs, nodes, env, sym, fuel).Ok?
    ensures KeysWithin(EvalNodes(sem, blobs, nodes, env, sym, fuel).value, base + NodeIds(nodes))
    decreases |nodes|
  {
    if nodes != [] {
      NodesStep(sem, blobs, nodes, env, sym, fuel);
      KeysGrow(sem, blobs, nodes[..|nodes| - 1], env, sym, fuel, base);
    }
  }

  /** What a prefix of the nodes defines, the rest leaves alone. */
  lemma {:induction false} PrefixStable(sem: Sem, blobs: seq<Bytes>, nodes: seq<Node>, n: nat, env: Env, sym: seq<int>,
      fuel: nat, base: multiset<nat>)
    requires n <= |nodes| && NoLoops(nodes) && KeysWithin(env, base) && Unique(base + NodeIds(nodes))
    requires EvalNodes(sem, blobs, nodes, env, sym, fuel).Ok?
    ensures var early := EvalNodes(sem, blobs, nodes[..n], env, sym, fuel);
            var all := EvalNodes(sem, blobs, nodes, env, sym, fuel).value;
            early.Ok? && forall id :: id in early.value ==> id in all && all[id] == early.value[id]
    decreases |nodes|
  {
    if n == |nodes| {
      assert nodes[..n] == nodes;
    } else {
      var last := nodes[|nodes| - 1];
      var init := nodes[..|nodes| - 1];
      NodesStep(sem, blobs, nodes, env, sym, fuel);
      assert init[..n] == nodes[..n];
      UniquePrefix(base, nodes);
      PrefixStable(sem, blobs, init, n, env, sym, fuel, base);
      KeysGrow(sem, blobs, init, env, sym, fuel, base);
      assert last.id !in EvalNodes(sem, blobs, init, env, sym, fuel).value by {
        assert DefinedIds(last) == [last.id];
        assert (base + NodeIds(nodes))[last.id] == (base + NodeIds(init))[last.id] + 1;
      }
    }
  }

  lemma UniquePrefix(base: multiset<nat>, nodes: seq<Node>)
    requires nodes != [] && Unique(base + NodeIds(nodes))
    ensures Unique(base + NodeIds(nodes[..|nodes| - 1]))
  {
    var init := nodes[..|nodes| - 1];
    forall id: nat ensures (base + NodeIds(init))[id] <= 1 {
      assert (base + NodeIds(nodes))[id] <= 1;
    }
  }

  // -- the rewriting --------------------------------------------------------------

  lemma {:induction false} RewritePrefix(nodes: seq<Node>, shapes: Shapes, n: nat)
    requires InputsDeclared(nodes, shapes) && n <= |nodes|
    ensures var (all, uses) := RewriteNodes(nodes, shapes);
            var (some, first) := RewriteNodes(nodes[..n], shapes);
            some == all[..n] && first <= uses
  {
    if n < |nodes| {
      assert nodes[..|nodes| - 1][..n] == nodes[..n];
      RewritePrefix(nodes[..|nodes| - 1], shapes, n);
    } else {
      assert nodes[..n] == nodes;
    }
  }

  /** Every variable has room to move. */
  lemma {:induction false} StartUses(node: Node, shapes: Shapes, n: nat, before: nat)
    requires HasDynamicStarts(node) && AllIn(node.inputs, shapes) && n <= |node.kernel.starts|
    ensures forall u :: u in RewriteStarts(node, shapes, n, before).1 ==> u.hi > 0
  {
    if n > 0 {
      StartUses(node, shapes, n - 1, before);
    }
  }

  lemma {:induction false} UsesPositive(nodes: seq<Node>, shapes: Shapes)
    requires InputsDeclared(nodes, shapes)
    ensures forall u :: u in RewriteNodes(nodes, shapes).1 ==> u.hi > 0
  {
    if nodes != [] {
      UsesPositive(nodes[..|nodes| - 1], shapes);
      var last := nodes[|nodes| - 1];
      if HasDynamicStarts(last) {
        StartUses(last, shapes, |last.kernel.starts|, |RewriteNodes(nodes[..|nodes| - 1], shapes).1|);
      }
    }
  }

  /** Variable number i holds the clamped start of this use. */
  predicate BoundAt(sem: Sem, bound: seq<int>, i: nat, u: Use, env: Env) {
    i < |bound| && u.id in env && bound[i] == Clamp(IntOf(sem.toNumber(env[u.id])), u.hi)
  }

  predicate BoundTo(sem: Sem, bound: seq<int>, before: nat, uses: seq<Use>, env: Env) {
    forall k :: 0 <= k < |uses| ==> BoundAt(sem, bound, before + k, uses[k], env)
  }

  lemma ClampTwice(raw: int, hi: int)
    ensures Clamp(Clamp(raw, hi), hi) == Clamp(raw, hi)
    ensures hi <= 0 ==> Clamp(0, hi) == Clamp(raw, hi) == 0
  {
  }

  /** One axis: the symbolic or pinned start is the start the operation would have clamped to. */
  lemma StartSound(sem: Sem, node: Node, shapes: Shapes, args: seq<Value>, env: Env, axis: nat, before: nat,
      bound: seq<int>, k': Kernel)
    requires HasDynamicStarts(node) && AllIn(node.inputs, shapes) && axis < |node.kernel.starts|
    requires NoSymbolicStarts(node.kernel)
    requires Lookup(env, node.inputs) == Ok(args) && Shaped(sem, env, shapes)
    requires ResolveStart(sem, node.kernel, args, [], axis).Ok?
    requires BoundTo(sem, bound, before, RewriteStart(node, shapes, axis, before).1, env)
    requires k'.Window? && k' == node.kernel.(starts := k'.starts) && axis < |k'.starts|
    requires k'.starts[axis] == RewriteStart(node, shapes, axis, before).0
    ensures ResolveStart(sem, k', args, bound, axis) == ResolveStart(sem, node.kernel, args, [], axis)
  {
    var s := node.kernel.starts[axis];
    if s.Input? {
      var hi := DeclaredRoom(node, shapes, axis);
      assert Room(sem, node.kernel, args, axis) == Ok(hi);
      assert Room(sem, k', args, axis) == Ok(hi);
      var first := FirstStart(node.kernel.wop);
      assert args[first + s.k] == env[node.inputs[first + s.k]];
      if hi > 0 {
        assert RewriteStart(node, shapes, axis, before).1[0] == Use(node.inputs[first + s.k], hi);
      }
    }
  }

  lemma {:induction false} StartsSound(sem: Sem, node: Node, shapes: Shapes, args: seq<Value>, env: Env, n: nat,
      before: nat, bound: seq<int>, k': Kernel)
    requires HasDynamicStarts(node) && AllIn(node.inputs, shapes) && n <= |node.kernel.starts|
    requires NoSymbolicStarts(node.kernel)
    requires Lookup(env, node.inputs) == Ok(args) && Shaped(sem, env, shapes)
    requires ResolveStarts(sem, node.kernel, args, [], n).Ok?
    requires BoundTo(sem, bound, before, RewriteStarts(node, shapes, n, before).1, env)
    requires k'.Window? && k' == node.kernel.(starts := k'.starts) && n <= |k'.starts|
    requires k'.starts[..n] == RewriteStarts(node, shapes, n, before).0
    ensures ResolveStarts(sem, k', args, bound, n) == ResolveStarts(sem, node.kernel, args, [], n)
    decreases n
  {
    hide ResolveStart, RewriteStart, BoundTo, NoSymbolicStarts, Shaped, Lookup;
    if n > 0 {
      var (starts, uses) := RewriteStarts(node, shapes, n - 1, before);
      var (s, u) := RewriteStart(node, shapes, n - 1, before + |uses|);
      assert k'.starts[..n - 1] == k'.starts[..n][..n - 1] == starts;
      assert k'.starts[n - 1] == k'.starts[..n][n - 1] == s;
      BoundSplit(sem, bound, before, uses, u, env);
      StartsSound(sem, node, shapes, args, env, n - 1, before, bound, k');
      StartSound(sem, node, shapes, args, env, n - 1, before + |uses|, bound, k');
    }
  }

  lemma BoundSplit(sem: Sem, bound: seq<int>, before: nat, uses: seq<Use>, more: seq<Use>, env: Env)
    requires BoundTo(sem, bound, before, uses + more, env)
    ensures BoundTo(sem, bound, before, uses, env) && BoundTo(sem, bound, before + |uses|, more, env)
  {
    var all := uses + more;
    forall k | 0 <= k < |uses| ensures BoundAt(sem, bound, before + k, uses[k], env) {
      assert all[k] == uses[k];
    }
    forall k | 0 <= k < |more| ensures BoundAt(sem, bound, before + |uses| + k, more[k], env) {
      assert all[|uses| + k] == more[k];
      assert BoundAt(sem, bound, before + (|uses| + k), all[|uses| + k], env);
    }
  }

  /** One node: the rewritten node computes what the original does. */
  lemma NodeSound(sem: Sem, blobs: seq<Bytes>, node: Node, shapes: Shapes, args: seq<Value>, env: Env, before: nat,
      bound: seq<int>, fuel: nat)
    requires !node.While? && AllIn(node.inputs, shapes) && NoSymbolic([node])
    requires Lookup(env, node.inputs) == Ok(args) && Shaped(sem, env, shapes)
    requires NodeResults(sem, blobs, node, args, [], fuel).Ok?
    requires BoundTo(sem, bound, before, RewriteNode(node, shapes, before).1, env)
    ensures NodeResults(sem, blobs, RewriteNode(node, shapes, before).0, args, bound, fuel) ==
        NodeResults(sem, blobs, node, args, [], fuel)
  {
    assert [node][0] == node;
    if HasDynamicStarts(node) {
      var k' := RewriteNode(node, shapes, before).0.kernel;
      var n := |node.kernel.starts|;
      assert k'.starts[..n] == k'.starts;
      StartsSound(sem, node, shapes, args, env, n, before, bound, k');
      assert k'.(starts := []) == node.kernel.(starts := []);
    } else if node.Compute? && node.kernel.Window? && |args| >= FirstStart(node.kernel.wop) {
      StartsIgnoreSym(sem, node.kernel, args, bound, |node.kernel.starts|);
    }
  }

  /** Variables hold the clamped starts the whole evaluation finds. */
  predicate BoundFinal(sem: Sem, bound: seq<int>, uses: seq<Use>, final: Env) {
    forall k :: 0 <= k < |uses| ==> BoundIfFound(sem, bound, k, uses[k], final)
  }

  predicate BoundIfFound(sem: Sem, bound: seq<int>, i: nat, u: Use, final: Env) {
    i < |bound| && (u.id in final ==> BoundAt(sem, bound, i, u, final))
  }

  predicate Within(env: Env, final: Env) {
    forall id :: id in env ==> id in final && final[id] == env[id]
  }

  /** Every environment on the way is part of the final one. */
  ghost predicate PrefixesWithin(sem: Sem, blobs: seq<Bytes>, nodes: seq<Node>, env: Env, final: Env, fuel: nat) {
    forall n: nat :: n <= |nodes| ==>
      var r := EvalNodes(sem, blobs, nodes[..n], env, [], fuel);
      r.Ok? && Within(r.value, final)
  }

  lemma {:induction false} StartIds(node: Node, shapes: Shapes, n: nat, before: nat)
    requires HasDynamicStarts(node) && AllIn(node.inputs, shapes) && n <= |node.kernel.starts|
    ensures forall k :: 0 <= k < |RewriteStarts(node, shapes, n, before).1| ==>
        RewriteStarts(node, shapes, n, before).1[k].id in node.inputs
  {
    if n > 0 {
      StartIds(node, shapes, n - 1, before);
    }
  }

  /** The last node's variables, in the environment before it. */
  lemma LastBound(sem: Sem, node: Node, shapes: Shapes, uses: seq<Use>, bound: seq<int>, env: Env, final: Env)
    requires AllIn(node.inputs, shapes) && Within(env, final) && Lookup(env, node.inputs).Ok?
    requires BoundFinal(sem, bound, uses + RewriteNode(node, shapes, |uses|).1, final)
    ensures BoundTo(sem, bound, |uses|, RewriteNode(node, shapes, |uses|).1, env)
    ensures BoundFinal(sem, bound, uses, final)
  {
    var more := RewriteNode(node, shapes, |uses|).1;
    var all := uses + more;
    if HasDynamicStarts(node) {
      StartIds(node, shapes, |node.kernel.starts|, |uses|);
    }
    forall k | 0 <= k < |more| ensures BoundAt(sem, bound, |uses| + k, more[k], env) {
      assert all[|uses| + k] == more[k];
      assert more[k].id in node.inputs;
      assert more[k].id in env && more[k].id in final;
      assert BoundIfFound(sem, bound, |uses| + k, all[|uses| + k], final);
    }
    forall k | 0 <= k < |uses| ensures BoundIfFound(sem, bound, k, uses[k], final) {
      assert all[k] == uses[k];
    }
  }

  /** The whole body, node by node. */
  lemma {:induction false} NodesSound(sem: Sem, blobs: seq<Bytes>, nodes: seq<Node>, shapes: Shapes, env: Env,
      final: Env, bound: seq<int>, fuel: nat)
    requires ShapeLaw(sem) && NoLoops(nodes) && NoSymbolic(nodes) && InputsDeclared(nodes, shapes)
    requires TypedNodes(sem, nodes, shapes)
    requires Shaped(sem, env, shapes) && PrefixesWithin(sem, blobs, nodes, env, final, fuel)
    requires BoundFinal(sem, bound, RewriteNodes(nodes, shapes).1, final)
    ensures EvalNodes(sem, blobs, RewriteNodes(nodes, shapes).0, env, bound, fuel) ==
        EvalNodes(sem, blobs, nodes, env, [], fuel)
    decreases |nodes|, 1
  {
    assert nodes[..|nodes|] == nodes;
    if nodes != [] {
      var last := nodes[|nodes| - 1];
      var init := nodes[..|nodes| - 1];
      assert EvalNodes(sem, blobs, nodes[..|nodes|], env, [], fuel).Ok?;
      NodesStep(sem, blobs, nodes, env, [], fuel);
      assert PrefixesWithin(sem, blobs, init, env, final, fuel) by {
        forall n: nat | n <= |init|
          ensures var r := EvalNodes(sem, blobs, init[..n], env, [], fuel); r.Ok? && Within(r.value, final)
        {
          assert init[..n] == nodes[..n];
        }
      }
      var before := EvalNodes(sem, blobs, init, env, [], fuel).value;
      assert init[..|init|] == init;
      assert Within(before, final);
      NodesShaped(sem, blobs, init, env, shapes, [], fuel);
      LastStep(sem, blobs, nodes, shapes, env, before, final, bound, fuel);
    }
  }

  lemma {:induction false} LastStep(sem: Sem, blobs: seq<Bytes>, nodes: seq<Node>, shapes: Shapes, env: Env,
      before: Env, final: Env, bound: seq<int>, fuel: nat)
    requires ShapeLaw(sem) && nodes != [] && NoLoops(nodes) && NoSymbolic(nodes) && InputsDeclared(nodes, shapes)
    requires TypedNodes(sem, nodes, shapes)
    requires Shaped(sem, env, shapes) && PrefixesWithin(sem, blobs, nodes[..|nodes| - 1], env, final, fuel)
    requires EvalNodes(sem, blobs, nodes[..|nodes| - 1], env, [], fuel) == Ok(before) && Shaped(sem, before, shapes)
    requires Within(before, final)
    requires EvalNodes(sem, blobs, nodes, env, [], fuel).Ok?
    requires BoundFinal(sem, bound, RewriteNodes(nodes, shapes).1, final)
    ensures EvalNodes(sem, blobs, RewriteNodes(nodes, shapes).0, env, bound, fuel) ==
        EvalNodes(sem, blobs, nodes, env, [], fuel)
    decreases |nodes|, 0
  {
    var last := nodes[|nodes| - 1];
    var init := nodes[..|nodes| - 1];
    var (rw, uses) := RewriteNodes(init, shapes);
    var (node', more) := RewriteNode(last, shapes, |uses|);
    NodesStep(sem, blobs, nodes, env, [], fuel);
    assert forall k :: 0 <= k < |init| ==> init[k] == nodes[k];
    hide BoundFinal, BoundTo, PrefixesWithin, Shaped, Within, RewriteNode, NoSymbolic;
    LastBound(sem, last, shapes, uses, bound, before, final);
    NoSymbolicParts(nodes);
    NodesSound(sem, blobs, init, shapes, env, final, bound, fuel);
    var args := Lookup(before, last.inputs).value;
    NodeSound(sem, blobs, last, shapes, args, before, |uses|, bound, fuel);
    RewriteKeeps(last, shapes, |uses|);
    assert (rw + [node'])[..|rw + [node']| - 1] == rw;
  }

  lemma NoSymbolicParts(nodes: seq<Node>)
    requires nodes != [] && NoSymbolic(nodes)
    ensures NoSymbolic(nodes[..|nodes| - 1]) && NoSymbolic([nodes[|nodes| - 1]])
  {
  }

  lemma RewriteKeeps(node: Node, shapes: Shapes, before: nat)
    requires AllIn(node.inputs, shapes)
    ensures var n' := RewriteNode(node, shapes, before).0;
        n'.inputs == node.inputs && DefinedIds(n') == DefinedIds(node)
  {
  }

  // -- the theorem ----------------------------------------------------------------

  /** A body that can be captured: typed for its state, its ids distinct, no loop, and no symbolic
      start before it is rewritten. */
  ghost predicate Capturable(sem: Sem, body: Sub, s: seq<seq<nat>>) {
    && TypedSub(sem, body, s) && SubOk(body)
    && NoLoops(body.nodes) && NoSymbolic(body.nodes)
  }

  lemma {:induction false} TypedDeclares(sem: Sem, nodes: seq<Node>, shapes: Shapes)
    requires TypedNodes(sem, nodes, shapes)
    ensures InputsDeclared(nodes, shapes)
  {
    if nodes != [] {
      TypedDeclares(sem, nodes[..|nodes| - 1], shapes);
    }
  }

  lemma {:induction false} InitialKeys(sem: Sem, blobs: seq<Bytes>, sub: Sub, params: seq<Value>)
    requires InitialEnv(sem, blobs, sub, params).Ok?
    ensures KeysWithin(InitialEnv(sem, blobs, sub, params).value, InputIds(sub.inputs) + ConstantIds(sub.constants))
  {
    ConstantKeys(sem, blobs, sub.constants);
    InputKeys(sub.inputs, params, BindConstants(sem, blobs, sub.constants).value, ConstantIds(sub.constants));
  }

  lemma {:induction false} ConstantKeys(sem: Sem, blobs: seq<Bytes>, constants: seq<Constant>)
    requires BindConstants(sem, blobs, constants).Ok?
    ensures KeysWithin(BindConstants(sem, blobs, constants).value, ConstantIds(constants))
  {
    if constants != [] {
      ConstantKeys(sem, blobs, constants[..|constants| - 1]);
    }
  }

  lemma {:induction false} InputKeys(inputs: seq<GraphInput>, params: seq<Value>, env: Env, base: multiset<nat>)
    requires KeysWithin(env, base) && BindInputs(inputs, params, env).Ok?
    ensures KeysWithin(BindInputs(inputs, params, env).value, InputIds(inputs) + base)
  {
    if inputs != [] {
      InputKeys(inputs[..|inputs| - 1], params, env, base);
    }
  }

  /** Whenever the body has a value, its ancestors alone give every start, each clamped into its
      range, and the rewritten body run on those starts has the same value. */
  lemma SymbolicPlanSound(sem: Sem, blobs: seq<Bytes>, body: Sub, state: seq<Value>, fuel: nat)
    requires ShapeLaw(sem) && Capturable(sem, body, ShapesOfValues(sem, state))
    requires EvalSub(sem, blobs, body, state, [], fuel).Ok?
    ensures InputsDeclared(body.nodes, DeclaredShapes(body))
    ensures var plan := PlanOf(body);
            var scratch := AncestorEnv(sem, blobs, body, plan, state, fuel);
            && scratch.Ok?
            && (forall k :: 0 <= k < |plan.uses| ==> plan.uses[k].id in scratch.value)
            && var bound := BoundValues(sem, plan.uses, scratch.value);
            && (forall k :: 0 <= k < |bound| ==> 0 <= bound[k] <= plan.uses[k].hi)
            && EvalSub(sem, blobs, plan.body, state, bound, fuel) == EvalSub(sem, blobs, body, state, [], fuel)
  {
    var shapes := DeclaredShapes(body);
    TypedDeclares(sem, body.nodes, shapes);
    var plan := PlanOf(body);
    var env := InitialEnv(sem, blobs, body, state).value;
    var final := EvalNodes(sem, blobs, body.nodes, env, [], fuel).value;
    InitialShaped(sem, blobs, body, state);
    AncestorsSuffice(sem, blobs, body, state, fuel);
    var scratch := AncestorEnv(sem, blobs, body, plan, state, fuel).value;
    assert PrefixesWithin(sem, blobs, body.nodes, env, final, fuel) by {
      BodyStable(sem, blobs, body, state, fuel);
    }
    UseIdsFound(sem, blobs, body.nodes, shapes, env, fuel);
    forall k | 0 <= k < |plan.uses| ensures plan.uses[k].id in scratch
        && scratch[plan.uses[k].id] == final[plan.uses[k].id] {
      assert plan.uses[k].id in UseIds(plan.uses);
      assert plan.uses[k].id in final;
    }
    var bound := BoundValues(sem, plan.uses, scratch);
    UsesPositive(body.nodes, shapes);
    forall k | 0 <= k < |bound| ensures 0 <= bound[k] <= plan.uses[k].hi {
      assert plan.uses[k] in plan.uses;
    }
    assert BoundFinal(sem, bound, plan.uses, final);
    NodesSound(sem, blobs, body.nodes, shapes, env, final, bound, fuel);
  }

  lemma BodyStable(sem: Sem, blobs: seq<Bytes>, body: Sub, state: seq<Value>, fuel: nat)
    requires SubOk(body) && NoLoops(body.nodes) && InitialEnv(sem, blobs, body, state).Ok?
    requires EvalNodes(sem, blobs, body.nodes, InitialEnv(sem, blobs, body, state).value, [], fuel).Ok?
    ensures var env := InitialEnv(sem, blobs, body, state).value;
            PrefixesWithin(sem, blobs, body.nodes, env, EvalNodes(sem, blobs, body.nodes, env, [], fuel).value, fuel)
  {
    var env := InitialEnv(sem, blobs, body, state).value;
    var base := InputIds(body.inputs) + ConstantIds(body.constants);
    InitialKeys(sem, blobs, body, state);
    assert Unique(base + NodeIds(body.nodes)) by {
      var ids := AllIds(body.inputs, body.constants, body.nodes);
      RangeSize(|ids|);
      forall id: nat ensures ids[id] <= 1 { assert Range(|ids|)[id] <= 1; }
    }
    forall n: nat | n <= |body.nodes|
      ensures var r := EvalNodes(sem, blobs, body.nodes[..n], env, [], fuel);
              r.Ok? && Within(r.value, EvalNodes(sem, blobs, body.nodes, env, [], fuel).value)
    {
      PrefixStable(sem, blobs, body.nodes, n, env, [], fuel, base);
    }
  }

  /** Every start operand is evaluated by the body. */
  lemma {:induction false} UseIdsFound(sem: Sem, blobs: seq<Bytes>, nodes: seq<Node>, shapes: Shapes, env: Env,
      fuel: nat)
    requires InputsDeclared(nodes, shapes) && NoLoops(nodes) && EvalNodes(sem, blobs, nodes, env, [], fuel).Ok?
    ensures forall k :: 0 <= k < |RewriteNodes(nodes, shapes).1| ==>
              RewriteNodes(nodes, shapes).1[k].id in EvalNodes(sem, blobs, nodes, env, [], fuel).value
    decreases |nodes|
  {
    if nodes != [] {
      var last := nodes[|nodes| - 1];
      var init := nodes[..|nodes| - 1];
      NodesStep(sem, blobs, nodes, env, [], fuel);
      UseIdsFound(sem, blobs, init, shapes, env, fuel);
      var uses := RewriteNodes(init, shapes).1;
      if HasDynamicStarts(last) {
        StartIds(last, shapes, |last.kernel.starts|, |uses|);
      }
    }
  }
}
