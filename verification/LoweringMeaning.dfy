/** Lowering preserves meaning: evaluating the emitted graph, node by node, gives each output
    expression's value. */
module LoweringMeaning {
  import opened Values
  import opened GraphIR
  import opened Lowering
  import opened ExprMeaning

  /** One run: the final blob list, the graph's parameters and the iteration budget. */
  datatype Run = Run(sem: Sem, blobs: seq<Bytes>, params: seq<Value>, fuel: nat)

  /** The value of every id; `None` for those whose computation fails or does not end. */
  type Model = map<nat, Option<Value>>

  ghost predicate Broken(m: Model) {
    exists id :: id in m && m[id].None?
  }

  ghost predicate Extends(m: Model, m': Model) {
    forall id :: id in m ==> id in m' && m'[id] == m[id]
  }

  predicate Known(m: Model, ids: seq<nat>) {
    forall k :: 0 <= k < |ids| ==> ids[k] in m
  }

  predicate AllSome(m: Model, ids: seq<nat>) {
    forall k :: 0 <= k < |ids| ==> ids[k] in m && m[ids[k]].Some?
  }

  function Vals(m: Model, ids: seq<nat>): (vs: seq<Value>)
    requires AllSome(m, ids)
    ensures |vs| == |ids| && forall k :: 0 <= k < |ids| ==> vs[k] == m[ids[k]].value
  {
    seq(|ids|, k requires 0 <= k < |ids| => m[ids[k]].value)
  }

  // -- what a state says about a model --------------------------------------------

  function FrameOf(x: Run, s: Scope): Option<Frame>
    decreases s
  {
    match s
    case Top(_) => Some(Frame(None, x.params))
    case In(inputs, outer) =>
      var fr :- FrameOf(x, outer);
      var vs :- EvalAll(x.sem, inputs, fr, x.fuel);
      Some(Frame(Some(vs), x.params))
  }

  function EvalIn(x: Run, e: Expr, s: Scope): Option<Value> {
    var fr :- FrameOf(x, s);
    Eval(x.sem, e, fr, x.fuel)
  }

  function EvalAllIn(x: Run, es: seq<Expr>, s: Scope): (r: Option<seq<Value>>)
    ensures r.Some? ==> |r.value| == |es|
  {
    var fr :- FrameOf(x, s);
    EvalAll(x.sem, es, fr, x.fuel)
  }

  function EvalTupleIn(x: Run, e: Expr, s: Scope): Option<seq<Value>> {
    var fr :- FrameOf(x, s);
    EvalTuple(x.sem, e, fr, x.fuel)
  }

  /** Of a scope, the first d parameters need only their own part. */
  lemma {:induction false} PartSame(x: Run, d: nat, s: Scope)
    requires FrameOf(x, s).Some?
    ensures FrameOf(x, Part(d, s)).Some? && SameBelow(FrameOf(x, s).value, FrameOf(x, Part(d, s)).value, d)
    decreases s
  {
    if d > 0 && s.In? && d <= |s.inputs| {
      PartSame(x, DemandAll(s.inputs), s.outer);
      EvalAllSame(x.sem, s.inputs, FrameOf(x, s.outer).value, FrameOf(x, Part(DemandAll(s.inputs), s.outer)).value,
          x.fuel);
    }
  }

  /** An expression has one value in all the scopes that agree where its value is decided. */
  lemma HomeSame(x: Run, e: Expr, s: Scope)
    requires FrameOf(x, s).Some?
    ensures EvalIn(x, e, Home(e, s)) == EvalIn(x, e, s) && EvalTupleIn(x, e, Home(e, s)) == EvalTupleIn(x, e, s)
  {
    PartSame(x, Demand(e), s);
    EvalSame(x.sem, e, FrameOf(x, s).value, FrameOf(x, Home(e, s)).value, x.fuel);
    EvalTupleSame(x.sem, e, FrameOf(x, s).value, FrameOf(x, Home(e, s)).value, x.fuel);
  }

  /** A node's ids hold what it computes from its operands. */
  ghost predicate NodeHolds(x: Run, node: Node, m: Model) {
    var ids := DefinedIds(node);
    && Known(m, node.inputs) && Known(m, ids)
    && (AllSome(m, node.inputs) ==>
          var r := NodeResults(x.sem, x.blobs, node, Vals(m, node.inputs), [], x.fuel);
          && !r.Stuck?
          && (r.Ok? ==> |r.value| == |ids| && forall k :: 0 <= k < |ids| ==> m[ids[k]] == Some(r.value[k]))
          && (!r.Ok? ==> exists k :: 0 <= k < |ids| && m[ids[k]].None?))
  }

  predicate InputHolds(x: Run, inp: GraphInput, m: Model) {
    inp.id in m && inp.index < |x.params| && m[inp.id] == Some(x.params[inp.index])
  }

  predicate ConstantHolds(x: Run, c: Constant, m: Model) {
    var v := ConstantValue(x.sem, x.blobs, c);
    c.id in m && v.Ok? && m[c.id] == Some(v.value)
  }

  ghost predicate ItemsHold(x: Run, st: State, m: Model) {
    && (forall k :: 0 <= k < |st.inputs| ==> InputHolds(x, st.inputs[k], m))
    && (forall k :: 0 <= k < |st.constants| ==> ConstantHolds(x, st.constants[k], m))
    && (forall k :: 0 <= k < |st.nodes| ==> NodeHolds(x, st.nodes[k], m))
  }

  predicate Matches(m: Model, ids: seq<nat>, vs: Option<seq<Value>>) {
    AllSome(m, ids) && vs.Some? && vs.value == Vals(m, ids)
  }

  /** What the memo tables remember is right, until something fails. */
  ghost predicate MemoHolds(x: Run, t: Table, st: State, m: Model) {
    && (forall r :: r in st.ids ==>
          r in t.entries && st.ids[r] in m && m[st.ids[r]].Some? &&
          EvalIn(x, t.entries[r].0, t.entries[r].1) == m[st.ids[r]])
    && (forall r :: r in st.tuples ==>
          r in t.entries && Matches(m, st.tuples[r], EvalTupleIn(x, t.entries[r].0, t.entries[r].1)))
  }

  ghost predicate MemoKnown(st: State, m: Model) {
    && (forall r :: r in st.ids ==> st.ids[r] in m)
    && (forall r :: r in st.tuples ==> Known(m, st.tuples[r]))
  }

  ghost predicate Holds(x: Run, t: Table, st: State, m: Model) {
    && (forall id: nat :: id in m <==> id < st.counter)
    && ItemsHold(x, st, m)
    && MemoKnown(st, m)
    && (!Broken(m) ==> MemoHolds(x, t, st, m))
    && st.blobs <= x.blobs
  }

  /** The parameters in force stand for the scope's block inputs. */
  ghost predicate Bound(x: Run, bind: Option<seq<nat>>, s: Scope, m: Model) {
    match s
    case Top(arity) => bind.None? && arity <= |x.params|
    case In(inputs, _) =>
      && Arity(s) <= |x.params|
      && bind.Some? && |bind.value| == |inputs| && Known(m, bind.value)
      && (!Broken(m) ==> FrameOf(x, s).Some? && Matches(m, bind.value, FrameOf(x, s).value.block))
  }

  /** A new id's value is its expression's, unless something has failed; and nothing new fails
      unless the expression does. */
  ghost predicate Agrees(m: Model, m': Model, id: nat, v: Option<Value>) {
    && Extends(m, m') && id in m'
    && (Broken(m') ==> Broken(m) || v.None?)
    && (!Broken(m') ==> v == m'[id] && v.Some?)
  }

  ghost predicate AllAgree(m: Model, m': Model, ids: seq<nat>, vs: Option<seq<Value>>) {
    && Extends(m, m') && Known(m', ids)
    && (Broken(m') ==> Broken(m) || vs.None?)
    && (!Broken(m') ==> Matches(m', ids, vs))
  }

  // -- growing a model --------------------------------------------------------------

  lemma ExtendsKeeps(x: Run, st: State, m: Model, m': Model)
    requires ItemsHold(x, st, m) && MemoKnown(st, m) && Extends(m, m')
    ensures ItemsHold(x, st, m') && MemoKnown(st, m')
    ensures Broken(m) ==> Broken(m')
  {
    forall k | 0 <= k < |st.nodes| ensures NodeHolds(x, st.nodes[k], m') {
      assert NodeHolds(x, st.nodes[k], m);
      NodeHoldsExtends(x, st.nodes[k], m, m');
    }
    if Broken(m) {
      var id :| id in m && m[id].None?;
      assert id in m' && m'[id].None?;
    }
  }

  lemma NodeHoldsExtends(x: Run, node: Node, m: Model, m': Model)
    requires NodeHolds(x, node, m) && Extends(m, m')
    ensures NodeHolds(x, node, m')
  {
    var ids := DefinedIds(node);
    if AllSome(m', node.inputs) {
      assert AllSome(m, node.inputs);
      assert Vals(m, node.inputs) == Vals(m', node.inputs);
    }
  }

  lemma MemoExtends(x: Run, t: Table, st: State, m: Model, m': Model)
    requires MemoHolds(x, t, st, m) && Extends(m, m')
    ensures MemoHolds(x, t, st, m')
  {
    forall r | r in st.tuples
      ensures r in t.entries && Matches(m', st.tuples[r], EvalTupleIn(x, t.entries[r].0, t.entries[r].1))
    {
      MatchesExtends(m, m', st.tuples[r], EvalTupleIn(x, t.entries[r].0, t.entries[r].1));
    }
  }

  lemma MatchesExtends(m: Model, m': Model, ids: seq<nat>, vs: Option<seq<Value>>)
    requires Matches(m, ids, vs) && Extends(m, m')
    ensures Matches(m', ids, vs)
  {
    assert Vals(m, ids) == Vals(m', ids);
  }

  lemma BoundExtends(x: Run, bind: Option<seq<nat>>, s: Scope, m: Model, m': Model)
    requires Bound(x, bind, s, m) && Extends(m, m')
    ensures Bound(x, bind, s, m')
  {
    if s.In? && !Broken(m') {
      assert !Broken(m);
      MatchesExtends(m, m', bind.value, FrameOf(x, s).value.block);
    }
  }

  lemma BrokenExtends(m: Model, m': Model)
    requires Broken(m) && Extends(m, m')
    ensures Broken(m')
  {
    var id :| id in m && m[id].None?;
    assert id in m' && m'[id].None?;
  }

  /** One more id, holding v. */
  lemma GrowsByOne(x: Run, t: Table, st: State, m: Model, v: Option<Value>)
    requires Holds(x, t, st, m)
    ensures
      var m' := m[st.counter := v];
      && Extends(m, m') && ItemsHold(x, st, m') && MemoKnown(st, m')
      && (Broken(m') <==> Broken(m) || v.None?)
      && (!Broken(m') ==> MemoHolds(x, t, st, m'))
      && (forall id: nat :: id in m' <==> id < st.counter + 1)
  {
    var m' := m[st.counter := v];
    ExtendsKeeps(x, st, m, m');
    if v.None? {
      assert m'[st.counter].None?;
    }
    if !Broken(m') {
      MemoExtends(x, t, st, m, m');
    }
  }

  /** The value a single-result node gives its id. */
  function NodeValue(x: Run, node: Node, m: Model): Option<Value> {
    if AllSome(m, node.inputs) then
      var r := NodeResults(x.sem, x.blobs, node, Vals(m, node.inputs), [], x.fuel);
      if r.Ok? && |r.value| == 1 then Some(r.value[0]) else None
    else None
  }

  lemma SomeUnlessBroken(m: Model, ids: seq<nat>)
    requires Known(m, ids)
    ensures !Broken(m) ==> AllSome(m, ids)
  {
  }

  /** A new node holds what it computes. */
  lemma AppendHolds(x: Run, t: Table, st: State, m: Model, node: Node, st': State) returns (m': Model)
    requires Holds(x, t, st, m) && Known(m, node.inputs) && !node.While? && node.id == st.counter
    requires AllSome(m, node.inputs) ==>
      var r := NodeResults(x.sem, x.blobs, node, Vals(m, node.inputs), [], x.fuel);
      !r.Stuck? && (r.Ok? ==> |r.value| == 1)
    requires st' == st.(counter := st.counter + 1, nodes := st.nodes + [node])
    ensures Holds(x, t, st', m')
    ensures Agrees(m, m', st.counter, NodeValue(x, node, m))
  {
    var v := NodeValue(x, node, m);
    GrowsByOne(x, t, st, m, v);
    m' := m[st.counter := v];
    assert DefinedIds(node) == [st.counter];
    SomeUnlessBroken(m, node.inputs);
    assert NodeHolds(x, node, m') by {
      if AllSome(m', node.inputs) {
        assert AllSome(m, node.inputs);
        assert Vals(m', node.inputs) == Vals(m, node.inputs);
        assert m'[DefinedIds(node)[0]] == v;
      }
    }
  }

  lemma WithRefHolds(x: Run, t: Table, st: State, m: Model, ref: Ref, id: nat, e: Expr, s: Scope)
    requires Holds(x, t, st, m) && id in m
    requires ref in t.entries && t.entries[ref] == (e, Home(e, s))
    requires !Broken(m) ==> m[id].Some? && EvalIn(x, e, s) == m[id]
    ensures Holds(x, t, WithRef(st, ref, id), m)
  {
    if !Broken(m) {
      HomeSame(x, e, s);
    }
    hide Home, Eval;
  }

  /** A new node for an expression whose value it computes. */
  lemma AddNodeHolds(x: Run, t: Table, st: State, m: Model, e: Expr, s: Scope, node: Node, st': State)
      returns (m': Model)
    requires Holds(x, t, st, m) && Known(m, node.inputs) && !node.While? && node.id == st.counter && !e.Tuple?
    requires AllSome(m, node.inputs) ==>
      var r := NodeResults(x.sem, x.blobs, node, Vals(m, node.inputs), [], x.fuel);
      !r.Stuck? && (r.Ok? ==> |r.value| == 1)
    requires e.ref in t.entries && t.entries[e.ref] == (e, Home(e, s))
    requires !Broken(m) ==> EvalIn(x, e, s) == NodeValue(x, node, m)
    requires st' == WithRef(st.(counter := st.counter + 1, nodes := st.nodes + [node]), e.ref, st.counter)
    ensures Holds(x, t, st', m')
    ensures Agrees(m, m', st.counter, EvalIn(x, e, s))
  {
    var st1 := st.(counter := st.counter + 1, nodes := st.nodes + [node]);
    m' := AppendHolds(x, t, st, m, node, st1);
    if !Broken(m') && Broken(m) {
      BrokenExtends(m, m');
    }
    WithRefHolds(x, t, st1, m', e.ref, st.counter, e, s);
  }

  lemma AddInputHolds(x: Run, t: Table, st: State, m: Model, e: Expr, s: Scope) returns (m': Model)
    requires Holds(x, t, st, m) && e.Param? && e.pos < |x.params|
    requires e.ref in t.entries && t.entries[e.ref] == (e, Home(e, s))
    requires !Broken(m) ==> EvalIn(x, e, s) == Some(x.params[e.pos])
    ensures Holds(x, t, AddInput(st, e.ref, e.pos, e.spec), m')
    ensures Agrees(m, m', st.counter, EvalIn(x, e, s))
  {
    var v := Some(x.params[e.pos]);
    if !Broken(m) {
      HomeSame(x, e, s);
    }
    hide Home, Eval;
    GrowsByOne(x, t, st, m, v);
    m' := m[st.counter := v];
  }

  lemma AddConstantHolds(x: Run, t: Table, st: State, m: Model, e: Expr, s: Scope, source: Source, blobs: seq<Bytes>)
      returns (m': Model)
    requires Holds(x, t, st, m) && (e.Const? || e.Literal?) && blobs <= x.blobs
    requires e.ref in t.entries && t.entries[e.ref] == (e, Home(e, s))
    requires var c := ConstantValue(x.sem, x.blobs, Constant(st.counter, source, e.spec));
             c.Ok? && (!Broken(m) ==> EvalIn(x, e, s) == Some(c.value))
    ensures Holds(x, t, AddConstant(st, e.ref, source, e.spec).(blobs := blobs), m')
    ensures Agrees(m, m', st.counter, EvalIn(x, e, s))
  {
    var v := Some(ConstantValue(x.sem, x.blobs, Constant(st.counter, source, e.spec)).value);
    if !Broken(m) {
      HomeSame(x, e, s);
    }
    hide Home, Eval;
    GrowsByOne(x, t, st, m, v);
    m' := m[st.counter := v];
  }
}
