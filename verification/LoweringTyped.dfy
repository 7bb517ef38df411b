/** Lowering keeps types: a well-typed list of expressions becomes a well-typed graph, which the worker
    accepts. */
module LoweringTyped {
  import opened Values
  import opened GraphIR
  import opened GraphForm
  import opened Typing
  import opened Lowering
  import opened LoweringForm
  import opened ExprMeaning
  import opened Validator
  import opened RowMajor

  // -- types of expressions ------------------------------------------------------------------

  /** Where an expression stands: the types of the enclosing block's inputs, the region's parameter
      nodes, how deep loops may be nested here, and what the worker knows, if that is asked for. */
  datatype Context = Context(block: Option<seq<Spec>>, params: seq<Expr>, depth: nat, cfg: Option<Config>)

  /** The type of the tensor an expression is lowered to. */
  function Type(e: Expr): Spec {
    if e.TupleBlock? && e.results != [] then Type(e.results[0]) else SpecOf(e)
  }

  function Types(es: seq<Expr>): (ts: seq<Spec>)
    ensures |ts| == |es| && forall k :: 0 <= k < |es| ==> ts[k] == Type(es[k])
  {
    seq(|es|, k requires 0 <= k < |es| => Type(es[k]))
  }

  function TupleTypes(e: Expr): seq<Spec> {
    match e
    case TupleBlock(_, _, results) => Types(results)
    case Loop(_, _, _, body) => Types(body)
    case Metadata(_, inner, _) => TupleTypes(inner)
    case TupleCond(_, _, defaults) => Types(defaults)
    case Tuple(elems) => Types(elems)
    case _ => []
  }

  function Sizes(ts: seq<Spec>): (s: seq<seq<nat>>)
    ensures |s| == |ts| && forall k :: 0 <= k < |ts| ==> s[k] == ts[k].shape
  {
    seq(|ts|, k requires 0 <= k < |ts| => ts[k].shape)
  }

  /** Outputs are declared with their own types. */
  predicate Plain(es: seq<Expr>) {
    forall k :: 0 <= k < |es| ==> Type(es[k]) == SpecOf(es[k])
  }

  predicate Knows(c: Context, spec: Spec) {
    c.cfg.Some? ==> SpecOk(c.cfg.value, spec)
  }

  predicate KnowsOp(c: Context, op: string) {
    c.cfg.Some? ==> op in c.cfg.value.ops
  }

  /** An operation fits operands of these types, and is known. */
  predicate Fits(sem: Sem, c: Context, k: Kernel, ts: seq<Spec>) {
    && (k.Op? || k.Window?) && sem.fits(Stripped(k), Sizes(ts))
    && KnowsOp(c, OpName(Compute(0, k, []))) && Knows(c, KernelSpec(k))
  }

  function SpecsOf(es: seq<Expr>): (ts: seq<Spec>)
    ensures |ts| == |es| && forall k :: 0 <= k < |es| ==> ts[k] == SpecOf(es[k])
  {
    seq(|es|, k requires 0 <= k < |es| => SpecOf(es[k]))
  }

  /** Parameter nodes of these shapes. */
  predicate ParamsFit(ps: seq<Expr>, ts: seq<Spec>) {
    |ps| == |ts| && forall k :: 0 <= k < |ps| ==> SpecOf(ps[k]).shape == ts[k].shape
  }

  predicate Named(e: Expr, t: Table) {
    !e.Tuple? ==> e.ref in t.entries && t.entries[e.ref].0 == e
  }

  /** Nx's types.  A parameter that no block binds is its region's node for that position. */
  ghost predicate WellTyped(sem: Sem, e: Expr, c: Context, t: Table)
    decreases e, 1
  {
    && Named(e, t)
    && match e
       case Param(_, pos, spec) =>
         if c.block.Some? && pos < |c.block.value| then c.block.value[pos] == spec
         else pos < |c.params| && c.params[pos] == e && Knows(c, spec)
       case Const(_, _, spec) => Knows(c, spec)
       case Literal(_, bytes, _, spec) => Knows(c, spec)
           && (c.cfg.Some? ==> |bytes| == Product(spec.shape) * c.cfg.value.itemsize(spec.dtype))
       case Apply(_, op, args, attrs, spec) =>
         AllTyped(sem, args, c, t) && Fits(sem, c, Op(op, attrs, None, spec), Types(args))
       case Fill(_, op, args, fill, attrs, spec) =>
         && AllTyped(sem, args, c, t)
         && (ScalarConstant(fill).Success? ==>
               Fits(sem, c, Op(op, attrs, Some(ScalarConstant(fill).value), spec), Types(args)))
       case WindowAt(_, wop, base, starts, lengths, attrs, spec) =>
         && AllTyped(sem, base, c, t) && StartsTyped(sem, wop, starts, c, t)
         && Fits(sem, c, Window(wop, attrs, lengths, StartSpecs(wop, starts), spec), Types(base))
       case Reduce(ref, op, tensor, acc, fn, _, attrs, spec) =>
         && WellTyped(sem, tensor, c, t) && WellTyped(sem, acc, c, t) && KnowsOp(c, op) && Knows(c, spec)
         && sem.fits(FoldFinish(op, attrs, spec), [Type(tensor).shape])
         && exists ps: seq<Expr>, depth: nat :: FoldTyped(sem, e, ps, depth, c, t)
       case Metadata(_, inner, spec) => WellTyped(sem, inner, c, t) && Type(inner) == spec
       case Cond(_, clauses, default, spec) =>
         && WellTyped(sem, default, c, t) && ClausesTyped(sem, clauses, Type(default), spec, c, t)
         && (clauses == [] ==> Type(default) == spec)
       case Block(_, inputs, result, spec) =>
         && AllTyped(sem, inputs, c, t) && WellTyped(sem, result, c.(block := Some(Types(inputs))), t)
         && Type(result) == spec
       case Elem(_, source, index, spec) =>
         TupleTyped(sem, source, c, t) && index < |TupleTypes(source)| && TupleTypes(source)[index] == spec
       case TupleBlock(_, _, _) => TupleTyped(sem, e, c, t)
       case _ => true
  }

  /** A fold's function is typed on its own parameters.  One that holds loops keeps the accumulator's
      shape, and stands one level deeper. */
  ghost predicate FoldTyped(sem: Sem, e: Expr, ps: seq<Expr>, depth: nat, c: Context, t: Table)
    requires e.Reduce?
    decreases e, 0
  {
    && e.ref in t.bodies && WellTyped(sem, e.fn, Context(None, ps, depth, c.cfg), t.bodies[e.ref])
    && Type(e.fn) == SpecOf(e.fn)
    && (depth > 0 ==>
          && depth < c.depth && |ps| == 2 && SpecOf(e.fn).shape == SpecOf(ps[0]).shape
          && ElementShapes(sem, e.op, e.attrs, e.count, Type(e.tensor).shape, Type(e.acc).shape, SpecOf(ps[0]).shape,
              SpecOf(ps[1]).shape))
  }

  ghost predicate AllTyped(sem: Sem, es: seq<Expr>, c: Context, t: Table)
    decreases es, 0
  {
    es == [] || (AllTyped(sem, es[..|es| - 1], c, t) && WellTyped(sem, es[|es| - 1], c, t))
  }

  ghost predicate StartsTyped(sem: Sem, wop: WindowOp, starts: seq<StartExpr>, c: Context, t: Table)
    decreases starts, 0
  {
    starts == [] ||
    var last := starts[|starts| - 1];
    assert (starts decreases to last);
    && StartsTyped(sem, wop, starts[..|starts| - 1], c, t)
    && (last.From? && StaticStart(wop, last).None? ==> WellTyped(sem, last.e, c, t))
  }

  /** Each select of a cond fits: its predicate, its result, and the selects after it. */
  ghost predicate ClausesTyped(sem: Sem, clauses: seq<Clause>, otherwise: Spec, spec: Spec, c: Context, t: Table)
    decreases clauses, 0
  {
    clauses == [] ||
    var first := clauses[0];
    assert (clauses decreases to first);
    && ClausesTyped(sem, clauses[1..], otherwise, spec, c, t)
    && WellTyped(sem, first.pred, c, t) && WellTyped(sem, first.result, c, t)
    && Fits(sem, c, SelectKernel(spec), [Type(first.pred), Type(first.result),
        if clauses[1..] == [] then otherwise else spec])
  }

  ghost predicate ChoicesTyped(sem: Sem, choices: seq<TupleClause>, ts: seq<Spec>, c: Context, t: Table)
    decreases choices, 0
  {
    choices == [] ||
    var last := choices[|choices| - 1];
    assert (choices decreases to last);
    && ChoicesTyped(sem, choices[..|choices| - 1], ts, c, t)
    && WellTyped(sem, last.pred, c, t) && AllTyped(sem, last.results, c, t)
    && ChoiceFits(sem, Type(last.pred), Types(last.results), ts, c)
  }

  predicate ChoiceFits(sem: Sem, pred: Spec, results: seq<Spec>, ts: seq<Spec>, c: Context) {
    forall i :: 0 <= i < |ts| && i < |results| ==> Fits(sem, c, SelectKernel(ts[i]), [pred, results[i], ts[i]])
  }

  ghost predicate TupleTyped(sem: Sem, e: Expr, c: Context, t: Table)
    decreases e, 0
  {
    && Named(e, t)
    && match e
       case TupleBlock(_, inputs, results) =>
         AllTyped(sem, inputs, c, t) && AllTyped(sem, results, c.(block := Some(Types(inputs))), t)
       case Loop(ref, init, test, body) =>
         && c.depth > 0 && AllTyped(sem, init, c, t) && KnowsOp(c, "while")
         && ref in t.tests && ref in t.bodies && Plain([test]) && Plain(body)
         && Sizes(Types(body)) == Sizes(Types(init))
         && (forall k :: 0 <= k < |body| ==> Knows(c, SpecOf(body[k])))
         && (exists ps: seq<Expr> :: ParamsFit(ps, Types(init))
               && WellTyped(sem, test, Context(None, ps, c.depth - 1, c.cfg), t.tests[ref]))
         && exists ps: seq<Expr> :: ParamsFit(ps, Types(init))
              && AllTyped(sem, body, Context(None, ps, c.depth - 1, c.cfg), t.bodies[ref])
       case Metadata(_, inner, _) => TupleTyped(sem, inner, c, t)
       case TupleCond(_, choices, defaults) =>
         AllTyped(sem, defaults, c, t) && Plain(defaults) && ChoicesTyped(sem, choices, Types(defaults), c, t)
       case Tuple(elems) => AllTyped(sem, elems, c, t)
       case _ => true
  }

  // -- types of ids --------------------------------------------------------------------------

  /** The type of every id so far. */
  type Decls = map<nat, Spec>

  predicate Later(d: Decls, d': Decls) {
    forall id :: id in d ==> id in d' && d'[id] == d[id]
  }

  predicate IdsTyped(ids: seq<nat>, ts: seq<Spec>, d: Decls) {
    |ids| == |ts| && forall k :: 0 <= k < |ids| ==> ids[k] in d && d[ids[k]] == ts[k]
  }

  function Sized(d: Decls): Shapes {
    map id | id in d :: d[id].shape
  }

  /** A loop that holds no loop, or a node that holds none. */
  predicate Flat(node: Node) {
    match node
    case While(_, cond, body, _) => NoneLoops(cond.nodes) && NoneLoops(body.nodes)
    case _ => !Loops(node)
  }

  predicate DepthOk(node: Node, depth: nat) {
    (depth == 0 ==> !Loops(node)) && (depth == 1 ==> Flat(node))
  }

  predicate Declares(node: Node, d: Decls) {
    match node
    case While(_, _, _, outputs) =>
      forall k :: 0 <= k < |outputs| ==> outputs[k].id in d && d[outputs[k].id] == outputs[k].spec
    case _ => node.id in d && d[node.id] == NodeSpec(node)
  }

  ghost predicate NodeTyped(sem: Sem, c: Context, node: Node, d: Decls) {
    && TypedNode(sem, node, Sized(d)) && Declares(node, d) && DepthOk(node, c.depth)
    && (c.cfg.Some? ==> NodeKnown(c.cfg.value, node))
  }

  /** A graph input is the node of the parameter it stands for. */
  predicate InputTyped(c: Context, t: Table, st: State, inp: GraphInput, d: Decls) {
    && inp.id in d && d[inp.id] == inp.spec && Knows(c, inp.spec) && inp.index < |c.params|
    && var p := c.params[inp.index];
       && p.Param? && p.spec == inp.spec && p.ref in t.entries && t.entries[p.ref].0 == p
       && p.ref in st.ids && st.ids[p.ref] == inp.id
  }

  predicate InputsTyped(c: Context, t: Table, st: State, d: Decls) {
    && (forall k :: 0 <= k < |st.inputs| ==> InputTyped(c, t, st, st.inputs[k], d))
    && forall i, j :: 0 <= i < j < |st.inputs| ==> st.inputs[i].index != st.inputs[j].index
  }

  predicate ConstantsTyped(c: Context, st: State, d: Decls) {
    forall k :: 0 <= k < |st.constants| ==>
      && st.constants[k].id in d && d[st.constants[k].id] == st.constants[k].spec
      && (c.cfg.Some? ==> ConstantKnown(c.cfg.value, st.constants[k], st.blobs))
  }

  ghost predicate NodesTyped(sem: Sem, c: Context, st: State, d: Decls) {
    forall k :: 0 <= k < |st.nodes| ==> NodeTyped(sem, c, st.nodes[k], d)
  }

  /** What is remembered has the type of its expression. */
  predicate MemoTyped(t: Table, st: State, d: Decls) {
    && (forall r :: r in st.ids ==>
          r in t.entries && st.ids[r] in d && d[st.ids[r]] == Type(t.entries[r].0))
    && forall r :: r in st.tuples ==>
         r in t.entries && IdsTyped(st.tuples[r], TupleTypes(t.entries[r].0), d)
  }

  predicate BoundTyped(c: Context, st: State, d: Decls) {
    if st.bind.Some? then c.block.Some? && IdsTyped(st.bind.value, c.block.value, d) else c.block.None?
  }

  ghost predicate StateTyped(sem: Sem, c: Context, t: Table, st: State, d: Decls) {
    && (forall id: nat :: id in d <==> id < st.counter)
    && InputsTyped(c, t, st, d) && ConstantsTyped(c, st, d) && NodesTyped(sem, c, st, d)
    && MemoTyped(t, st, d) && BoundTyped(c, st, d)
  }

  ghost predicate Good(sem: Sem, c: Context, t: Table, d: Decls, st': State, d': Decls) {
    StateTyped(sem, c, t, st', d') && Later(d, d')
  }

  // -- more ids ------------------------------------------------------------------------------

  lemma ShapesLater(ids: seq<nat>, d: Decls, d': Decls)
    requires Later(d, d') && AllIn(ids, Sized(d))
    ensures AllIn(ids, Sized(d')) && ShapesOf(ids, Sized(d')) == ShapesOf(ids, Sized(d))
  {
  }

  lemma NodeLater(sem: Sem, c: Context, node: Node, d: Decls, d': Decls)
    requires NodeTyped(sem, c, node, d) && Later(d, d')
    ensures NodeTyped(sem, c, node, d')
  {
    hide TypedSub, ElementShapes;
    ShapesLater(node.inputs, d, d');
    match node
    case Compute(id, k, inputs) => ShapesLater(inputs[..OperandCount(k, |inputs|)], d, d');
    case Fold(_, _, _, _, _, _, _) =>
    case While(_, _, _, outputs) => ShapesLater(OutIds(outputs), d, d');
  }

  lemma MoreIds(sem: Sem, c: Context, t: Table, st: State, d: Decls, d': Decls)
    requires StateTyped(sem, c, t, st, d) && Later(d, d')
    ensures InputsTyped(c, t, st, d') && ConstantsTyped(c, st, d') && NodesTyped(sem, c, st, d')
    ensures MemoTyped(t, st, d') && BoundTyped(c, st, d')
  {
    hide NodeTyped;
    forall k | 0 <= k < |st.nodes| ensures NodeTyped(sem, c, st.nodes[k], d') {
      NodeLater(sem, c, st.nodes[k], d, d');
    }
  }

  /** A node that defines the next ids. */
  lemma AppendTyped(sem: Sem, c: Context, t: Table, st: State, d: Decls, node: Node, st': State, d': Decls)
    requires StateTyped(sem, c, t, st, d) && Later(d, d') && NodeTyped(sem, c, node, d')
    requires st' == st.(counter := st'.counter, nodes := st.nodes + [node])
    requires forall id: nat :: id in d' <==> id < st'.counter
    ensures Good(sem, c, t, d, st', d')
  {
    MoreIds(sem, c, t, st, d, d');
    hide NodeTyped;
  }

  lemma AddRawTyped(sem: Sem, c: Context, t: Table, st: State, d: Decls, kernel: Kernel, ids: seq<nat>, ts: seq<Spec>)
      returns (d': Decls)
    requires StateTyped(sem, c, t, st, d) && Fits(sem, c, kernel, ts)
    requires forall k :: 0 <= k < |ids| ==> ids[k] in d
    requires OperandCount(kernel, |ids|) <= |ids| && IdsTyped(ids[..OperandCount(kernel, |ids|)], ts, d)
    ensures var (id, st') := AddRaw(st, kernel, ids);
            Good(sem, c, t, d, st', d') && id in d' && d'[id] == KernelSpec(kernel)
  {
    hide InputsTyped, ConstantsTyped, NodesTyped, MemoTyped, BoundTyped;
    var id, node := st.counter, Compute(st.counter, kernel, ids);
    d' := d[id := KernelSpec(kernel)];
    var n := OperandCount(kernel, |ids|);
    assert ShapesOf(ids[..n], Sized(d')) == Sizes(ts);
    AppendTyped(sem, c, t, st, d, node, AddRaw(st, kernel, ids).1, d');
  }

  /** Remember an id for an expression of its type. */
  lemma WithRefTyped(sem: Sem, c: Context, t: Table, st: State, d: Decls, e: Expr, id: nat)
    requires StateTyped(sem, c, t, st, d) && !e.Tuple? && Named(e, t) && id in d && d[id] == Type(e)
    requires e.Param? ==> e.ref !in st.ids
    ensures StateTyped(sem, c, t, WithRef(st, e.ref, id), d)
  {
    hide NodeTyped;
    var st' := WithRef(st, e.ref, id);
    forall k | 0 <= k < |st'.inputs| ensures InputTyped(c, t, st', st'.inputs[k], d) {
      assert InputTyped(c, t, st, st.inputs[k], d);
    }
  }

  lemma AddInputTyped(sem: Sem, c: Context, t: Table, st: State, d: Decls, e: Expr) returns (d': Decls)
    requires StateTyped(sem, c, t, st, d) && e.Param? && Named(e, t) && e.ref !in st.ids
    requires e.pos < |c.params| && c.params[e.pos] == e && Knows(c, e.spec)
    ensures Good(sem, c, t, d, AddInput(st, e.ref, e.pos, e.spec), d') && st.counter in d' && d'[st.counter] == e.spec
  {
    hide NodeTyped;
    d' := d[st.counter := e.spec];
    MoreIds(sem, c, t, st, d, d');
    var st' := AddInput(st, e.ref, e.pos, e.spec);
    forall k | 0 <= k < |st'.inputs| ensures InputTyped(c, t, st', st'.inputs[k], d') {
      if k < |st.inputs| { assert InputTyped(c, t, st, st.inputs[k], d'); }
    }
    forall i | 0 <= i < |st.inputs| ensures st.inputs[i].index != e.pos {
      assert InputTyped(c, t, st, st.inputs[i], d);
    }
  }

  lemma AddConstantTyped(sem: Sem, c: Context, t: Table, st: State, d: Decls, e: Expr, source: Source,
      blobs: seq<Bytes>) returns (d': Decls)
    requires StateTyped(sem, c, t, st, d) && !e.Tuple? && !e.Param? && Named(e, t) && Type(e) == SpecOf(e)
    requires st.blobs <= blobs && (c.cfg.Some? ==> ConstantKnown(c.cfg.value, Constant(0, source, SpecOf(e)), blobs))
    ensures Good(sem, c, t, d, AddConstant(st, e.ref, source, SpecOf(e)).(blobs := blobs), d')
    ensures st.counter in d' && d'[st.counter] == SpecOf(e)
  {
    hide NodeTyped;
    d' := d[st.counter := SpecOf(e)];
    MoreIds(sem, c, t, st, d, d');
    var mid := st.(counter := st.counter + 1, constants := st.constants + [Constant(st.counter, source, SpecOf(e))],
                   blobs := blobs);
    assert StateTyped(sem, c, t, mid, d') by {
      assert forall k :: 0 <= k < |st.constants| ==> mid.constants[k] == st.constants[k];
      assert InputsTyped(c, t, mid, d') by { InputsSame(c, t, st, mid, d'); }
    }
    WithRefTyped(sem, c, t, mid, d', e, st.counter);
    assert AddConstant(st, e.ref, source, SpecOf(e)).(blobs := blobs) == WithRef(mid, e.ref, st.counter);
  }

  lemma InputsSame(c: Context, t: Table, st: State, st': State, d: Decls)
    requires InputsTyped(c, t, st, d) && st'.inputs == st.inputs && st'.ids == st.ids
    ensures InputsTyped(c, t, st', d)
  {
    forall k | 0 <= k < |st'.inputs| ensures InputTyped(c, t, st', st'.inputs[k], d) {
      assert InputTyped(c, t, st, st.inputs[k], d);
    }
  }

  lemma WithBlobsTyped(sem: Sem, c: Context, t: Table, st: State, d: Decls, blobs: seq<Bytes>)
    requires StateTyped(sem, c, t, st, d) && st.blobs <= blobs
    ensures StateTyped(sem, c, t, st.(blobs := blobs), d)
  {
    hide NodeTyped;
    InputsSame(c, t, st, st.(blobs := blobs), d);
  }

  /** Enter a block, and leave it. */
  lemma RebindTyped(sem: Sem, c: Context, t: Table, st: State, d: Decls, c': Context, bind: Option<seq<nat>>)
    requires StateTyped(sem, c, t, st, d) && c' == c.(block := c'.block) && BoundTyped(c', st.(bind := bind), d)
    ensures StateTyped(sem, c', t, st.(bind := bind), d)
  {
    hide Fits;
    var st' := st.(bind := bind);
    forall k | 0 <= k < |st'.inputs| ensures InputTyped(c', t, st', st'.inputs[k], d) {
      assert InputTyped(c, t, st, st.inputs[k], d);
    }
    forall k | 0 <= k < |st'.nodes| ensures NodeTyped(sem, c', st'.nodes[k], d) {
      assert NodeTyped(sem, c, st.nodes[k], d);
    }
  }

  lemma RememberTyped(sem: Sem, c: Context, t: Table, st: State, d: Decls, e: Expr, ids: seq<nat>)
    requires StateTyped(sem, c, t, st, d) && !e.Tuple? && Named(e, t) && IdsTyped(ids, TupleTypes(e), d)
    ensures StateTyped(sem, c, t, st.(tuples := st.tuples[e.ref := ids]), d)
  {
    hide NodeTyped;
    InputsSame(c, t, st, st.(tuples := st.tuples[e.ref := ids]), d);
  }

  lemma IsolatedTyped(sem: Sem, c: Context, t: Table, st: State)
    requires c.block.None?
    ensures StateTyped(sem, c, t, Isolated(st), map[])
  {
  }

  // -- finished graphs -----------------------------------------------------------------------

  lemma {:induction false} InputSpecsAre(inputs: seq<GraphInput>, d: Decls)
    requires forall k :: 0 <= k < |inputs| ==> inputs[k].id in d && d[inputs[k].id] == inputs[k].spec
    ensures Later(InputSpecs(inputs), d)
    ensures forall id: nat :: id in InputSpecs(inputs) <==> id in InputIds(inputs)
  {
    if inputs != [] {
      InputSpecsAre(inputs[..|inputs| - 1], d);
    }
  }

  lemma {:induction false} ConstantSpecsAre(constants: seq<Constant>, m: Decls, d: Decls)
    requires forall k :: 0 <= k < |constants| ==> constants[k].id in d && d[constants[k].id] == constants[k].spec
    requires Later(m, d)
    ensures Later(ConstantSpecs(constants, m), d)
    ensures forall id: nat :: id in ConstantSpecs(constants, m) <==> id in m || id in ConstantIds(constants)
  {
    if constants != [] {
      ConstantSpecsAre(constants[..|constants| - 1], m, d);
    }
  }

  lemma {:induction false} OutSpecsAre(outs: seq<Out>, m: Decls, d: Decls)
    requires Later(m, d) && forall k :: 0 <= k < |outs| ==> outs[k].id in d && d[outs[k].id] == outs[k].spec
    ensures Later(OutSpecs(outs, m), d)
    ensures forall id: nat :: id in OutSpecs(outs, m) <==> id in m || id in multiset(OutIds(outs))
  {
    if outs != [] {
      var last := |outs| - 1;
      OutSpecsAre(outs[..last], m, d);
      assert OutIds(outs) == OutIds(outs[..last]) + [outs[last].id];
    }
  }

  lemma LastSpecsAre(node: Node, m: Decls, d: Decls)
    requires Later(m, d) && Declares(node, d)
    ensures var r := if node.While? then OutSpecs(node.outputs, m) else m[node.id := NodeSpec(node)];
            Later(r, d) && forall id: nat :: id in r <==> id in m || id in multiset(DefinedIds(node))
  {
    if node.While? {
      OutSpecsAre(node.outputs, m, d);
    } else {
      assert multiset(DefinedIds(node)) == multiset{node.id};
    }
  }

  lemma {:induction false} NodeSpecsAre(nodes: seq<Node>, m: Decls, d: Decls)
    requires Later(m, d) && forall k :: 0 <= k < |nodes| ==> Declares(nodes[k], d)
    ensures Later(NodeSpecs(nodes, m), d)
    ensures forall id: nat :: id in NodeSpecs(nodes, m) <==> id in m || id in NodeIds(nodes)
  {
    if nodes != [] {
      var last, init := nodes[|nodes| - 1], nodes[..|nodes| - 1];
      NodeSpecsAre(init, m, d);
      LastSpecsAre(last, NodeSpecs(init, m), d);
    }
  }

  /** Every item declares the type of its id. */
  predicate AllDeclare(sub: Sub, d: Decls) {
    && (forall k :: 0 <= k < |sub.inputs| ==> sub.inputs[k].id in d && d[sub.inputs[k].id] == sub.inputs[k].spec)
    && (forall k :: 0 <= k < |sub.constants| ==>
          sub.constants[k].id in d && d[sub.constants[k].id] == sub.constants[k].spec)
    && forall k :: 0 <= k < |sub.nodes| ==> Declares(sub.nodes[k], d)
  }

  lemma StateDeclares(sem: Sem, c: Context, t: Table, st: State, d: Decls, sub: Sub)
    requires StateTyped(sem, c, t, st, d)
    requires sub.inputs == st.inputs && sub.constants == st.constants && sub.nodes == st.nodes
    ensures AllDeclare(sub, d)
  {
    hide TypedNode, DepthOk;
    forall k | 0 <= k < |st.inputs| ensures st.inputs[k].id in d && d[st.inputs[k].id] == st.inputs[k].spec {
      assert InputTyped(c, t, st, st.inputs[k], d);
    }
    forall k | 0 <= k < |st.nodes| ensures Declares(st.nodes[k], d) {
      assert NodeTyped(sem, c, st.nodes[k], d);
    }
  }

  lemma SpecsKeys(sub: Sub, d: Decls)
    requires AllDeclare(sub, d)
    ensures Later(Specs(sub), d)
    ensures forall id: nat :: id in Specs(sub) <==> id in AllIds(sub.inputs, sub.constants, sub.nodes)
  {
    hide Declares, NodeSpecs, NodeIds, ConstantSpecs, ConstantIds, InputSpecs, InputIds;
    InputSpecsAre(sub.inputs, d);
    ConstantSpecsAre(sub.constants, InputSpecs(sub.inputs), d);
    NodeSpecsAre(sub.nodes, ConstantSpecs(sub.constants, InputSpecs(sub.inputs)), d);
  }

  /** The types of ids are what the graph declares. */
  lemma DeclaredAre(sem: Sem, c: Context, t: Table, st: State, d: Decls, sub: Sub)
    requires StateTyped(sem, c, t, st, d) && ItemsOk(st)
    requires sub.inputs == st.inputs && sub.constants == st.constants && sub.nodes == st.nodes
    ensures Specs(sub) == d && DeclaredShapes(sub) == Sized(d)
  {
    hide InputsTyped, ConstantsTyped, NodesTyped, MemoTyped, BoundTyped, NodesOk, Specs, AllIds, AllDeclare;
    StateDeclares(sem, c, t, st, d, sub);
    SpecsKeys(sub, d);
    RangeSize(st.counter);
    forall id: nat ensures id in Specs(sub) <==> id in d {
      assert Range(st.counter)[id] > 0 <==> id < st.counter;
    }
    ShapesSized(sub);
  }

  lemma ShapesSized(sub: Sub)
    ensures DeclaredShapes(sub) == Sized(Specs(sub))
  {
    InputsSized(sub.inputs);
    ConstantsSized(sub.constants, InputSpecs(sub.inputs));
    NodesSized(sub.nodes, ConstantSpecs(sub.constants, InputSpecs(sub.inputs)));
  }

  lemma {:induction false} InputsSized(inputs: seq<GraphInput>)
    ensures InputShapes(inputs) == Sized(InputSpecs(inputs))
  {
    if inputs != [] { InputsSized(inputs[..|inputs| - 1]); }
  }

  lemma {:induction false} ConstantsSized(constants: seq<Constant>, m: Decls)
    ensures ConstantShapes(constants, Sized(m)) == Sized(ConstantSpecs(constants, m))
  {
    if constants != [] { ConstantsSized(constants[..|constants| - 1], m); }
  }

  lemma {:induction false} OutsSized(outs: seq<Out>, m: Decls)
    ensures OutShapes(outs, Sized(m)) == Sized(OutSpecs(outs, m))
  {
    if outs != [] { OutsSized(outs[..|outs| - 1], m); }
  }

  lemma {:induction false} NodesSized(nodes: seq<Node>, m: Decls)
    ensures NodeShapes(nodes, Sized(m)) == Sized(NodeSpecs(nodes, m))
  {
    if nodes != [] {
      NodesSized(nodes[..|nodes| - 1], m);
      if nodes[|nodes| - 1].While? {
        OutsSized(nodes[|nodes| - 1].outputs, NodeSpecs(nodes[..|nodes| - 1], m));
      }
    }
  }

  lemma {:induction false} NodesAllTyped(sem: Sem, nodes: seq<Node>, shapes: Shapes)
    requires forall k :: 0 <= k < |nodes| ==> TypedNode(sem, nodes[k], shapes)
    ensures TypedNodes(sem, nodes, shapes)
  {
    hide TypedNode;
    if nodes != [] {
      NodesAllTyped(sem, nodes[..|nodes| - 1], shapes);
    }
  }

  /** What a region's graph is, given parameters of these shapes. */
  ghost predicate SubTyped(sem: Sem, c: Context, sub: Sub, s: seq<seq<nat>>, ts: seq<Spec>) {
    && TypedSub(sem, sub, s) && AllIn(OutIds(sub.outputs), DeclaredShapes(sub))
    && ShapesOf(OutIds(sub.outputs), DeclaredShapes(sub)) == Sizes(ts)
    && (c.depth == 0 ==> NoneLoops(sub.nodes))
    && (c.cfg.Some? && ts != [] ==> SubKnown(c.cfg.value, sub))
  }

  lemma FinishTyped(sem: Sem, c: Context, t: Table, es: seq<Expr>, ids: seq<nat>, st: State, d: Decls,
      s: seq<seq<nat>>)
    requires StateTyped(sem, c, t, st, d) && ItemsOk(st) && IdsTyped(ids, Types(es), d)
    requires |s| == |c.params| && forall k :: 0 <= k < |s| ==> SpecOf(c.params[k]).shape == s[k]
    ensures SubTyped(sem, c, Finish(es, ids, st), s, Types(es))
  {
    hide DeclaredShapes, ItemsOk, Specs, TypedSub, Fits, NodeTyped, SubKnown, NoneLoops;
    var sub := Finish(es, ids, st);
    DeclaredAre(sem, c, t, st, d, sub);
    ItemsTyped(sem, c, t, st, d, sub, s);
    assert OutIds(sub.outputs) == ids;
    assert ShapesOf(ids, Sized(d)) == Sizes(Types(es));
    NodesPlain(sem, c, st, d, sub);
  }

  lemma ItemsTyped(sem: Sem, c: Context, t: Table, st: State, d: Decls, sub: Sub, s: seq<seq<nat>>)
    requires StateTyped(sem, c, t, st, d) && DeclaredShapes(sub) == Sized(d)
    requires sub.inputs == st.inputs && sub.constants == st.constants && sub.nodes == st.nodes
    requires |s| == |c.params| && forall k :: 0 <= k < |s| ==> SpecOf(c.params[k]).shape == s[k]
    ensures TypedSub(sem, sub, s)
  {
    hide DeclaredShapes, TypedNode, Specs;
    forall k | 0 <= k < |sub.inputs| ensures InputTyped(c, t, st, sub.inputs[k], d) {
    }
    forall k | 0 <= k < |st.nodes| ensures TypedNode(sem, st.nodes[k], Sized(d)) {
      assert NodeTyped(sem, c, st.nodes[k], d);
    }
    NodesAllTyped(sem, sub.nodes, Sized(d));
  }

  lemma NodesPlain(sem: Sem, c: Context, st: State, d: Decls, sub: Sub)
    requires NodesTyped(sem, c, st, d) && sub.nodes == st.nodes
    ensures c.depth == 0 ==> NoneLoops(sub.nodes)
    ensures c.cfg.Some? && sub.outputs != [] ==> SubKnown(c.cfg.value, sub)
  {
    hide TypedNode, Declares, Loops;
    forall k | 0 <= k < |st.nodes| ensures NodeTyped(sem, c, st.nodes[k], d) {
    }
  }

  // -- nodes with sub-graphs -----------------------------------------------------------------

  lemma LaterSelf(d: Decls)
    ensures Later(d, d)
  {
  }

  lemma LaterTrans(d: Decls, d1: Decls, d2: Decls)
    requires Later(d, d1) && Later(d1, d2)
    ensures Later(d, d2)
  {
  }

  lemma IdsLater(ids: seq<nat>, ts: seq<Spec>, d: Decls, d': Decls)
    requires IdsTyped(ids, ts, d) && Later(d, d')
    ensures IdsTyped(ids, ts, d')
  {
  }

  lemma FoldNodeTyped(sem: Sem, c: Context, e: Expr, ps: seq<Expr>, depth: nat, t: Table, id: nat, ids: seq<nat>,
      fn: Sub, d: Decls)
    requires e.Reduce? && FoldTyped(sem, e, ps, depth, c, t) && KnowsOp(c, e.op) && Knows(c, e.spec)
    requires sem.fits(FoldFinish(e.op, e.attrs, e.spec), [Type(e.tensor).shape])
    requires SubTyped(sem, Context(None, ps, depth, c.cfg), fn, Sizes(SpecsOf(ps)), [Type(e.fn)])
    requires IdsTyped(ids, [Type(e.tensor), Type(e.acc)], d) && id in d && d[id] == e.spec
    ensures NodeTyped(sem, c, Fold(id, e.op, e.attrs, ids, e.count, fn, e.spec), d)
  {
    hide WellTyped, TypedSub, SubKnown, DeclaredShapes;
    var node := Fold(id, e.op, e.attrs, ids, e.count, fn, e.spec);
    assert AllIn(ids, Sized(d)) && |ids| == 2;
    if Loops(node) {
      var k :| 0 <= k < |fn.nodes| && Loops(fn.nodes[k]);
      assert depth > 0;
      var acc, elem := SpecOf(ps[0]).shape, SpecOf(ps[1]).shape;
      assert Sizes(SpecsOf(ps)) == [acc, elem];
      assert OutIds(fn.outputs)[0] == fn.outputs[0].id;
      assert ShapesOf(OutIds(fn.outputs), DeclaredShapes(fn))[0] == Sizes([Type(e.fn)])[0];
    }
  }

  lemma LoopNodeTyped(sem: Sem, c: Context, e: Expr, ids: seq<nat>, cond: Sub, body: Sub, outs: seq<Out>, d: Decls,
      c1: Context, c2: Context)
    requires e.Loop? && c.depth > 0 && c1.depth == c2.depth == c.depth - 1 && c1.cfg == c2.cfg == c.cfg
    requires KnowsOp(c, "while") && e.body != [] && Plain(e.body) && Sizes(Types(e.body)) == Sizes(Types(e.init))
    requires forall k :: 0 <= k < |e.body| ==> Knows(c, SpecOf(e.body[k]))
    requires SubTyped(sem, c1, cond, Sizes(Types(e.init)), [Type(e.test)])
    requires SubTyped(sem, c2, body, Sizes(Types(e.init)), Types(e.body))
    requires IdsTyped(ids, Types(e.init), d)
    requires |outs| == |e.body| && forall k :: 0 <= k < |outs| ==>
        outs[k].spec == SpecOf(e.body[k]) && outs[k].id in d && d[outs[k].id] == outs[k].spec
    ensures NodeTyped(sem, c, While(ids, cond, body, outs), d)
  {
    hide TypedSub, SubKnown, DeclaredShapes;
    assert AllIn(ids, Sized(d)) && ShapesOf(ids, Sized(d)) == Sizes(Types(e.init));
    assert AllIn(OutIds(outs), Sized(d)) && ShapesOf(OutIds(outs), Sized(d)) == Sizes(Types(e.body));
  }

  // -- lowering ------------------------------------------------------------------------------

  lemma {:induction false} LowerTyped(sem: Sem, e: Expr, c: Context, t: Table, st: State, d: Decls)
      returns (d': Decls)
    requires StateTyped(sem, c, t, st, d) && WellTyped(sem, e, c, t) && Lower(e, st).Success?
    ensures var (id, st') := Lower(e, st).value; Good(sem, c, t, d, st', d') && id in d' && d'[id] == Type(e)
    decreases e, 4
  {
    if e.ref in st.ids {
      d' := d;
      assert MemoTyped(t, st, d);
    } else {
      d' := LowerNewTyped(sem, e, c, t, st, d);
    }
  }

  lemma {:induction false} LowerNewTyped(sem: Sem, e: Expr, c: Context, t: Table, st: State, d: Decls)
      returns (d': Decls)
    requires StateTyped(sem, c, t, st, d) && WellTyped(sem, e, c, t) && !e.Tuple? && e.ref !in st.ids
    requires LowerNew(e, st).Success?
    ensures var (id, st') := LowerNew(e, st).value; Good(sem, c, t, d, st', d') && id in d' && d'[id] == Type(e)
    decreases e, 3
  {
    hide StateTyped, Fits, FoldTyped, ClausesTyped, StartsTyped, AllTyped, Later;
    LaterSelf(d);
    match e {
      case Param(_, _, _) => d' := ParamTyped(sem, e, c, t, st, d);
      case Const(_, number, _) => d' := AddConstantTyped(sem, c, t, st, d, e, Scalar(number), st.blobs);
      case Literal(_, bytes, _, _) =>
        d' := AddConstantTyped(sem, c, t, st, d, e, Data(|st.blobs|), st.blobs + [bytes]);
      case Apply(_, op, args, attrs, spec) =>
        var d1 := LowerAllTyped(sem, args, c, t, st, d);
        d' := OpTyped(sem, e, c, t, st, d, args, d1, Op(op, attrs, None, spec));
      case Fill(_, op, args, fill, attrs, spec) =>
        var d1 := LowerAllTyped(sem, args, c, t, st, d);
        d' := OpTyped(sem, e, c, t, st, d, args, d1, Op(op, attrs, Some(ScalarConstant(fill).value), spec));
      case WindowAt(_, _, _, _, _, _, _) => d' := WindowTyped(sem, e, c, t, st, d);
      case Reduce(_, _, _, _, _, _, _, _) => d' := ReduceTyped(sem, e, c, t, st, d);
      case Metadata(_, inner, _) =>
        d' := LowerTyped(sem, inner, c, t, st, d);
        var (id, st1) := Lower(inner, st).value;
        WithRefTyped(sem, c, t, st1, d', e, id);
      case Cond(_, _, _, _) => d' := CondTyped(sem, e, c, t, st, d);
      case Block(_, _, _, _) => d' := BlockTyped(sem, e, c, t, st, d);
      case Elem(_, source, index, _) =>
        d' := LowerTupleTyped(sem, source, c, t, st, d);
        var (ids, st1) := LowerTuple(source, st).value;
        WithRefTyped(sem, c, t, st1, d', e, ids[index]);
      case TupleBlock(_, _, _) =>
        d' := LowerTupleTyped(sem, e, c, t, st, d);
      case _ => d' := d;
    }
  }

  lemma ParamTyped(sem: Sem, e: Expr, c: Context, t: Table, st: State, d: Decls) returns (d': Decls)
    requires StateTyped(sem, c, t, st, d) && WellTyped(sem, e, c, t) && e.Param? && e.ref !in st.ids
    ensures var (id, st') := LowerNew(e, st).value; Good(sem, c, t, d, st', d') && id in d' && d'[id] == Type(e)
  {
    if st.bind.Some? && e.pos < |st.bind.value| {
      d' := d;
      WithRefTyped(sem, c, t, st, d, e, st.bind.value[e.pos]);
    } else {
      d' := AddInputTyped(sem, c, t, st, d, e);
    }
  }

  /** A node whose operands have just been lowered. */
  lemma OpTyped(sem: Sem, e: Expr, c: Context, t: Table, st: State, d: Decls, args: seq<Expr>, d1: Decls,
      kernel: Kernel) returns (d': Decls)
    requires LowerAll(args, st).Success? && !e.Tuple? && !e.Param? && Named(e, t)
    requires var (ids, st1) := LowerAll(args, st).value;
             Good(sem, c, t, d, st1, d1) && IdsTyped(ids, Types(args), d1)
    requires kernel.Op? && Fits(sem, c, kernel, Types(args)) && kernel.spec == Type(e)
    ensures var (ids, st1) := LowerAll(args, st).value;
            var (id, st') := AddNode(st1, e.ref, kernel, ids);
            Good(sem, c, t, d, st', d') && id in d' && d'[id] == Type(e)
  {
    hide StateTyped, Fits;
    var (ids, st1) := LowerAll(args, st).value;
    assert ids[..|ids|] == ids;
    d' := AddRawTyped(sem, c, t, st1, d1, kernel, ids, Types(args));
    LaterTrans(d, d1, d');
    var (id, st2) := AddRaw(st1, kernel, ids);
    WithRefTyped(sem, c, t, st2, d', e, id);
  }

  lemma {:induction false} WindowTyped(sem: Sem, e: Expr, c: Context, t: Table, st: State, d: Decls)
      returns (d': Decls)
    requires StateTyped(sem, c, t, st, d) && WellTyped(sem, e, c, t) && e.WindowAt? && LowerNew(e, st).Success?
    ensures var (id, st') := LowerNew(e, st).value; Good(sem, c, t, d, st', d') && id in d' && d'[id] == Type(e)
    decreases e, 2
  {
    hide StateTyped, Fits;
    var d1 := LowerAllTyped(sem, e.base, c, t, st, d);
    var (ids, st1) := LowerAll(e.base, st).value;
    var d2 := LowerStartsTyped(sem, e.wop, e.starts, c, t, st1, d1);
    var (dyn, st2) := LowerStarts(e.wop, e.starts, st1).value;
    var kernel := Window(e.wop, e.attrs, e.lengths, StartSpecs(e.wop, e.starts), e.spec);
    IdsLater(ids, Types(e.base), d1, d2);
    assert (ids + dyn)[..OperandCount(kernel, |ids + dyn|)] == ids;
    d' := AddRawTyped(sem, c, t, st2, d2, kernel, ids + dyn, Types(e.base));
    LaterTrans(d, d1, d2);
    LaterTrans(d, d2, d');
    var (id, st3) := AddRaw(st2, kernel, ids + dyn);
    WithRefTyped(sem, c, t, st3, d', e, id);
  }

  lemma {:induction false} ReduceTyped(sem: Sem, e: Expr, c: Context, t: Table, st: State, d: Decls)
      returns (d': Decls)
    requires StateTyped(sem, c, t, st, d) && WellTyped(sem, e, c, t) && e.Reduce? && LowerNew(e, st).Success?
    ensures var (id, st') := LowerNew(e, st).value; Good(sem, c, t, d, st', d') && id in d' && d'[id] == Type(e)
    decreases e, 2
  {
    hide StateTyped, NodeTyped, SubTyped, FoldTyped, KnowsOp, Knows;
    var d1 := LowerTyped(sem, e.tensor, c, t, st, d);
    var (a, st1) := Lower(e.tensor, st).value;
    var d2 := LowerTyped(sem, e.acc, c, t, st1, d1);
    var (b, st2) := Lower(e.acc, st1).value;
    LaterTrans(d, d1, d2);
    var ps: seq<Expr>, depth: nat :| FoldTyped(sem, e, ps, depth, c, t);
    var fn := FnTyped(sem, e, ps, depth, c, t, st2);
    var (id, sub) := Lower(e.fn, Isolated(st2)).value;
    var st3 := st2.(blobs := sub.blobs);
    WithBlobsTyped(sem, c, t, st2, d2, sub.blobs);
    d' := AddFoldTyped(sem, e, ps, depth, c, t, st3, d2, [a, b], fn);
    LaterTrans(d, d2, d');
  }

  lemma {:induction false} FnTyped(sem: Sem, e: Expr, ps: seq<Expr>, depth: nat, c: Context, t: Table, st: State)
      returns (fn: Sub)
    requires e.Reduce? && FoldTyped(sem, e, ps, depth, c, t) && Lower(e.fn, Isolated(st)).Success?
    ensures var (id, sub) := Lower(e.fn, Isolated(st)).value; fn == Finish([e.fn], [id], sub) && st.blobs <= sub.blobs
    ensures SubTyped(sem, Context(None, ps, depth, c.cfg), fn, Sizes(SpecsOf(ps)), [Type(e.fn)])
    decreases e, 1
  {
    hide StateTyped, SubTyped, StateOk;
    var inner := Context(None, ps, depth, c.cfg);
    IsolatedTyped(sem, inner, t.bodies[e.ref], st);
    var d := LowerTyped(sem, e.fn, inner, t.bodies[e.ref], Isolated(st), map[]);
    var (id, sub) := Lower(e.fn, Isolated(st)).value;
    fn := Finish([e.fn], [id], sub);
    IsolatedOk(st);
    LowerForms(e.fn, Isolated(st));
    ItemsAre(sub);
    FinishTyped(sem, inner, t.bodies[e.ref], [e.fn], [id], sub, d, Sizes(SpecsOf(ps)));
    assert Types([e.fn]) == [Type(e.fn)];
  }

  lemma ItemsAre(st: State)
    requires StateOk(st)
    ensures ItemsOk(st)
  {
  }

  lemma AddFoldTyped(sem: Sem, e: Expr, ps: seq<Expr>, depth: nat, c: Context, t: Table, st: State, d: Decls,
      ids: seq<nat>, fn: Sub) returns (d': Decls)
    requires StateTyped(sem, c, t, st, d) && e.Reduce? && Named(e, t) && FoldTyped(sem, e, ps, depth, c, t)
    requires KnowsOp(c, e.op) && Knows(c, e.spec)
    requires sem.fits(FoldFinish(e.op, e.attrs, e.spec), [Type(e.tensor).shape])
    requires SubTyped(sem, Context(None, ps, depth, c.cfg), fn, Sizes(SpecsOf(ps)), [Type(e.fn)])
    requires IdsTyped(ids, [Type(e.tensor), Type(e.acc)], d)
    ensures var (id, st') := AddFold(st, e.ref, e.op, e.attrs, ids, e.count, fn, e.spec);
            Good(sem, c, t, d, st', d') && id in d' && d'[id] == e.spec
  {
    hide NodeTyped, SubTyped, FoldTyped, KnowsOp, Knows, InputsTyped, ConstantsTyped, NodesTyped, MemoTyped, BoundTyped;
    var node := Fold(st.counter, e.op, e.attrs, ids, e.count, fn, e.spec);
    d' := d[st.counter := e.spec];
    IdsLater(ids, [Type(e.tensor), Type(e.acc)], d, d');
    FoldNodeTyped(sem, c, e, ps, depth, t, st.counter, ids, fn, d');
    var st1 := st.(counter := st.counter + 1, nodes := st.nodes + [node]);
    AppendTyped(sem, c, t, st, d, node, st1, d');
    WithRefTyped(sem, c, t, st1, d', e, st.counter);
    assert AddFold(st, e.ref, e.op, e.attrs, ids, e.count, fn, e.spec).1 == WithRef(st1, e.ref, st.counter);
  }

  lemma {:induction false} CondTyped(sem: Sem, e: Expr, c: Context, t: Table, st: State, d: Decls) returns (d': Decls)
    requires StateTyped(sem, c, t, st, d) && WellTyped(sem, e, c, t) && e.Cond? && LowerNew(e, st).Success?
    ensures var (id, st') := LowerNew(e, st).value; Good(sem, c, t, d, st', d') && id in d' && d'[id] == Type(e)
    decreases e, 2
  {
    hide StateTyped;
    var d1 := LowerTyped(sem, e.default, c, t, st, d);
    var (otherwise, st1) := Lower(e.default, st).value;
    d' := LowerClausesTyped(sem, e.clauses, otherwise, Type(e.default), e.spec, c, t, st1, d1);
    var (id, st2) := LowerClauses(e.clauses, otherwise, e.spec, st1).value;
    LaterTrans(d, d1, d');
    WithRefTyped(sem, c, t, st2, d', e, id);
  }

  lemma {:induction false} BlockTyped(sem: Sem, e: Expr, c: Context, t: Table, st: State, d: Decls) returns (d': Decls)
    requires StateTyped(sem, c, t, st, d) && WellTyped(sem, e, c, t) && e.Block? && LowerNew(e, st).Success?
    ensures var (id, st') := LowerNew(e, st).value; Good(sem, c, t, d, st', d') && id in d' && d'[id] == Type(e)
    decreases e, 2
  {
    var d1 := LowerAllTyped(sem, e.inputs, c, t, st, d);
    var (bound, st1) := LowerAll(e.inputs, st).value;
    var inner := c.(block := Some(Types(e.inputs)));
    hide StateTyped;
    RebindTyped(sem, c, t, st1, d1, inner, Some(bound));
    d' := LowerTyped(sem, e.result, inner, t, st1.(bind := Some(bound)), d1);
    var (id, st2) := Lower(e.result, st1.(bind := Some(bound))).value;
    LaterTrans(d, d1, d');
    Unbind(sem, c, t, st, d, d');
    RebindTyped(sem, inner, t, st2, d', c, st.bind);
    WithRefTyped(sem, c, t, st2.(bind := st.bind), d', e, id);
  }

  lemma Unbind(sem: Sem, c: Context, t: Table, st: State, d: Decls, d': Decls)
    requires StateTyped(sem, c, t, st, d) && Later(d, d')
    ensures forall st1: State :: st1.bind == st.bind ==> BoundTyped(c, st1, d')
  {
  }

  lemma {:induction false} LowerAllTyped(sem: Sem, es: seq<Expr>, c: Context, t: Table, st: State, d: Decls)
      returns (d': Decls)
    requires StateTyped(sem, c, t, st, d) && AllTyped(sem, es, c, t) && LowerAll(es, st).Success?
    ensures var (ids, st') := LowerAll(es, st).value; Good(sem, c, t, d, st', d') && IdsTyped(ids, Types(es), d')
    decreases es, 0
  {
    hide StateTyped, WellTyped;
    if es == [] {
      d' := d;
    } else {
      var d1 := LowerAllTyped(sem, es[..|es| - 1], c, t, st, d);
      var (ids, st1) := LowerAll(es[..|es| - 1], st).value;
      d' := LowerTyped(sem, es[|es| - 1], c, t, st1, d1);
      LaterTrans(d, d1, d');
      IdsLater(ids, Types(es[..|es| - 1]), d1, d');
    }
  }

  lemma {:induction false} LowerStartsTyped(sem: Sem, wop: WindowOp, starts: seq<StartExpr>, c: Context, t: Table,
      st: State, d: Decls) returns (d': Decls)
    requires StateTyped(sem, c, t, st, d) && StartsTyped(sem, wop, starts, c, t)
    requires LowerStarts(wop, starts, st).Success?
    ensures var (ids, st') := LowerStarts(wop, starts, st).value;
            Good(sem, c, t, d, st', d') && forall k :: 0 <= k < |ids| ==> ids[k] in d'
    decreases starts, 0
  {
    hide StateTyped, WellTyped;
    if starts == [] {
      d' := d;
    } else {
      var s := starts[|starts| - 1];
      assert (starts decreases to s);
      var d1 := LowerStartsTyped(sem, wop, starts[..|starts| - 1], c, t, st, d);
      if StaticStart(wop, s).Some? {
        d' := d1;
      } else {
        d' := LowerTyped(sem, s.e, c, t, LowerStarts(wop, starts[..|starts| - 1], st).value.1, d1);
        LaterTrans(d, d1, d');
      }
    }
  }

  lemma {:induction false} LowerClausesTyped(sem: Sem, clauses: seq<Clause>, otherwise: nat, ot: Spec, spec: Spec,
      c: Context, t: Table, st: State, d: Decls) returns (d': Decls)
    requires StateTyped(sem, c, t, st, d) && ClausesTyped(sem, clauses, ot, spec, c, t) && otherwise in d
    requires d[otherwise] == ot && LowerClauses(clauses, otherwise, spec, st).Success?
    ensures var (id, st') := LowerClauses(clauses, otherwise, spec, st).value;
            Good(sem, c, t, d, st', d') && id in d' && d'[id] == if clauses == [] then ot else spec
    decreases clauses, 0
  {
    hide StateTyped, WellTyped, Fits, Later, IdsTyped, StartsTyped, AllTyped;
    if clauses == [] {
      LaterSelf(d);
      d' := d;
    } else {
      var first := clauses[0];
      assert (clauses decreases to first);
      var d1 := LowerClausesTyped(sem, clauses[1..], otherwise, ot, spec, c, t, st, d);
      var (rest, st1) := LowerClauses(clauses[1..], otherwise, spec, st).value;
      var d2 := LowerTyped(sem, first.pred, c, t, st1, d1);
      var (p, st2) := Lower(first.pred, st1).value;
      var d3 := LowerTyped(sem, first.result, c, t, st2, d2);
      var (v, st3) := Lower(first.result, st2).value;
      ThreeLater(d, d1, d2, d3, rest, p);
      var ts := [Type(first.pred), Type(first.result), if clauses[1..] == [] then ot else spec];
      d' := SelectTyped(sem, c, t, st3, d3, spec, p, v, rest, ts);
      LaterTrans(d, d3, d');
    }
  }

  lemma ThreeLater(d: Decls, d1: Decls, d2: Decls, d3: Decls, a: nat, b: nat)
    requires Later(d, d1) && Later(d1, d2) && Later(d2, d3) && a in d1 && b in d2
    ensures Later(d, d3) && a in d3 && d3[a] == d1[a] && b in d3 && d3[b] == d2[b]
  {
  }

  lemma SelectTyped(sem: Sem, c: Context, t: Table, st: State, d: Decls, spec: Spec, p: nat, v: nat, rest: nat,
      ts: seq<Spec>) returns (d': Decls)
    requires StateTyped(sem, c, t, st, d) && |ts| == 3 && Fits(sem, c, SelectKernel(spec), ts)
    requires p in d && d[p] == ts[0] && v in d && d[v] == ts[1] && rest in d && d[rest] == ts[2]
    ensures var (id, st') := AddRaw(st, SelectKernel(spec), [p, v, rest]);
            Good(sem, c, t, d, st', d') && id in d' && d'[id] == spec
  {
    hide StateTyped, Fits;
    assert [p, v, rest][..3] == [p, v, rest];
    d' := AddRawTyped(sem, c, t, st, d, SelectKernel(spec), [p, v, rest], ts);
  }

  lemma {:induction false} LowerTupleTyped(sem: Sem, e: Expr, c: Context, t: Table, st: State, d: Decls)
      returns (d': Decls)
    requires StateTyped(sem, c, t, st, d) && TupleTyped(sem, e, c, t) && LowerTuple(e, st).Success?
    ensures var (ids, st') := LowerTuple(e, st).value; Good(sem, c, t, d, st', d') && IdsTyped(ids, TupleTypes(e), d')
    decreases e, 2
  {
    match e {
      case TupleBlock(ref, _, _) =>
        if ref in st.tuples {
          d' := d;
        } else {
          d' := TupleBlockTyped(sem, e, c, t, st, d);
        }
      case Loop(ref, _, _, _) =>
        if ref in st.tuples {
          d' := d;
        } else {
          d' := LoopTyped(sem, e, c, t, st, d);
        }
      case Metadata(_, inner, _) => d' := LowerTupleTyped(sem, inner, c, t, st, d);
      case TupleCond(_, _, _) => d' := TupleCondTyped(sem, e, c, t, st, d);
      case Tuple(elems) => d' := LowerAllTyped(sem, elems, c, t, st, d);
      case _ => d' := d;
    }
  }

  lemma {:induction false} TupleBlockTyped(sem: Sem, e: Expr, c: Context, t: Table, st: State, d: Decls)
      returns (d': Decls)
    requires StateTyped(sem, c, t, st, d) && TupleTyped(sem, e, c, t) && e.TupleBlock? && e.ref !in st.tuples
    requires LowerTuple(e, st).Success?
    ensures var (ids, st') := LowerTuple(e, st).value; Good(sem, c, t, d, st', d') && IdsTyped(ids, TupleTypes(e), d')
    decreases e, 1
  {
    var d1 := LowerAllTyped(sem, e.inputs, c, t, st, d);
    var (bound, st1) := LowerAll(e.inputs, st).value;
    var inner := c.(block := Some(Types(e.inputs)));
    hide StateTyped;
    RebindTyped(sem, c, t, st1, d1, inner, Some(bound));
    d' := LowerAllTyped(sem, e.results, inner, t, st1.(bind := Some(bound)), d1);
    var (ids, st2) := LowerAll(e.results, st1.(bind := Some(bound))).value;
    LaterTrans(d, d1, d');
    Unbind(sem, c, t, st, d, d');
    RebindTyped(sem, inner, t, st2, d', c, st.bind);
    RememberTyped(sem, c, t, st2.(bind := st.bind), d', e, ids);
  }

  lemma {:induction false} LoopTyped(sem: Sem, e: Expr, c: Context, t: Table, st: State, d: Decls) returns (d': Decls)
    requires StateTyped(sem, c, t, st, d) && TupleTyped(sem, e, c, t) && e.Loop? && e.ref !in st.tuples
    requires LowerTuple(e, st).Success?
    ensures var (ids, st') := LowerTuple(e, st).value; Good(sem, c, t, d, st', d') && IdsTyped(ids, TupleTypes(e), d')
    decreases e, 1
  {
    hide StateTyped, SubTyped, StateOk, Knows, KnowsOp, NodeTyped;
    var d1 := LowerAllTyped(sem, e.init, c, t, st, d);
    var (ids, st1) := LowerAll(e.init, st).value;
    var ps: seq<Expr> :| ParamsFit(ps, Types(e.init))
        && WellTyped(sem, e.test, Context(None, ps, c.depth - 1, c.cfg), t.tests[e.ref]);
    var qs: seq<Expr> :| ParamsFit(qs, Types(e.init))
        && AllTyped(sem, e.body, Context(None, qs, c.depth - 1, c.cfg), t.bodies[e.ref]);
    var c1, c2 := Context(None, ps, c.depth - 1, c.cfg), Context(None, qs, c.depth - 1, c.cfg);
    var cond := TestTyped(sem, e, c1, t.tests[e.ref], st1);
    var (test, st2) := Lower(e.test, Isolated(st1)).value;
    var body := BodyTyped(sem, e, c2, t.bodies[e.ref], st2);
    var (outs, st3) := LowerAll(e.body, Isolated(st2)).value;
    WithBlobsTyped(sem, c, t, st1, d1, st3.blobs);
    d' := AddLoopTyped(sem, e, c, t, st1.(blobs := st3.blobs), d1, ids, cond, body, c1, c2);
    LaterTrans(d, d1, d');
  }

  lemma {:induction false} TestTyped(sem: Sem, e: Expr, c: Context, t: Table, st: State) returns (cond: Sub)
    requires e.Loop? && WellTyped(sem, e.test, c, t) && c.block.None? && ParamsFit(c.params, Types(e.init))
    requires Lower(e.test, Isolated(st)).Success?
    ensures var (id, sub) := Lower(e.test, Isolated(st)).value;
            cond == Finish([e.test], [id], sub) && st.blobs <= sub.blobs
    ensures SubTyped(sem, c, cond, Sizes(Types(e.init)), [Type(e.test)])
    decreases e, 0
  {
    hide StateTyped, SubTyped, StateOk;
    IsolatedTyped(sem, c, t, st);
    var d := LowerTyped(sem, e.test, c, t, Isolated(st), map[]);
    var (id, sub) := Lower(e.test, Isolated(st)).value;
    cond := Finish([e.test], [id], sub);
    IsolatedOk(st);
    LowerForms(e.test, Isolated(st));
    ItemsAre(sub);
    FinishTyped(sem, c, t, [e.test], [id], sub, d, Sizes(Types(e.init)));
    assert Types([e.test]) == [Type(e.test)];
  }

  lemma {:induction false} BodyTyped(sem: Sem, e: Expr, c: Context, t: Table, st: State) returns (body: Sub)
    requires e.Loop? && AllTyped(sem, e.body, c, t) && c.block.None? && ParamsFit(c.params, Types(e.init))
    requires LowerAll(e.body, Isolated(st)).Success?
    ensures var (ids, sub) := LowerAll(e.body, Isolated(st)).value;
            body == Finish(e.body, ids, sub) && st.blobs <= sub.blobs
    ensures SubTyped(sem, c, body, Sizes(Types(e.init)), Types(e.body))
    decreases e, 0
  {
    hide StateTyped, SubTyped, StateOk;
    IsolatedTyped(sem, c, t, st);
    var d := LowerAllTyped(sem, e.body, c, t, Isolated(st), map[]);
    var (ids, sub) := LowerAll(e.body, Isolated(st)).value;
    body := Finish(e.body, ids, sub);
    IsolatedOk(st);
    LowerAllForms(e.body, Isolated(st));
    ItemsAre(sub);
    FinishTyped(sem, c, t, e.body, ids, sub, d, Sizes(Types(e.init)));
  }

  /** The types with those of a loop's outputs. */
  function WithOutputs(d: Decls, first: nat, body: seq<Expr>): (d': Decls)
    requires forall id: nat :: id in d <==> id < first
    ensures Later(d, d') && forall id: nat :: id in d' <==> id < first + |body|
    ensures forall k :: 0 <= k < |body| ==> d'[first + k] == SpecOf(body[k])
  {
    map id: nat | id < first + |body| :: if id < first then d[id] else SpecOf(body[id - first])
  }

  /** A loop's outputs have the types of what its body returns. */
  lemma OutputsTyped(d: Decls, first: nat, body: seq<Expr>, d': Decls)
    requires (forall id: nat :: id in d <==> id < first) && d' == WithOutputs(d, first, body) && Plain(body)
    ensures IdsTyped(OutIds(LoopOutputs(body, first)), Types(body), d')
  {
    hide Type, SpecOf, Types, WithOutputs, LoopOutputs, OutIds;
    var ids := OutIds(LoopOutputs(body, first));
    forall k | 0 <= k < |ids| ensures ids[k] in d' && d'[ids[k]] == Types(body)[k] {
      assert ids[k] == first + k && d'[first + k] == SpecOf(body[k]);
    }
  }

  lemma IdsGiven(sem: Sem, c: Context, t: Table, st: State, d: Decls)
    requires StateTyped(sem, c, t, st, d)
    ensures forall id: nat :: id in d <==> id < st.counter
  {
  }

  /** A typed loop node is appended, and its outputs remembered. */
  lemma LoopAppended(sem: Sem, e: Expr, c: Context, t: Table, st: State, d: Decls, ids: seq<nat>, cond: Sub, body: Sub,
      d': Decls)
    requires StateTyped(sem, c, t, st, d) && e.Loop? && Named(e, t) && d' == WithOutputs(d, st.counter, e.body)
    requires NodeTyped(sem, c, While(ids, cond, body, LoopOutputs(e.body, st.counter)), d')
    requires IdsTyped(OutIds(LoopOutputs(e.body, st.counter)), TupleTypes(e), d')
    ensures Good(sem, c, t, d, AddLoop(st, e.ref, ids, cond, body, e.body).1, d')
  {
    hide NodeTyped, InputsTyped, ConstantsTyped, NodesTyped, MemoTyped, BoundTyped, OutIds, IdsTyped, TupleTypes,
        LoopOutputs, WithOutputs;
    var outs := LoopOutputs(e.body, st.counter);
    var node := While(ids, cond, body, outs);
    var st1 := st.(counter := st.counter + |e.body|, nodes := st.nodes + [node]);
    AppendTyped(sem, c, t, st, d, node, st1, d');
    RememberTyped(sem, c, t, st1, d', e, OutIds(outs));
  }

  lemma AddLoopTyped(sem: Sem, e: Expr, c: Context, t: Table, st: State, d: Decls, ids: seq<nat>, cond: Sub, body: Sub,
      c1: Context, c2: Context) returns (d': Decls)
    requires StateTyped(sem, c, t, st, d) && e.Loop? && Named(e, t) && IdsTyped(ids, Types(e.init), d)
    requires c.depth > 0 && c1.depth == c2.depth == c.depth - 1 && c1.cfg == c2.cfg == c.cfg
    requires KnowsOp(c, "while") && e.body != [] && Plain(e.body) && Sizes(Types(e.body)) == Sizes(Types(e.init))
    requires forall k :: 0 <= k < |e.body| ==> Knows(c, SpecOf(e.body[k]))
    requires SubTyped(sem, c1, cond, Sizes(Types(e.init)), [Type(e.test)])
    requires SubTyped(sem, c2, body, Sizes(Types(e.init)), Types(e.body))
    ensures var (outs, st') := AddLoop(st, e.ref, ids, cond, body, e.body);
            Good(sem, c, t, d, st', d') && IdsTyped(outs, Types(e.body), d')
  {
    hide SubTyped, KnowsOp, Knows, NodeTyped, OutIds, IdsTyped, Types, Sizes, Plain, StateTyped, Good, Later, Named,
        WithOutputs, LoopOutputs;
    var outs := LoopOutputs(e.body, st.counter);
    IdsGiven(sem, c, t, st, d);
    d' := WithOutputs(d, st.counter, e.body);
    OutputsTyped(d, st.counter, e.body, d');
    IdsLater(ids, Types(e.init), d, d');
    LoopNodeTyped(sem, c, e, ids, cond, body, outs, d', c1, c2);
    assert TupleTypes(e) == Types(e.body);
    LoopAppended(sem, e, c, t, st, d, ids, cond, body, d');
  }

  /** The choices of a tuple-valued cond, lowered. */
  predicate ChoicesHave(data: seq<Choice>, choices: seq<TupleClause>, d: Decls) {
    |data| == |choices| && forall k :: 0 <= k < |data| ==>
      && data[k].pred in d && d[data[k].pred] == Type(choices[k].pred)
      && IdsTyped(data[k].results, Types(choices[k].results), d)
  }

  lemma HasLater(d: Decls, d': Decls, id: nat)
    requires Later(d, d') && id in d
    ensures id in d' && d'[id] == d[id]
  {
  }

  lemma ChoicesLater(data: seq<Choice>, choices: seq<TupleClause>, d: Decls, d': Decls)
    requires ChoicesHave(data, choices, d) && Later(d, d')
    ensures ChoicesHave(data, choices, d')
  {
  }

  lemma {:induction false} LowerChoicesTyped(sem: Sem, choices: seq<TupleClause>, ts: seq<Spec>, width: nat, c: Context,
      t: Table, st: State, d: Decls) returns (d': Decls)
    requires StateTyped(sem, c, t, st, d) && ChoicesTyped(sem, choices, ts, c, t)
    requires LowerChoices(choices, width, st).Success?
    ensures var (data, st') := LowerChoices(choices, width, st).value;
            Good(sem, c, t, d, st', d') && ChoicesHave(data, choices, d')
    decreases choices, 0
  {
    hide StateTyped, WellTyped, AllTyped, ChoiceFits, IdsTyped, Later;
    if choices == [] {
      LaterSelf(d);
      d' := d;
    } else {
      var last, init := choices[|choices| - 1], choices[..|choices| - 1];
      assert (choices decreases to last);
      var d1 := LowerChoicesTyped(sem, init, ts, width, c, t, st, d);
      var (data, st1) := LowerChoices(init, width, st).value;
      var d2 := LowerTyped(sem, last.pred, c, t, st1, d1);
      var (p, st2) := Lower(last.pred, st1).value;
      d' := LowerAllTyped(sem, last.results, c, t, st2, d2);
      LaterTrans(d1, d2, d');
      LaterTrans(d, d1, d');
      ChoicesLater(data, init, d1, d');
      HasLater(d2, d', p);
    }
  }

  lemma {:induction false} ChoicesFit(sem: Sem, choices: seq<TupleClause>, ts: seq<Spec>, c: Context, t: Table, k: nat)
    requires ChoicesTyped(sem, choices, ts, c, t) && k < |choices|
    ensures ChoiceFits(sem, Type(choices[k].pred), Types(choices[k].results), ts, c)
    decreases |choices|
  {
    hide ChoiceFits, WellTyped;
    if k < |choices| - 1 {
      ChoicesFit(sem, choices[..|choices| - 1], ts, c, t, k);
    }
  }

  /** Every select of one position fits. */
  predicate OneFits(sem: Sem, choices: seq<TupleClause>, i: nat, spec: Spec, c: Context) {
    forall k :: 0 <= k < |choices| && i < |choices[k].results| ==>
      Fits(sem, c, SelectKernel(spec), [Type(choices[k].pred), Type(choices[k].results[i]), spec])
  }

  lemma {:induction false} SelectOneTyped(sem: Sem, data: seq<Choice>, choices: seq<TupleClause>, i: nat,
      otherwise: nat, spec: Spec, c: Context, t: Table, st: State, d: Decls) returns (d': Decls)
    requires StateTyped(sem, c, t, st, d) && ChoicesHave(data, choices, d) && OneFits(sem, choices, i, spec, c)
    requires otherwise in d && d[otherwise] == spec && forall k :: 0 <= k < |data| ==> i < |data[k].results|
    ensures var (id, st') := SelectOne(data, i, otherwise, spec, st);
            Good(sem, c, t, d, st', d') && id in d' && d'[id] == spec
    decreases |data|
  {
    hide StateTyped, Fits;
    if data == [] {
      d' := d;
    } else {
      var d1 := SelectOneTyped(sem, data[1..], choices[1..], i, otherwise, spec, c, t, st, d);
      var (rest, st1) := SelectOne(data[1..], i, otherwise, spec, st);
      ChoicesLater(data, choices, d, d1);
      var ts := [Type(choices[0].pred), Type(choices[0].results[i]), spec];
      d' := SelectTyped(sem, c, t, st1, d1, spec, data[0].pred, data[0].results[i], rest, ts);
      LaterTrans(d, d1, d');
    }
  }

  lemma {:induction false} SelectAllTyped(sem: Sem, data: seq<Choice>, choices: seq<TupleClause>, others: seq<nat>,
      defaults: seq<Expr>, c: Context, t: Table, st: State, d: Decls) returns (d': Decls)
    requires StateTyped(sem, c, t, st, d) && ChoicesHave(data, choices, d)
    requires ChoicesTyped(sem, choices, Types(defaults), c, t) && Plain(defaults)
    requires |others| <= |defaults| && IdsTyped(others, Types(defaults)[..|others|], d)
    requires forall k :: 0 <= k < |data| ==> |data[k].results| == |defaults|
    ensures var (ids, st') := SelectAll(data, others, defaults, st);
            Good(sem, c, t, d, st', d') && IdsTyped(ids, Types(defaults)[..|others|], d')
    decreases |others|
  {
    hide StateTyped, Fits, ChoicesTyped;
    if others == [] {
      d' := d;
    } else {
      var i := |others| - 1;
      var d1 := SelectAllTyped(sem, data, choices, others[..i], defaults, c, t, st, d);
      var (ids, st1) := SelectAll(data, others[..i], defaults, st);
      ChoicesLater(data, choices, d, d1);
      OneOfAll(sem, choices, defaults, i, c, t);
      d' := SelectOneTyped(sem, data, choices, i, others[i], SpecOf(defaults[i]), c, t, st1, d1);
      LaterTrans(d, d1, d');
      IdsLater(ids, Types(defaults)[..i], d1, d');
    }
  }

  lemma OneOfAll(sem: Sem, choices: seq<TupleClause>, defaults: seq<Expr>, i: nat, c: Context, t: Table)
    requires ChoicesTyped(sem, choices, Types(defaults), c, t) && Plain(defaults) && i < |defaults|
    ensures OneFits(sem, choices, i, SpecOf(defaults[i]), c)
  {
    hide Fits, ChoicesTyped;
    forall k | 0 <= k < |choices| && i < |choices[k].results|
        ensures Fits(sem, c, SelectKernel(SpecOf(defaults[i])),
                  [Type(choices[k].pred), Type(choices[k].results[i]), SpecOf(defaults[i])]) {
      ChoicesFit(sem, choices, Types(defaults), c, t, k);
    }
  }

  lemma {:induction false} TupleCondTyped(sem: Sem, e: Expr, c: Context, t: Table, st: State, d: Decls)
      returns (d': Decls)
    requires StateTyped(sem, c, t, st, d) && TupleTyped(sem, e, c, t) && e.TupleCond? && LowerTuple(e, st).Success?
    ensures var (ids, st') := LowerTuple(e, st).value; Good(sem, c, t, d, st', d') && IdsTyped(ids, TupleTypes(e), d')
    decreases e, 1
  {
    hide StateTyped, ChoicesTyped;
    var d1 := LowerAllTyped(sem, e.defaults, c, t, st, d);
    var (others, st1) := LowerAll(e.defaults, st).value;
    var d2 := LowerChoicesTyped(sem, e.choices, Types(e.defaults), |e.defaults|, c, t, st1, d1);
    var (data, st2) := LowerChoices(e.choices, |e.defaults|, st1).value;
    IdsLater(others, Types(e.defaults), d1, d2);
    var ts := Types(e.defaults);
    assert ts[..|others|] == ts;
    d' := SelectAllTyped(sem, data, e.choices, others, e.defaults, c, t, st2, d2);
    LaterTrans(d, d1, d2);
    LaterTrans(d, d2, d');
  }

  // -- the main results ----------------------------------------------------------------------

  /** A well-typed list of outputs, each declared with its own type. */
  ghost predicate ProgramTyped(sem: Sem, outputs: seq<Expr>, c: Context, t: Table) {
    c.block.None? && AllTyped(sem, outputs, c, t) && Plain(outputs)
  }

  /** Lowering keeps types: the graph is well typed on arguments of the parameters' shapes, declares
      every output with its type, and has one input for each parameter that is read. */
  lemma LoweringKeepsTypes(sem: Sem, outputs: seq<Expr>, c: Context, t: Table)
    requires ProgramTyped(sem, outputs, c, t) && ToGraph(outputs).Success?
    ensures var g := ToGraph(outputs).value.main;
            && TypedSub(sem, g, Sizes(SpecsOf(c.params)))
            && (forall k :: 0 <= k < |g.outputs| ==>
                  g.outputs[k].id in Specs(g) && Specs(g)[g.outputs[k].id] == g.outputs[k].spec == Type(outputs[k]))
            && (forall k :: 0 <= k < |g.inputs| ==>
                  g.inputs[k].index < |c.params| && SpecOf(c.params[g.inputs[k].index]) == g.inputs[k].spec)
            && (forall i, j :: 0 <= i < j < |g.inputs| ==> g.inputs[i].index != g.inputs[j].index)
            && (forall k :: 0 <= k < |g.nodes| ==> DepthOk(g.nodes[k], c.depth))
  {
    var st, d := MainTyped(sem, outputs, c, t);
    var g := ToGraph(outputs).value.main;
    var ids := LowerAll(outputs, EMPTY).value.0;
    DeclaredAre(sem, c, t, st, d, g);
    ItemsTyped(sem, c, t, st, d, g, Sizes(SpecsOf(c.params)));
    hide TypedSub, Specs, DeclaredShapes, TypedNode;
    forall k | 0 <= k < |g.inputs| ensures InputTyped(c, t, st, g.inputs[k], d) { }
    forall k | 0 <= k < |g.nodes| ensures NodeTyped(sem, c, g.nodes[k], d) { }
  }

  lemma MainTyped(sem: Sem, outputs: seq<Expr>, c: Context, t: Table) returns (st: State, d: Decls)
    requires ProgramTyped(sem, outputs, c, t) && ToGraph(outputs).Success?
    ensures var g := ToGraph(outputs).value;
            && StateTyped(sem, c, t, st, d) && ItemsOk(st) && st.blobs == g.blobs
            && g.main.inputs == st.inputs && g.main.constants == st.constants && g.main.nodes == st.nodes
            && IdsTyped(OutIds(g.main.outputs), Types(outputs), d) && |g.main.outputs| == |outputs|
            && forall k :: 0 <= k < |outputs| ==> g.main.outputs[k].spec == SpecOf(outputs[k])
  {
    hide StateTyped, StateOk;
    IsolatedTyped(sem, c, t, EMPTY);
    assert Isolated(EMPTY) == EMPTY;
    d := LowerAllTyped(sem, outputs, c, t, EMPTY, map[]);
    var ids := LowerAll(outputs, EMPTY).value.0;
    st := LowerAll(outputs, EMPTY).value.1;
    IsolatedOk(EMPTY);
    LowerAllForms(outputs, EMPTY);
    ItemsAre(st);
    assert OutIds(ToGraph(outputs).value.main.outputs) == ids;
  }

  /** The worker accepts every well-typed program made of what it knows, unless it has too many nodes or
      no output. */
  lemma WellTypedAccepted(sem: Sem, outputs: seq<Expr>, c: Context, t: Table)
    requires ProgramTyped(sem, outputs, c, t) && c.cfg.Some? && ToGraph(outputs).Success?
    requires forall k :: 0 <= k < |outputs| ==> Knows(c, SpecOf(outputs[k]))
    ensures var g := ToGraph(outputs).value;
            Passes(c.cfg.value, g.version, g.main, g.blobs) <==>
              |g.main.nodes| <= c.cfg.value.maxNodes && outputs != []
  {
    hide ProgramTyped, StateTyped, TypedSub, Specs, Passes, ToGraph;
    var st, d := MainTyped(sem, outputs, c, t);
    LoweredAccepted(c.cfg.value, outputs);
    LoweringKeepsTypes(sem, outputs, c, t);
    ItemsKnown(sem, c, t, st, d);
  }

  lemma ItemsKnown(sem: Sem, c: Context, t: Table, st: State, d: Decls)
    requires StateTyped(sem, c, t, st, d) && c.cfg.Some?
    ensures forall k :: 0 <= k < |st.inputs| ==> InputKnown(c.cfg.value, st.inputs[k])
    ensures forall k :: 0 <= k < |st.constants| ==> ConstantKnown(c.cfg.value, st.constants[k], st.blobs)
    ensures forall k :: 0 <= k < |st.nodes| ==> NodeKnown(c.cfg.value, st.nodes[k])
  {
    hide TypedNode, NodeKnown;
    forall k | 0 <= k < |st.inputs| ensures InputKnown(c.cfg.value, st.inputs[k]) {
      assert InputTyped(c, t, st, st.inputs[k], d);
    }
    forall k | 0 <= k < |st.nodes| ensures NodeKnown(c.cfg.value, st.nodes[k]) {
      assert NodeTyped(sem, c, st.nodes[k], d);
    }
  }
}
