/** Nx expressions, and their lowering to the graph. */
module Lowering {
  import opened Values
  import opened GraphIR

  /** The reference an Nx expression is created with: shared sub-expressions carry the same one. */
  type Ref = nat

  /** A traced expression.  `Apply` stands for every operation whose operands are all lowered and
      whose attributes are static; `Fill` for pad and window_scatter, which need a compile-time
      scalar.  A literal also carries its value as a number, which only scalar literals are asked
      for.  The four last forms are tuple-valued. */
  datatype Expr =
    | Param(ref: Ref, pos: nat, spec: Spec)
    | Const(ref: Ref, number: Number, spec: Spec)
    | Literal(ref: Ref, bytes: Bytes, number: Number, spec: Spec)
    | Apply(ref: Ref, op: string, args: seq<Expr>, attrs: Attrs, spec: Spec)
    | Fill(ref: Ref, op: string, args: seq<Expr>, fill: Expr, attrs: Attrs, spec: Spec)
    | WindowAt(ref: Ref, wop: WindowOp, base: seq<Expr>, starts: seq<StartExpr>, lengths: seq<nat>, attrs: Attrs,
        spec: Spec)
    | Reduce(ref: Ref, op: string, tensor: Expr, acc: Expr, fn: Expr, count: nat, attrs: Attrs, spec: Spec)
    | Metadata(ref: Ref, inner: Expr, spec: Spec)
    | Cond(ref: Ref, clauses: seq<Clause>, default: Expr, spec: Spec)
    | Block(ref: Ref, inputs: seq<Expr>, result: Expr, spec: Spec)
    | Elem(ref: Ref, source: Expr, index: nat, spec: Spec)
    | Unsupported(ref: Ref, op: string, spec: Spec)
    | TupleBlock(ref: Ref, inputs: seq<Expr>, results: seq<Expr>)
    | Loop(ref: Ref, init: seq<Expr>, test: Expr, body: seq<Expr>)
    | TupleCond(ref: Ref, choices: seq<TupleClause>, defaults: seq<Expr>)
    | Tuple(elems: seq<Expr>)

  datatype StartExpr = At(n: int) | From(e: Expr)
  datatype Clause = Clause(pred: Expr, result: Expr)
  datatype TupleClause = TupleClause(pred: Expr, results: seq<Expr>)

  /** Why an expression is refused before anything is sent to the worker. */
  datatype LowerError = UnsupportedOp(op: string) | NotATensor | NotATuple | NotConstant | BadProjection | BadStart

  function SpecOf(e: Expr): Spec {
    match e
    case TupleBlock(_, _, _) => Spec([], "tuple")
    case Loop(_, _, _, _) => Spec([], "tuple")
    case TupleCond(_, _, _) => Spec([], "tuple")
    case Tuple(_) => Spec([], "tuple")
    case _ => e.spec
  }

  /** The lowering state.  `bind` is set inside a block: its parameters are aliases of these ids. */
  datatype State = State(
    ids: map<Ref, nat>,
    tuples: map<Ref, seq<nat>>,
    counter: nat,
    inputs: seq<GraphInput>,
    constants: seq<Constant>,
    nodes: seq<Node>,
    blobs: seq<Bytes>,
    bind: Option<seq<nat>>)

  const EMPTY := State(map[], map[], 0, [], [], [], [], None)

  // -- state updates --------------------------------------------------------

  function WithRef(st: State, ref: Ref, id: nat): State {
    st.(ids := st.ids[ref := id])
  }

  function AddInput(st: State, ref: Ref, pos: nat, spec: Spec): State {
    WithRef(st, ref, st.counter).(counter := st.counter + 1, inputs := st.inputs + [GraphInput(st.counter, pos, spec)])
  }

  function AddConstant(st: State, ref: Ref, source: Source, spec: Spec): State {
    WithRef(st, ref, st.counter).(counter := st.counter + 1, constants :=
        st.constants + [Constant(st.counter, source, spec)])
  }

  /** A node not tied to an expression, such as the selects a cond expands into. */
  function AddRaw(st: State, kernel: Kernel, inputs: seq<nat>): (nat, State) {
    (st.counter, st.(counter := st.counter + 1, nodes := st.nodes + [Compute(st.counter, kernel, inputs)]))
  }

  function AddNode(st: State, ref: Ref, kernel: Kernel, inputs: seq<nat>): (nat, State) {
    (st.counter, WithRef(AddRaw(st, kernel, inputs).1, ref, st.counter))
  }

  function AddFold(st: State, ref: Ref, op: string, attrs: Attrs, inputs: seq<nat>, count: nat, fn: Sub,
      spec: Spec): (nat, State)
  {
    var node := Fold(st.counter, op, attrs, inputs, count, fn, spec);
    (st.counter, WithRef(st, ref, st.counter).(counter := st.counter + 1, nodes := st.nodes + [node]))
  }

  /** A loop node defines one id per loop variable. */
  function AddLoop(st: State, ref: Ref, inputs: seq<nat>, cond: Sub, body: Sub, results: seq<Expr>): (seq<nat>, State) {
    var outs := LoopOutputs(results, st.counter);
    (OutIds(outs), st.(counter := st.counter + |results|, nodes := st.nodes + [While(inputs, cond, body, outs)],
                       tuples := st.tuples[ref := OutIds(outs)]))
  }

  function LoopOutputs(body: seq<Expr>, first: nat): (outs: seq<Out>)
    ensures |outs| == |body|
    ensures forall k :: 0 <= k < |body| ==> outs[k].id == first + k && outs[k].spec == SpecOf(body[k])
  {
    seq(|body|, k requires 0 <= k < |body| => Out(first + k, SpecOf(body[k])))
  }

  // -- compile-time scalars -------------------------------------------------

  /** A fill value must be a constant, or a literal, under any number of metadata wrappers. */
  function ScalarConstant(e: Expr): Result<Number, LowerError> {
    match e
    case Metadata(_, inner, _) => ScalarConstant(inner)
    case Const(_, number, _) => Success(number)
    case Literal(_, _, number, _) => Success(number)
    case _ => Failure(NotConstant)
  }

  /** Whether a start is static.  A slice start is static when it is an integer; a put_slice start
      always is an expression, static when it is a compile-time scalar. */
  function StaticStart(wop: WindowOp, s: StartExpr): Option<int> {
    match s
    case At(n) => Some(n)
    case From(e) =>
      if wop.PutSlice? && ScalarConstant(e).Success? then Some(IntOf(ScalarConstant(e).value)) else None
  }

  function DynamicCount(wop: WindowOp, starts: seq<StartExpr>): nat {
    if starts == [] then 0
    else DynamicCount(wop, starts[..|starts| - 1]) + if StaticStart(wop, starts[|starts| - 1]).Some? then 0 else 1
  }

  /** The start descriptors: dynamic start number k is `Input(k)`. */
  function StartSpecs(wop: WindowOp, starts: seq<StartExpr>): (specs: seq<Start>)
    ensures |specs| == |starts|
  {
    if starts == [] then []
    else
      var before := starts[..|starts| - 1];
      var s := StaticStart(wop, starts[|starts| - 1]);
      StartSpecs(wop, before) + [if s.Some? then Static(s.value) else Input(DynamicCount(wop, before))]
  }

  // -- lowering -------------------------------------------------------------

  /** Lowering only adds literals, and leaves the parameter binding as it found it. */
  predicate Grew(st: State, st': State) {
    |st.blobs| <= |st'.blobs| && st'.blobs[..|st.blobs|] == st.blobs && st'.bind == st.bind
  }

  function Lower(e: Expr, st: State): (r: Result<(nat, State), LowerError>)
    ensures r.Success? ==> Grew(st, r.value.1)
    decreases e, 2
  {
    if e.Tuple? then Failure(NotATensor)
    else if e.ref in st.ids then Success((st.ids[e.ref], st))
    else LowerNew(e, st)
  }

  function LowerNew(e: Expr, st: State): (r: Result<(nat, State), LowerError>)
    requires !e.Tuple?
    ensures r.Success? ==> Grew(st, r.value.1)
    decreases e, 1
  {
    match e
    case Param(ref, pos, spec) =>
      if st.bind.Some? && pos < |st.bind.value| then
        Success((st.bind.value[pos], WithRef(st, ref, st.bind.value[pos])))
      else
        Success((st.counter, AddInput(st, ref, pos, spec)))
    case Const(ref, number, spec) =>
      Success((st.counter, AddConstant(st, ref, Scalar(number), spec)))
    case Literal(ref, bytes, _, spec) =>
      Success((st.counter, AddConstant(st, ref, Data(|st.blobs|), spec).(blobs := st.blobs + [bytes])))
    case Apply(ref, op, args, attrs, spec) =>
      var (ids, st) :- LowerAll(args, st);
      Success(AddNode(st, ref, Op(op, attrs, None, spec), ids))
    case Fill(ref, op, args, fill, attrs, spec) =>
      var (ids, st) :- LowerAll(args, st);
      var number :- ScalarConstant(fill);
      Success(AddNode(st, ref, Op(op, attrs, Some(number), spec), ids))
    case WindowAt(ref, wop, base, starts, lengths, attrs, spec) =>
      var (ids, st) :- if |base| == FirstStart(wop) then LowerAll(base, st) else Failure(UnsupportedOp("slice"));
      var (dyn, st) :- LowerStarts(wop, starts, st);
      Success(AddNode(st, ref, Window(wop, attrs, lengths, StartSpecs(wop, starts), spec), ids + dyn))
    case Reduce(ref, op, tensor, acc, fn, count, attrs, spec) =>
      var (t, st) :- Lower(tensor, st);
      var (a, st) :- Lower(acc, st);
      var (id, sub) :- Lower(fn, Isolated(st));
      Success(AddFold(st.(blobs := sub.blobs), ref, op, attrs, [t, a], count, Finish([fn], [id], sub), spec))
    case Metadata(ref, inner, _) =>
      var (id, st) :- Lower(inner, st);
      Success((id, WithRef(st, ref, id)))
    case Cond(ref, clauses, default, spec) =>
      var (otherwise, st) :- Lower(default, st);
      var (id, st) :- LowerClauses(clauses, otherwise, spec, st);
      Success((id, WithRef(st, ref, id)))
    case Block(ref, inputs, result, _) =>
      var (bound, st1) :- LowerAll(inputs, st);
      var (id, st2) :- Lower(result, st1.(bind := Some(bound)));
      Success((id, WithRef(st2.(bind := st.bind), ref, id)))
    case Elem(ref, source, index, _) =>
      var (ids, st) :- LowerTuple(source, st);
      if index < |ids| then Success((ids[index], WithRef(st, ref, ids[index]))) else Failure(BadProjection)
    case TupleBlock(_, _, _) =>
      var (ids, st) :- LowerTuple(e, st);
      if ids != [] then Success((ids[0], st)) else Failure(BadProjection)
    case TupleCond(_, _, _) => Failure(NotATensor)
    case Loop(_, _, _, _) => Failure(UnsupportedOp("while"))
    case Unsupported(_, op, _) => Failure(UnsupportedOp(op))
  }

  function LowerAll(es: seq<Expr>, st: State): (r: Result<(seq<nat>, State), LowerError>)
    ensures r.Success? ==> |r.value.0| == |es|
    ensures r.Success? ==> Grew(st, r.value.1)
    decreases es, 0
  {
    if es == [] then Success(([], st))
    else
      var (ids, st) :- LowerAll(es[..|es| - 1], st);
      var (id, st) :- Lower(es[|es| - 1], st);
      Success((ids + [id], st))
  }

  /** The start operands: the dynamic starts, in order. */
  function LowerStarts(wop: WindowOp, starts: seq<StartExpr>, st: State): (r: Result<(seq<nat>, State), LowerError>)
    ensures r.Success? ==> Grew(st, r.value.1)
    decreases starts, 0
  {
    if starts == [] then Success(([], st))
    else
      var s := starts[|starts| - 1];
      assert (starts decreases to s);
      var (ids, st) :- LowerStarts(wop, starts[..|starts| - 1], st);
      if wop.PutSlice? && s.At? then Failure(BadStart)
      else if StaticStart(wop, s).Some? then Success((ids, st))
      else
        var (id, st) :- Lower(s.e, st);
        Success((ids + [id], st))
  }

  /** A right-folded chain of selects: the last clause is lowered first. */
  function LowerClauses(clauses: seq<Clause>, otherwise: nat, spec: Spec, st: State): (r: Result<(nat, State),
      LowerError>)
    ensures r.Success? ==> Grew(st, r.value.1)
    decreases clauses, 0
  {
    if clauses == [] then Success((otherwise, st))
    else
      var first := clauses[0];
      assert (clauses decreases to first);
      var (rest, st) :- LowerClauses(clauses[1..], otherwise, spec, st);
      var (p, st) :- Lower(first.pred, st);
      var (v, st) :- Lower(first.result, st);
      Success(AddRaw(st, SelectKernel(spec), [p, v, rest]))
  }

  function SelectKernel(spec: Spec): Kernel {
    Op("select", map[], None, spec)
  }

  /** The ids of a tuple-valued source, lowered once for all its projections (a cond excepted). */
  function LowerTuple(e: Expr, st: State): (r: Result<(seq<nat>, State), LowerError>)
    ensures r.Success? ==> Grew(st, r.value.1)
    decreases e, 0
  {
    match e
    case TupleBlock(ref, inputs, results) =>
      if ref in st.tuples then Success((st.tuples[ref], st))
      else
        var (bound, st1) :- LowerAll(inputs, st);
        var (ids, st2) :- LowerAll(results, st1.(bind := Some(bound)));
        Success((ids, st2.(bind := st.bind, tuples := st2.tuples[ref := ids])))
    case Loop(ref, init, test, body) =>
      if ref in st.tuples then Success((st.tuples[ref], st))
      else
        var (ids, st) :- LowerAll(init, st);
        var (t, testState) :- Lower(test, Isolated(st));
        var (outs, bodyState) :- LowerAll(body, Isolated(testState));
        if body == [] then Failure(BadProjection)
        else Success(AddLoop(st.(blobs := bodyState.blobs), ref, ids,
                             Finish([test], [t], testState), Finish(body, outs, bodyState), body))
    case Metadata(_, inner, _) => LowerTuple(inner, st)
    case TupleCond(_, choices, defaults) =>
      var (others, st) :- LowerAll(defaults, st);
      var (data, st) :- LowerChoices(choices, |defaults|, st);
      Success(SelectAll(data, others, defaults, st))
    case Tuple(elems) => LowerAll(elems, st)
    case _ => Failure(NotATuple)
  }

  /** A clause of a tuple-valued cond, lowered: its predicate and its results. */
  datatype Choice = Choice(pred: nat, results: seq<nat>)

  function LowerChoices(choices: seq<TupleClause>, width: nat, st: State): (r: Result<(seq<Choice>, State), LowerError>)
    ensures r.Success? ==> |r.value.0| == |choices| && forall k :: 0 <= k < |choices| ==>
        |r.value.0[k].results| == width
    ensures r.Success? ==> Grew(st, r.value.1)
    decreases choices, 0
  {
    if choices == [] then Success(([], st))
    else
      var last := choices[|choices| - 1];
      var (data, st) :- LowerChoices(choices[..|choices| - 1], width, st);
      var (p, st) :- Lower(last.pred, st);
      var (vs, st) :- LowerAll(last.results, st);
      if |last.results| == width then Success((data + [Choice(p, vs)], st)) else Failure(BadProjection)
  }

  /** The select chain of one position. */
  function SelectOne(data: seq<Choice>, i: nat, otherwise: nat, spec: Spec, st: State): (r: (nat, State))
    requires forall k :: 0 <= k < |data| ==> i < |data[k].results|
    ensures Grew(st, r.1)
    decreases |data|
  {
    if data == [] then (otherwise, st)
    else
      var (rest, st) := SelectOne(data[1..], i, otherwise, spec, st);
      AddRaw(st, SelectKernel(spec), [data[0].pred, data[0].results[i], rest])
  }

  function SelectAll(data: seq<Choice>, others: seq<nat>, defaults: seq<Expr>, st: State): (r: (seq<nat>, State))
    requires |others| <= |defaults|
    requires forall k :: 0 <= k < |data| ==> |data[k].results| == |defaults|
    ensures |r.0| == |others| && Grew(st, r.1)
    decreases |others|
  {
    if others == [] then ([], st)
    else
      var i := |others| - 1;
      var (ids, st) := SelectAll(data, others[..i], defaults, st);
      var (id, st) := SelectOne(data, i, others[i], SpecOf(defaults[i]), st);
      (ids + [id], st)
  }

  /** The state a sub-graph starts from: its own ids, and the blob list it shares with its parent. */
  function Isolated(st: State): State {
    EMPTY.(blobs := st.blobs)
  }

  function Finish(outputs: seq<Expr>, ids: seq<nat>, st: State): (sub: Sub)
    requires |ids| == |outputs|
    ensures |sub.outputs| == |outputs|
  {
    Sub(st.inputs, st.constants, st.nodes,
        seq(|ids|, k requires 0 <= k < |ids| => Out(ids[k], SpecOf(outputs[k]))))
  }

  /** The version of the graph's meaning that is sent with it. */
  const SEMANTICS_VERSION := 1

  datatype Graph = Graph(version: nat, main: Sub, blobs: seq<Bytes>)

  /** The whole graph of a list of output expressions. */
  function ToGraph(outputs: seq<Expr>): Result<Graph, LowerError> {
    var (ids, st) :- LowerAll(outputs, EMPTY);
    Success(Graph(SEMANTICS_VERSION, Finish(outputs, ids, st), st.blobs))
  }
}
