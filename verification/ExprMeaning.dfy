/** What an Nx expression means, independently of any graph. */
module ExprMeaning {
  import opened Values
  import opened GraphIR
  import opened Lowering

  /** The values parameters stand for: the runtime arguments, and inside a block its inputs. */
  datatype Frame = Frame(block: Option<seq<Value>>, params: seq<Value>)

  // -- evaluation -------------------------------------------------------------

  /** The value of a tensor expression; `None` when some loop in it does not end within `fuel`
      iterations, or a window start is on an axis its operand does not have. */
  function Eval(sem: Sem, e: Expr, fr: Frame, fuel: nat): Option<Value>
    decreases e, 1
  {
    match e
    case Param(_, pos, _) =>
      if fr.block.Some? && pos < |fr.block.value| then Some(fr.block.value[pos])
      else if pos < |fr.params| then Some(fr.params[pos])
      else None
    case Const(_, number, spec) => Some(sem.scalar(number, spec))
    case Literal(_, bytes, _, spec) => Some(sem.literal(bytes, spec))
    case Apply(_, op, args, attrs, spec) =>
      var vs :- EvalAll(sem, args, fr, fuel);
      Some(sem.apply(Op(op, attrs, None, spec), vs))
    case Fill(_, op, args, fill, attrs, spec) =>
      var vs :- EvalAll(sem, args, fr, fuel);
      var f :- Eval(sem, fill, fr, fuel);
      Some(sem.apply(Op(op, attrs, Some(sem.toNumber(f)), spec), vs))
    case WindowAt(_, wop, base, starts, lengths, attrs, spec) =>
      var vs :- EvalAll(sem, base, fr, fuel);
      var raws :- EvalStarts(sem, starts, fr, fuel);
      if |vs| != FirstStart(wop) then None
      else
        var kernel := Window(wop, attrs, lengths, [], spec);
        var at :- WindowStarts(sem, kernel, vs, starts, raws);
        Some(sem.window(kernel, vs, at))
    case Reduce(_, op, tensor, acc, fn, count, attrs, spec) =>
      var t :- Eval(sem, tensor, fr, fuel);
      var a :- Eval(sem, acc, fr, fuel);
      var folded :- FoldValue(sem, e, t, sem.apply(FoldInit(op, attrs), [t, a]), count, fuel);
      Some(sem.apply(FoldFinish(op, attrs, spec), [t, folded]))
    case Metadata(_, inner, _) => Eval(sem, inner, fr, fuel)
    case Cond(_, clauses, default, spec) =>
      var d :- Eval(sem, default, fr, fuel);
      var (ps, vs) :- EvalClauses(sem, clauses, fr, fuel);
      Some(Chosen(sem, spec, ps, vs, d))
    case Block(_, inputs, result, _) =>
      var vs :- EvalAll(sem, inputs, fr, fuel);
      Eval(sem, result, Frame(Some(vs), fr.params), fuel)
    case Elem(_, source, index, _) =>
      var vs :- EvalTuple(sem, source, fr, fuel);
      if index < |vs| then Some(vs[index]) else None
    case TupleBlock(_, _, _) =>
      var vs :- EvalTuple(sem, e, fr, fuel);
      if vs != [] then Some(vs[0]) else None
    case _ => None
  }

  function EvalAll(sem: Sem, es: seq<Expr>, fr: Frame, fuel: nat): (r: Option<seq<Value>>)
    ensures r.Some? ==> |r.value| == |es|
    decreases es, 0
  {
    if es == [] then Some([])
    else
      var vs :- EvalAll(sem, es[..|es| - 1], fr, fuel);
      var v :- Eval(sem, es[|es| - 1], fr, fuel);
      Some(vs + [v])
  }

  /** A cond: its default when it has no clause, else Nx's choice. */
  function Chosen(sem: Sem, spec: Spec, ps: seq<Value>, vs: seq<Value>, d: Value): Value {
    if ps == [] then d else sem.choose(spec, ps, vs, d)
  }

  function EvalClauses(sem: Sem, clauses: seq<Clause>, fr: Frame, fuel: nat): (r: Option<(seq<Value>, seq<Value>)>)
    ensures r.Some? ==> |r.value.0| == |r.value.1| == |clauses|
    decreases clauses, 0
  {
    if clauses == [] then Some(([], []))
    else
      var first := clauses[0];
      assert (clauses decreases to first);
      var (ps, vs) :- EvalClauses(sem, clauses[1..], fr, fuel);
      var p :- Eval(sem, first.pred, fr, fuel);
      var v :- Eval(sem, first.result, fr, fuel);
      Some(([p] + ps, [v] + vs))
  }

  /** The starts as the program gives them, before any clamping. */
  function EvalStarts(sem: Sem, starts: seq<StartExpr>, fr: Frame, fuel: nat): (r: Option<seq<int>>)
    ensures r.Some? ==> |r.value| == |starts|
    decreases starts, 0
  {
    if starts == [] then Some([])
    else
      var s := starts[|starts| - 1];
      assert (starts decreases to s);
      var raws :- EvalStarts(sem, starts[..|starts| - 1], fr, fuel);
      if s.At? then Some(raws + [s.n])
      else
        var v :- Eval(sem, s.e, fr, fuel);
        Some(raws + [IntOf(sem.toNumber(v))])
  }

  /** Nx clamps every start but a slice's integer ones. */
  function WindowStart(sem: Sem, k: Kernel, base: seq<Value>, s: StartExpr, raw: int, axis: nat): Option<int>
    requires k.Window? && |base| == FirstStart(k.wop)
  {
    if k.wop.Slice? && s.At? then Some(raw)
    else
      var room := Room(sem, k, base, axis);
      if room.Ok? then Some(Clamp(raw, room.value)) else None
  }

  function WindowStarts(sem: Sem, k: Kernel, base: seq<Value>, starts: seq<StartExpr>, raws: seq<int>): Option<seq<int>>
    requires k.Window? && |base| == FirstStart(k.wop) && |starts| == |raws|
  {
    if starts == [] then Some([])
    else
      var axis := |starts| - 1;
      var before :- WindowStarts(sem, k, base, starts[..axis], raws[..axis]);
      var last :- WindowStart(sem, k, base, starts[axis], raws[axis], axis);
      Some(before + [last])
  }

  /** Where a window is put: at the program's own start if that is a slice's integer, and otherwise at
      the nearest start at which the window fits in its operand. */
  lemma {:induction false} WindowPlaced(sem: Sem, k: Kernel, base: seq<Value>, starts: seq<StartExpr>, raws: seq<int>,
      axis: nat)
    requires k.Window? && |base| == FirstStart(k.wop) && |starts| == |raws| && axis < |starts|
    requires WindowStarts(sem, k, base, starts, raws).Some?
    ensures var at := WindowStarts(sem, k, base, starts, raws).value;
            var dims := sem.shape(base[0]);
            var spans := if k.wop.Slice? then k.lengths else sem.shape(base[1]);
            && |at| == |starts|
            && (k.wop.Slice? && starts[axis].At? ==> at[axis] == raws[axis])
            && (k.wop.PutSlice? || starts[axis].From? ==>
                  axis < |dims| && axis < |spans| && Nearest(raws[axis], dims[axis] as int - spans[axis] as int,
                      at[axis]))
  {
    var last := |starts| - 1;
    if axis < last {
      WindowPlaced(sem, k, base, starts[..last], raws[..last], axis);
    } else {
      if last > 0 {
        WindowPlaced(sem, k, base, starts[..last], raws[..last], 0);
      }
      var room := Room(sem, k, base, axis);
      if room.Ok? {
        ClampNearest(raws[axis], room.value, Clamp(raws[axis], room.value));
      }
    }
  }

  function FoldValue(sem: Sem, e: Expr, t: Value, init: Value, n: nat, fuel: nat): Option<Value>
    requires e.Reduce?
    decreases e, 0, n
  {
    if n == 0 then Some(init)
    else
      var acc :- FoldValue(sem, e, t, init, n - 1, fuel);
      Eval(sem, e.fn, Frame(None, [acc, sem.apply(Element(e.op, e.attrs, n - 1), [t])]), fuel)
  }

  function EvalTuple(sem: Sem, e: Expr, fr: Frame, fuel: nat): Option<seq<Value>>
    decreases e, 0
  {
    match e
    case TupleBlock(_, inputs, results) =>
      var vs :- EvalAll(sem, inputs, fr, fuel);
      EvalAll(sem, results, Frame(Some(vs), fr.params), fuel)
    case Loop(_, init, _, _) =>
      var vs :- EvalAll(sem, init, fr, fuel);
      LoopValue(sem, e, vs, fuel, fuel)
    case Metadata(_, inner, _) => EvalTuple(sem, inner, fr, fuel)
    case TupleCond(_, choices, defaults) =>
      var ds :- EvalAll(sem, defaults, fr, fuel);
      var (ps, rows) :- EvalChoices(sem, choices, |defaults|, fr, fuel);
      Some(ChosenAll(sem, ps, rows, ds, defaults))
    case Tuple(elems) => EvalAll(sem, elems, fr, fuel)
    case _ => None
  }

  function EvalChoices(sem: Sem, choices: seq<TupleClause>, width: nat, fr: Frame,
      fuel: nat): (r: Option<(seq<Value>, seq<seq<Value>>)>)
    ensures r.Some? ==> |r.value.0| == |r.value.1| == |choices|
    ensures r.Some? ==> forall k :: 0 <= k < |choices| ==> |r.value.1[k]| == width
    decreases choices, 0
  {
    if choices == [] then Some(([], []))
    else
      var last := choices[|choices| - 1];
      assert (choices decreases to last);
      var (ps, rows) :- EvalChoices(sem, choices[..|choices| - 1], width, fr, fuel);
      var p :- Eval(sem, last.pred, fr, fuel);
      var vs :- EvalAll(sem, last.results, fr, fuel);
      if |vs| == width then Some((ps + [p], rows + [vs])) else None
  }

  /** One position of every clause's results. */
  function Column(rows: seq<seq<Value>>, i: nat): (col: seq<Value>)
    requires forall k :: 0 <= k < |rows| ==> i < |rows[k]|
    ensures |col| == |rows|
  {
    seq(|rows|, k requires 0 <= k < |rows| => rows[k][i])
  }

  function ChosenAll(sem: Sem, ps: seq<Value>, rows: seq<seq<Value>>, ds: seq<Value>,
      defaults: seq<Expr>): (vs: seq<Value>)
    requires |ps| == |rows| && |ds| <= |defaults|
    requires forall k :: 0 <= k < |rows| ==> |rows[k]| == |defaults|
    ensures |vs| == |ds|
  {
    seq(|ds|, i requires 0 <= i < |ds| => Chosen(sem, SpecOf(defaults[i]), ps, Column(rows, i), ds[i]))
  }

  /** A loop: at most `left` more iterations. */
  function LoopValue(sem: Sem, e: Expr, state: seq<Value>, left: nat, fuel: nat): Option<seq<Value>>
    requires e.Loop?
    decreases e, 0, left
  {
    var test :- Eval(sem, e.test, Frame(None, state), fuel);
    if !sem.truthy(test) then Some(state)
    else if left == 0 then None
    else
      var next :- EvalAll(sem, e.body, Frame(None, state), fuel);
      LoopValue(sem, e, next, left - 1, fuel)
  }

  // -- the laws of tensors ------------------------------------------------------

  /** At one position, the first clause whose predicate is true there wins. */
  function FirstTrue(sem: Sem, ps: seq<Value>, vs: seq<Value>, d: Value, c: Coord): Elem
    requires |ps| == |vs|
  {
    if ps == [] then sem.at(d, c)
    else if sem.truthyAt(sem.at(ps[0], c)) then sem.at(vs[0], c)
    else FirstTrue(sem, ps[1..], vs[1..], d, c)
  }

  ghost predicate ChooseLaw(sem: Sem) {
    forall spec, ps, vs, d, c :: |ps| == |vs| && ps != [] ==>
      sem.at(sem.choose(spec, ps, vs, d), c) == sem.castAt(spec, FirstTrue(sem, ps, vs, d, c))
  }

  ghost predicate SelectLaw(sem: Sem) {
    forall spec, p, a, b, c ::
      sem.at(sem.apply(Op("select", map[], None, spec), [p, a, b]), c)
      == sem.castAt(spec, if sem.truthyAt(sem.at(p, c)) then sem.at(a, c) else sem.at(b, c))
  }

  ghost predicate CastLaw(sem: Sem) {
    forall spec, x :: sem.castAt(spec, sem.castAt(spec, x)) == sem.castAt(spec, x)
  }

  ghost predicate SameAt(sem: Sem, u: Value, v: Value) {
    forall c :: sem.at(u, c) == sem.at(v, c)
  }

  ghost predicate Extensional(sem: Sem) {
    forall u, v :: SameAt(sem, u, v) ==> u == v
  }

  /** Nx's cond chooses, and the worker's select picks, position by position, both casting to the
      declared dtype; tensors equal everywhere are equal. */
  ghost predicate Lawful(sem: Sem) {
    ChooseLaw(sem) && SelectLaw(sem) && CastLaw(sem) && Extensional(sem)
  }

  // -- well-scoped expressions ----------------------------------------------------

  /** Where an occurrence of an expression stands: in a region with its own parameters, or in the
      default expression of a block with these inputs. */
  datatype Scope = Top(arity: nat) | In(inputs: seq<Expr>, outer: Scope)

  function Arity(s: Scope): nat {
    match s
    case Top(arity) => arity
    case In(_, outer) => Arity(outer)
  }

  // -- which parameters an expression reads ---------------------------------------

  /** One more than the highest parameter that an expression reads where it stands: not those of the
      blocks, loops and folds inside it.  None: 0, and the expression is closed. */
  function Demand(e: Expr): nat
    decreases e, 1
  {
    match e
    case Param(_, pos, _) => pos + 1
    case Apply(_, _, args, _, _) => DemandAll(args)
    case Fill(_, _, args, fill, _, _) => Max(DemandAll(args), Demand(fill))
    case WindowAt(_, _, base, starts, _, _, _) => Max(DemandAll(base), DemandStarts(starts))
    case Reduce(_, _, tensor, acc, _, _, _, _) => Max(Demand(tensor), Demand(acc))
    case Metadata(_, inner, _) => Demand(inner)
    case Cond(_, clauses, default, _) => Max(Demand(default), DemandClauses(clauses))
    case Block(_, inputs, _, _) => DemandAll(inputs)
    case Elem(_, source, _, _) => Demand(source)
    case TupleBlock(_, inputs, _) => DemandAll(inputs)
    case Loop(_, init, _, _) => DemandAll(init)
    case TupleCond(_, choices, defaults) => Max(DemandAll(defaults), DemandChoices(choices))
    case Tuple(elems) => DemandAll(elems)
    case _ => 0
  }

  function DemandAll(es: seq<Expr>): nat
    decreases es, 0
  {
    if es == [] then 0 else Max(DemandAll(es[..|es| - 1]), Demand(es[|es| - 1]))
  }

  function DemandStarts(starts: seq<StartExpr>): nat
    decreases starts, 0
  {
    if starts == [] then 0
    else
      var last := starts[|starts| - 1];
      assert (starts decreases to last);
      Max(DemandStarts(starts[..|starts| - 1]), if last.From? then Demand(last.e) else 0)
  }

  function DemandClauses(clauses: seq<Clause>): nat
    decreases clauses, 0
  {
    if clauses == [] then 0
    else
      var first := clauses[0];
      assert (clauses decreases to first);
      Max(DemandClauses(clauses[1..]), Max(Demand(first.pred), Demand(first.result)))
  }

  function DemandChoices(choices: seq<TupleClause>): nat
    decreases choices, 0
  {
    if choices == [] then 0
    else
      var last := choices[|choices| - 1];
      assert (choices decreases to last);
      Max(DemandChoices(choices[..|choices| - 1]), Max(Demand(last.pred), DemandAll(last.results)))
  }

  /** The part of a scope that the first d parameters come from.  Where nothing is read, all scopes
      are one. */
  function Part(d: nat, s: Scope): Scope
    decreases s
  {
    if d == 0 then Top(0)
    else
      match s
      case Top(_) => s
      case In(inputs, outer) => if d <= |inputs| then In(inputs, Part(DemandAll(inputs), outer)) else s
  }

  /** Where an expression's value is decided: the part of its scope that it reads. */
  function Home(e: Expr, s: Scope): Scope {
    Part(Demand(e), s)
  }

  /** What a parameter stands for. */
  function ParamAt(fr: Frame, pos: nat): Option<Value> {
    if fr.block.Some? && pos < |fr.block.value| then Some(fr.block.value[pos])
    else if pos < |fr.params| then Some(fr.params[pos])
    else None
  }

  ghost predicate SameBelow(fr: Frame, fr': Frame, d: nat) {
    fr.params == fr'.params && forall pos: nat :: pos < d ==> ParamAt(fr, pos) == ParamAt(fr', pos)
  }

  /** An expression's value depends on the parameters it reads, and on no others. */
  lemma {:induction false} EvalSame(sem: Sem, e: Expr, fr: Frame, fr': Frame, fuel: nat)
    requires SameBelow(fr, fr', Demand(e))
    ensures Eval(sem, e, fr, fuel) == Eval(sem, e, fr', fuel)
    decreases e, 2
  {
    hide EvalAll, EvalStarts, EvalClauses, EvalTuple, WindowStarts, Chosen;
    match e {
      case Param(_, pos, _) => assert ParamAt(fr, pos) == ParamAt(fr', pos);
      case Apply(_, _, args, _, _) => EvalAllSame(sem, args, fr, fr', fuel);
      case Fill(_, _, args, fill, _, _) =>
        EvalAllSame(sem, args, fr, fr', fuel);
        EvalSame(sem, fill, fr, fr', fuel);
      case WindowAt(_, _, base, starts, _, _, _) =>
        EvalAllSame(sem, base, fr, fr', fuel);
        EvalStartsSame(sem, starts, fr, fr', fuel);
      case Reduce(_, _, tensor, acc, _, _, _, _) =>
        EvalSame(sem, tensor, fr, fr', fuel);
        EvalSame(sem, acc, fr, fr', fuel);
      case Metadata(_, inner, _) => EvalSame(sem, inner, fr, fr', fuel);
      case Cond(_, clauses, default, _) =>
        EvalSame(sem, default, fr, fr', fuel);
        EvalClausesSame(sem, clauses, fr, fr', fuel);
      case Block(_, inputs, _, _) => EvalAllSame(sem, inputs, fr, fr', fuel);
      case Elem(_, source, _, _) => EvalTupleSame(sem, source, fr, fr', fuel);
      case TupleBlock(_, _, _) => EvalTupleSame(sem, e, fr, fr', fuel);
      case _ =>
    }
  }

  lemma {:induction false} EvalTupleSame(sem: Sem, e: Expr, fr: Frame, fr': Frame, fuel: nat)
    requires SameBelow(fr, fr', Demand(e))
    ensures EvalTuple(sem, e, fr, fuel) == EvalTuple(sem, e, fr', fuel)
    decreases e, 1
  {
    match e {
      case TupleBlock(_, inputs, _) => EvalAllSame(sem, inputs, fr, fr', fuel);
      case Loop(_, init, _, _) => EvalAllSame(sem, init, fr, fr', fuel);
      case Metadata(_, inner, _) => EvalTupleSame(sem, inner, fr, fr', fuel);
      case TupleCond(_, choices, defaults) =>
        EvalAllSame(sem, defaults, fr, fr', fuel);
        EvalChoicesSame(sem, choices, |defaults|, fr, fr', fuel);
      case Tuple(elems) => EvalAllSame(sem, elems, fr, fr', fuel);
      case _ =>
    }
  }

  lemma {:induction false} EvalAllSame(sem: Sem, es: seq<Expr>, fr: Frame, fr': Frame, fuel: nat)
    requires SameBelow(fr, fr', DemandAll(es))
    ensures EvalAll(sem, es, fr, fuel) == EvalAll(sem, es, fr', fuel)
    decreases es, 0
  {
    if es != [] {
      EvalAllSame(sem, es[..|es| - 1], fr, fr', fuel);
      EvalSame(sem, es[|es| - 1], fr, fr', fuel);
    }
  }

  lemma {:induction false} EvalStartsSame(sem: Sem, starts: seq<StartExpr>, fr: Frame, fr': Frame, fuel: nat)
    requires SameBelow(fr, fr', DemandStarts(starts))
    ensures EvalStarts(sem, starts, fr, fuel) == EvalStarts(sem, starts, fr', fuel)
    decreases starts, 0
  {
    if starts != [] {
      var last := starts[|starts| - 1];
      assert (starts decreases to last);
      EvalStartsSame(sem, starts[..|starts| - 1], fr, fr', fuel);
      if last.From? {
        EvalSame(sem, last.e, fr, fr', fuel);
      }
    }
  }

  lemma {:induction false} EvalClausesSame(sem: Sem, clauses: seq<Clause>, fr: Frame, fr': Frame, fuel: nat)
    requires SameBelow(fr, fr', DemandClauses(clauses))
    ensures EvalClauses(sem, clauses, fr, fuel) == EvalClauses(sem, clauses, fr', fuel)
    decreases clauses, 0
  {
    if clauses != [] {
      var first := clauses[0];
      assert (clauses decreases to first);
      EvalClausesSame(sem, clauses[1..], fr, fr', fuel);
      EvalSame(sem, first.pred, fr, fr', fuel);
      EvalSame(sem, first.result, fr, fr', fuel);
    }
  }

  lemma {:induction false} EvalChoicesSame(sem: Sem, choices: seq<TupleClause>, width: nat, fr: Frame, fr': Frame,
      fuel: nat)
    requires SameBelow(fr, fr', DemandChoices(choices))
    ensures EvalChoices(sem, choices, width, fr, fuel) == EvalChoices(sem, choices, width, fr', fuel)
    decreases choices, 0
  {
    if choices != [] {
      var last := choices[|choices| - 1];
      assert (choices decreases to last);
      EvalChoicesSame(sem, choices[..|choices| - 1], width, fr, fr', fuel);
      EvalSame(sem, last.pred, fr, fr', fuel);
      EvalAllSame(sem, last.results, fr, fr', fuel);
    }
  }

  /** What each reference names and where its value is decided, and the tables of the regions inside
      loops and folds. */
  datatype Table = Table(entries: map<Ref, (Expr, Scope)>, tests: map<Ref, Table>, bodies: map<Ref, Table>)

  /** A compile-time scalar reads back as the number it carries. */
  predicate ScalarHonest(sem: Sem, e: Expr) {
    match e
    case Metadata(_, inner, _) => ScalarHonest(sem, inner)
    case Const(_, number, spec) => sem.toNumber(sem.scalar(number, spec)) == number
    case Literal(_, bytes, number, spec) => sem.toNumber(sem.literal(bytes, spec)) == number
    case _ => true
  }

  /** Every reference names one expression, which may stand in many scopes as long as the parameters it
      reads are the same ones; parameters exist, windows have their operands, and a loop's body
      returns as many values as the loop carries. */
  predicate WellScoped(sem: Sem, e: Expr, s: Scope, t: Table)
    decreases e, 1
  {
    && (!e.Tuple? ==> e.ref in t.entries && t.entries[e.ref] == (e, Home(e, s)))
    && match e
       case Param(_, pos, _) => (s.In? && pos < |s.inputs|) || pos < Arity(s)
       case Apply(_, _, args, _, _) => AllScoped(sem, args, s, t)
       case Fill(_, _, args, fill, _, _) => AllScoped(sem, args, s, t) && ScalarHonest(sem, fill)
       case WindowAt(_, wop, base, starts, _, _, _) =>
         |base| == FirstStart(wop) && AllScoped(sem, base, s, t) && StartsScoped(sem, wop, starts, s, t)
       case Reduce(ref, _, tensor, acc, fn, _, _, _) =>
         && WellScoped(sem, tensor, s, t) && WellScoped(sem, acc, s, t)
         && ref in t.bodies && WellScoped(sem, fn, Top(2), t.bodies[ref])
       case Metadata(_, inner, _) => WellScoped(sem, inner, s, t)
       case Cond(_, clauses, default, _) => WellScoped(sem, default, s, t) && ClausesScoped(sem, clauses, s, t)
       case Block(_, inputs, result, _) => AllScoped(sem, inputs, s, t) && WellScoped(sem, result, In(inputs, s), t)
       case Elem(_, source, _, _) => WellScoped(sem, source, s, t)
       case TupleBlock(_, inputs, results) => AllScoped(sem, inputs, s, t) && AllScoped(sem, results, In(inputs, s), t)
       case Loop(ref, init, test, body) =>
         && AllScoped(sem, init, s, t) && |body| == |init|
         && ref in t.tests && WellScoped(sem, test, Top(|init|), t.tests[ref])
         && ref in t.bodies && AllScoped(sem, body, Top(|init|), t.bodies[ref])
       case TupleCond(_, choices, defaults) => AllScoped(sem, defaults, s, t) && ChoicesScoped(sem, choices, s, t)
       case Tuple(elems) => AllScoped(sem, elems, s, t)
       case _ => true
  }

  predicate AllScoped(sem: Sem, es: seq<Expr>, s: Scope, t: Table)
    decreases es, 0
  {
    es == [] || (AllScoped(sem, es[..|es| - 1], s, t) && WellScoped(sem, es[|es| - 1], s, t))
  }

  predicate StartsScoped(sem: Sem, wop: WindowOp, starts: seq<StartExpr>, s: Scope, t: Table)
    decreases starts, 0
  {
    starts == [] ||
    var last := starts[|starts| - 1];
    assert (starts decreases to last);
    && StartsScoped(sem, wop, starts[..|starts| - 1], s, t)
    && (last.From? ==> if StaticStart(wop, last).Some? then ScalarHonest(sem, last.e)
        else WellScoped(sem, last.e, s, t))
  }

  predicate ClausesScoped(sem: Sem, clauses: seq<Clause>, s: Scope, t: Table)
    decreases clauses, 0
  {
    clauses == [] ||
    var first := clauses[0];
    assert (clauses decreases to first);
    && ClausesScoped(sem, clauses[1..], s, t)
    && WellScoped(sem, first.pred, s, t) && WellScoped(sem, first.result, s, t)
  }

  predicate ChoicesScoped(sem: Sem, choices: seq<TupleClause>, s: Scope, t: Table)
    decreases choices, 0
  {
    choices == [] ||
    var last := choices[|choices| - 1];
    assert (choices decreases to last);
    && ChoicesScoped(sem, choices[..|choices| - 1], s, t)
    && WellScoped(sem, last.pred, s, t) && AllScoped(sem, last.results, s, t)
  }

  /** A constant used both outside a block and in its default expression is well scoped. */
  lemma SharedConstant(sem: Sem, spec: Spec, number: Number) returns (t: Table)
    ensures var c := Const(0, number, spec);
            AllScoped(sem, [c, Block(1, [Param(2, 0, spec)], Apply(3, "add", [Param(4, 0, spec), c], map[], spec),
                spec)], Top(1), t)
  {
    var c, outer, inner := Const(0, number, spec), Param(2, 0, spec), Param(4, 0, spec);
    var sum := Apply(3, "add", [inner, c], map[], spec);
    var block := Block(1, [outer], sum, spec);
    var scope := In([outer], Top(1));
    t := Table(map[0 := (c, Top(0)), 1 := (block, Top(1)), 2 := (outer, Top(1)), 3 := (sum, scope), 4 :=
        (inner, scope)], map[], map[]);
    assert [outer][..0] == [] && [inner, c][..1] == [inner] && [inner][..0] == [] && [c, block][..1] == [c]
        && [c][..0] == [];
    assert DemandAll([outer]) == 1 && DemandAll([inner]) == 1 && DemandAll([inner, c]) == 1;
    assert Part(1, Top(1)) == Top(1) && Part(1, scope) == In([outer], Part(DemandAll([outer]), Top(1)));
    assert Home(inner, scope) == scope && Home(c, scope) == Home(c, Top(1)) == Top(0) && Home(outer, Top(1)) == Top(1);
    assert Demand(sum) == 1 && Demand(block) == 1 && Home(sum, scope) == scope && Home(block, Top(1)) == Top(1);
    assert WellScoped(sem, inner, scope, t) && WellScoped(sem, c, scope, t) && WellScoped(sem, c, Top(1), t);
    assert AllScoped(sem, [inner], scope, t) && AllScoped(sem, [inner, c], scope, t);
    assert WellScoped(sem, outer, Top(1), t) && AllScoped(sem, [outer], Top(1), t);
    assert WellScoped(sem, block, Top(1), t) && AllScoped(sem, [c], Top(1), t);
  }

  // -- cond -------------------------------------------------------------------------

  /** The value of the select chain a cond is lowered to. */
  function ChainValue(sem: Sem, spec: Spec, ps: seq<Value>, vs: seq<Value>, d: Value): Value
    requires |ps| == |vs|
  {
    if ps == [] then d
    else sem.apply(SelectKernel(spec), [ps[0], vs[0], ChainValue(sem, spec, ps[1..], vs[1..], d)])
  }

  lemma {:induction false} ChainAt(sem: Sem, spec: Spec, ps: seq<Value>, vs: seq<Value>, d: Value, c: Coord)
    requires SelectLaw(sem) && CastLaw(sem) && |ps| == |vs| && ps != []
    ensures sem.at(ChainValue(sem, spec, ps, vs, d), c) == sem.castAt(spec, FirstTrue(sem, ps, vs, d, c))
  {
    var rest := ChainValue(sem, spec, ps[1..], vs[1..], d);
    assert sem.at(sem.apply(SelectKernel(spec), [ps[0], vs[0], rest]), c)
        == sem.castAt(spec, if sem.truthyAt(sem.at(ps[0], c)) then sem.at(vs[0], c) else sem.at(rest, c));
    if |ps| > 1 {
      ChainAt(sem, spec, ps[1..], vs[1..], d, c);
    }
  }

  /** Nested selects choose what Nx's cond chooses: the first true clause wins. */
  lemma ChainIsChosen(sem: Sem, spec: Spec, ps: seq<Value>, vs: seq<Value>, d: Value)
    requires Lawful(sem) && |ps| == |vs|
    ensures ChainValue(sem, spec, ps, vs, d) == Chosen(sem, spec, ps, vs, d)
  {
    if ps != [] {
      var u, v := ChainValue(sem, spec, ps, vs, d), sem.choose(spec, ps, vs, d);
      forall c ensures sem.at(u, c) == sem.at(v, c) {
        ChainAt(sem, spec, ps, vs, d, c);
      }
      assert SameAt(sem, u, v);
    }
  }
}
