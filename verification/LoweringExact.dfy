/** Which expressions lowering accepts, and that it lowers what is shared once. */
module LoweringExact {
  import opened Values
  import opened GraphIR
  import opened Lowering
  import opened ExprMeaning

  // -- what can be lowered, from the expression alone -----------------------------

  /** A compile-time scalar. */
  predicate IsNumber(e: Expr) {
    match e
    case Metadata(_, inner, _) => IsNumber(inner)
    case Const(_, _, _) => true
    case Literal(_, _, _, _) => true
    case _ => false
  }

  /** How many components a tuple-valued expression has. */
  function Width(e: Expr): nat {
    match e
    case TupleBlock(_, _, results) => |results|
    case Loop(_, _, _, body) => |body|
    case Metadata(_, inner, _) => Width(inner)
    case TupleCond(_, _, defaults) => |defaults|
    case Tuple(elems) => |elems|
    case _ => 0
  }

  /** An expression that stands for one tensor: every operation in it is supported, fill values are
      compile-time scalars, a slice has one operand and a put_slice two, put_slice starts are
      expressions, projections are within the width of a tuple-valued source, and nothing
      tuple-valued stands anywhere else, but for a block, which then stands for its first result. */
  predicate Lowers(e: Expr)
    decreases e, 1
  {
    match e
    case Param(_, _, _) => true
    case Const(_, _, _) => true
    case Literal(_, _, _, _) => true
    case Apply(_, _, args, _, _) => AllLower(args)
    case Fill(_, _, args, fill, _, _) => AllLower(args) && IsNumber(fill)
    case WindowAt(_, wop, base, starts, _, _, _) =>
      |base| == (match wop case Slice => 1 case PutSlice => 2) && AllLower(base) && StartsLower(wop, starts)
    case Reduce(_, _, tensor, acc, fn, _, _, _) => Lowers(tensor) && Lowers(acc) && Lowers(fn)
    case Metadata(_, inner, _) => Lowers(inner)
    case Cond(_, clauses, default, _) => Lowers(default) && ClausesLower(clauses)
    case Block(_, inputs, result, _) => AllLower(inputs) && Lowers(result)
    case Elem(_, source, index, _) => TupleLowers(source) && index < Width(source)
    case TupleBlock(_, _, results) => TupleLowers(e) && results != []
    case _ => false
  }

  predicate AllLower(es: seq<Expr>)
    decreases es, 0
  {
    forall k :: 0 <= k < |es| ==> Lowers(es[k])
  }

  predicate StartsLower(wop: WindowOp, starts: seq<StartExpr>)
    decreases starts, 0
  {
    forall k :: 0 <= k < |starts| ==>
      assert (starts decreases to starts[k]);
      match starts[k]
      case At(_) => wop.Slice?
      case From(e) => Lowers(e)
  }

  predicate ClausesLower(clauses: seq<Clause>)
    decreases clauses, 0
  {
    forall k :: 0 <= k < |clauses| ==>
      assert (clauses decreases to clauses[k]);
      Lowers(clauses[k].pred) && Lowers(clauses[k].result)
  }

  predicate ChoicesLower(choices: seq<TupleClause>, width: nat)
    decreases choices, 0
  {
    forall k :: 0 <= k < |choices| ==>
      assert (choices decreases to choices[k]);
      Lowers(choices[k].pred) && AllLower(choices[k].results) && |choices[k].results| == width
  }

  /** An expression that stands for a tuple: a block with several results, a loop, a cond of tuples, or
      tensors side by side, under any number of metadata wrappers. */
  predicate TupleLowers(e: Expr)
    decreases e, 0
  {
    match e
    case TupleBlock(_, inputs, results) => AllLower(inputs) && AllLower(results)
    case Loop(_, init, test, body) => AllLower(init) && Lowers(test) && AllLower(body) && body != []
    case Metadata(_, inner, _) => TupleLowers(inner)
    case TupleCond(_, choices, defaults) => AllLower(defaults) && ChoicesLower(choices, |defaults|)
    case Tuple(elems) => AllLower(elems)
    case _ => false
  }

  lemma {:induction false} NumberLowers(e: Expr)
    ensures ScalarConstant(e).Success? <==> IsNumber(e)
    ensures IsNumber(e) ==> Lowers(e)
  {
    if e.Metadata? {
      NumberLowers(e.inner);
    }
  }

  // -- the memo ---------------------------------------------------------------------

  /** What is remembered could be lowered. */
  predicate Remembers(t: Table, st: State) {
    && (forall r :: r in st.ids ==> r in t.entries && Lowers(t.entries[r].0))
    && (forall r :: r in st.tuples ==>
          r in t.entries && TupleLowers(t.entries[r].0) && |st.tuples[r]| == Width(t.entries[r].0))
  }

  /** What was remembered still is, under the same ids. */
  predicate Kept(st: State, st': State) {
    && (forall r :: r in st.ids ==> r in st'.ids && st'.ids[r] == st.ids[r])
    && (forall r :: r in st.tuples ==> r in st'.tuples && st'.tuples[r] == st.tuples[r])
  }

  /** A later state of the same lowering. */
  predicate After(t: Table, st: State, st': State) {
    Remembers(t, st') && Kept(st, st')
  }

  /** Lowering accepts exactly the expressions that can be lowered, whatever it has met before; and it
      remembers only such. */
  lemma {:induction false} LowerExactly(sem: Sem, e: Expr, s: Scope, t: Table, st: State)
    requires WellScoped(sem, e, s, t) && Remembers(t, st)
    ensures Lower(e, st).Success? <==> Lowers(e)
    ensures Lower(e, st).Success? ==> After(t, st, Lower(e, st).value.1)
    decreases e, 3
  {
    if !e.Tuple? && e.ref !in st.ids {
      LowerNewExactly(sem, e, s, t, st);
    }
  }

  lemma {:induction false} LowerNewExactly(sem: Sem, e: Expr, s: Scope, t: Table, st: State)
    requires WellScoped(sem, e, s, t) && Remembers(t, st) && !e.Tuple? && e.ref !in st.ids
    ensures LowerNew(e, st).Success? <==> Lowers(e)
    ensures LowerNew(e, st).Success? ==> After(t, st, LowerNew(e, st).value.1)
    decreases e, 2
  {
    hide Home, Lower, LowerAll, LowerTuple, LowerStarts, LowerClauses, AllLower, StartsLower, ClausesLower,
        TupleLowers, ScalarHonest, Grew, Demand, Remembers, Kept;
    AfterSelf(t, st);
    match e
    case Apply(_, _, args, _, _) =>
      AllExactly(sem, args, s, t, st);
      if LowerAll(args, st).Success? && Lowers(e) {
        Added(t, st, LowerAll(args, st).value.1, e, LowerAll(args, st).value.1.counter, LowerNew(e, st).value.1);
      }
    case Fill(_, _, args, fill, _, _) =>
      AllExactly(sem, args, s, t, st);
      NumberLowers(fill);
      if LowerAll(args, st).Success? && Lowers(e) {
        Added(t, st, LowerAll(args, st).value.1, e, LowerAll(args, st).value.1.counter, LowerNew(e, st).value.1);
      }
    case WindowAt(_, _, _, _, _, _, _) => WindowExactly(sem, e, s, t, st);
    case Reduce(_, _, _, _, _, _, _, _) => ReduceExactly(sem, e, s, t, st);
    case Metadata(_, inner, _) =>
      LowerExactly(sem, inner, s, t, st);
      if Lower(inner, st).Success? {
        Added(t, st, Lower(inner, st).value.1, e, Lower(inner, st).value.0, LowerNew(e, st).value.1);
      }
    case Cond(_, _, _, _) => CondExactly(sem, e, s, t, st);
    case Block(_, _, _, _) => BlockExactly(sem, e, s, t, st);
    case Elem(_, source, index, _) =>
      TupleExactly(sem, source, s, t, st);
      if LowerTuple(source, st).Success? && Lowers(e) {
        Added(t, st, LowerTuple(source, st).value.1, e, LowerTuple(source, st).value.0[index], LowerNew(e, st).value.1);
      }
    case TupleBlock(_, _, results) =>
      TupleExactly(sem, e, s, t, st);
    case Param(_, _, _) =>
      Added(t, st, st, e, LowerNew(e, st).value.0, LowerNew(e, st).value.1);
    case Const(_, _, _) => Added(t, st, st, e, st.counter, LowerNew(e, st).value.1);
    case Literal(_, _, _, _) => Added(t, st, st, e, st.counter, LowerNew(e, st).value.1);
    case _ =>
  }

  lemma AfterSelf(t: Table, st: State)
    requires Remembers(t, st)
    ensures After(t, st, st)
  {
  }

  lemma AfterRemembers(t: Table, st: State, st': State)
    requires After(t, st, st')
    ensures Remembers(t, st')
  {
  }

  lemma AfterTrans(t: Table, a: State, b: State, c: State)
    requires After(t, a, b) && After(t, b, c)
    ensures After(t, a, c)
  {
  }

  lemma SameMemo(t: Table, st: State, st1: State, st': State)
    requires After(t, st, st1) && st'.ids == st1.ids && st'.tuples == st1.tuples
    ensures After(t, st, st')
  {
  }

  lemma RegionRemembers(t: Table, st: State)
    ensures Remembers(t, Isolated(st))
  {
  }

  /** One more expression remembered. */
  lemma Added(t: Table, st: State, st1: State, e: Expr, id: nat, st': State)
    requires After(t, st, st1) && !e.Tuple? && e.ref !in st.ids
    requires e.ref in t.entries && t.entries[e.ref].0 == e && Lowers(e)
    requires st'.ids == st1.ids[e.ref := id] && st'.tuples == st1.tuples
    ensures After(t, st, st')
  {
    hide Lowers;
  }

  lemma TupleAdded(t: Table, st: State, st1: State, e: Expr, ids: seq<nat>, st': State)
    requires After(t, st, st1) && !e.Tuple? && e.ref !in st.tuples && |ids| == Width(e)
    requires e.ref in t.entries && t.entries[e.ref].0 == e && TupleLowers(e)
    requires st'.ids == st1.ids && st'.tuples == st1.tuples[e.ref := ids]
    ensures After(t, st, st')
  {
    hide TupleLowers;
  }

  lemma {:induction false} WindowExactly(sem: Sem, e: Expr, s: Scope, t: Table, st: State)
    requires WellScoped(sem, e, s, t) && Remembers(t, st) && e.WindowAt? && e.ref !in st.ids
    ensures LowerNew(e, st).Success? <==> Lowers(e)
    ensures LowerNew(e, st).Success? ==> After(t, st, LowerNew(e, st).value.1)
    decreases e, 1
  {
    hide Home, LowerAll, LowerStarts, AllLower, StartsLower, Grew, Demand, Remembers, Kept;
    AllExactly(sem, e.base, s, t, st);
    if |e.base| == FirstStart(e.wop) && LowerAll(e.base, st).Success? {
      var st1 := LowerAll(e.base, st).value.1;
      StartsExactly(sem, e.wop, e.starts, s, t, st1);
      if LowerStarts(e.wop, e.starts, st1).Success? {
        var st2 := LowerStarts(e.wop, e.starts, st1).value.1;
        AfterTrans(t, st, st1, st2);
        Added(t, st, st2, e, st2.counter, LowerNew(e, st).value.1);
      }
    }
  }

  lemma {:induction false} ReduceExactly(sem: Sem, e: Expr, s: Scope, t: Table, st: State)
    requires WellScoped(sem, e, s, t) && Remembers(t, st) && e.Reduce? && e.ref !in st.ids
    ensures LowerNew(e, st).Success? <==> Lowers(e)
    ensures LowerNew(e, st).Success? ==> After(t, st, LowerNew(e, st).value.1)
    decreases e, 1
  {
    hide Home, Lower, Grew, Demand, Remembers, Kept;
    LowerExactly(sem, e.tensor, s, t, st);
    if Lower(e.tensor, st).Success? {
      var st1 := Lower(e.tensor, st).value.1;
      LowerExactly(sem, e.acc, s, t, st1);
      if Lower(e.acc, st1).Success? {
        var st2 := Lower(e.acc, st1).value.1;
        RegionRemembers(t.bodies[e.ref], st2);
        LowerExactly(sem, e.fn, Top(2), t.bodies[e.ref], Isolated(st2));
        AfterTrans(t, st, st1, st2);
        if Lower(e.fn, Isolated(st2)).Success? {
          Added(t, st, st2, e, st2.counter, LowerNew(e, st).value.1);
        }
      }
    }
  }

  lemma {:induction false} CondExactly(sem: Sem, e: Expr, s: Scope, t: Table, st: State)
    requires WellScoped(sem, e, s, t) && Remembers(t, st) && e.Cond? && e.ref !in st.ids
    ensures LowerNew(e, st).Success? <==> Lowers(e)
    ensures LowerNew(e, st).Success? ==> After(t, st, LowerNew(e, st).value.1)
    decreases e, 1
  {
    hide Home, Lower, LowerClauses, ClausesLower, Grew, Demand, Remembers, Kept;
    LowerExactly(sem, e.default, s, t, st);
    if Lower(e.default, st).Success? {
      var (otherwise, st1) := Lower(e.default, st).value;
      ClausesExactly(sem, e.clauses, otherwise, e.spec, s, t, st1);
      if LowerClauses(e.clauses, otherwise, e.spec, st1).Success? {
        var (id, st2) := LowerClauses(e.clauses, otherwise, e.spec, st1).value;
        AfterTrans(t, st, st1, st2);
        Added(t, st, st2, e, id, LowerNew(e, st).value.1);
      }
    }
  }

  lemma {:induction false} BlockExactly(sem: Sem, e: Expr, s: Scope, t: Table, st: State)
    requires WellScoped(sem, e, s, t) && Remembers(t, st) && e.Block? && e.ref !in st.ids
    ensures LowerNew(e, st).Success? <==> Lowers(e)
    ensures LowerNew(e, st).Success? ==> After(t, st, LowerNew(e, st).value.1)
    decreases e, 1
  {
    hide Home, Lower, LowerAll, AllLower, Grew, Demand, Remembers, Kept;
    AllExactly(sem, e.inputs, s, t, st);
    if LowerAll(e.inputs, st).Success? {
      var (bound, st1) := LowerAll(e.inputs, st).value;
      var inside := st1.(bind := Some(bound));
      SameMemo(t, st, st1, inside);
      LowerExactly(sem, e.result, In(e.inputs, s), t, inside);
      if Lower(e.result, inside).Success? {
        var (id, st2) := Lower(e.result, inside).value;
        AfterTrans(t, st, inside, st2);
        Added(t, st, st2, e, id, LowerNew(e, st).value.1);
      }
    }
  }

  lemma {:induction false} AllExactly(sem: Sem, es: seq<Expr>, s: Scope, t: Table, st: State)
    requires AllScoped(sem, es, s, t) && Remembers(t, st)
    ensures LowerAll(es, st).Success? <==> AllLower(es)
    ensures LowerAll(es, st).Success? ==> After(t, st, LowerAll(es, st).value.1)
    decreases es, 0
  {
    if es != [] {
      var before, last := es[..|es| - 1], es[|es| - 1];
      AllExactly(sem, before, s, t, st);
      if LowerAll(before, st).Success? {
        LowerExactly(sem, last, s, t, LowerAll(before, st).value.1);
      }
      assert AllLower(es) <==> AllLower(before) && Lowers(last);
    }
  }

  lemma {:induction false} StartsExactly(sem: Sem, wop: WindowOp, starts: seq<StartExpr>, s: Scope, t: Table, st: State)
    requires StartsScoped(sem, wop, starts, s, t) && Remembers(t, st)
    ensures LowerStarts(wop, starts, st).Success? <==> StartsLower(wop, starts)
    ensures LowerStarts(wop, starts, st).Success? ==> After(t, st, LowerStarts(wop, starts, st).value.1)
    decreases starts, 0
  {
    hide Lower, Lowers, Remembers, Kept, WellScoped, ScalarHonest, Grew;
    AfterSelf(t, st);
    if starts != [] {
      var before, last := starts[..|starts| - 1], starts[|starts| - 1];
      assert (starts decreases to last);
      StartsExactly(sem, wop, before, s, t, st);
      if last.From? {
        NumberLowers(last.e);
        if LowerStarts(wop, before, st).Success? && StaticStart(wop, last).None? {
          var st1 := LowerStarts(wop, before, st).value.1;
          LowerExactly(sem, last.e, s, t, st1);
          if Lower(last.e, st1).Success? {
            AfterTrans(t, st, st1, Lower(last.e, st1).value.1);
          }
        }
      }
      assert StartsLower(wop, starts) <==> StartsLower(wop, before) && if last.At? then wop.Slice? else Lowers(last.e);
    }
  }

  lemma {:induction false} ClausesExactly(sem: Sem, clauses: seq<Clause>, otherwise: nat, spec: Spec, s: Scope,
      t: Table, st: State)
    requires ClausesScoped(sem, clauses, s, t) && Remembers(t, st)
    ensures LowerClauses(clauses, otherwise, spec, st).Success? <==> ClausesLower(clauses)
    ensures LowerClauses(clauses, otherwise, spec, st).Success? ==>
        After(t, st, LowerClauses(clauses, otherwise, spec, st).value.1)
    decreases clauses, 0
  {
    hide Lower, Lowers, Remembers, Kept, WellScoped, Grew;
    AfterSelf(t, st);
    if clauses != [] {
      var first := clauses[0];
      assert (clauses decreases to first);
      ClausesExactly(sem, clauses[1..], otherwise, spec, s, t, st);
      if LowerClauses(clauses[1..], otherwise, spec, st).Success? {
        var st1 := LowerClauses(clauses[1..], otherwise, spec, st).value.1;
        LowerExactly(sem, first.pred, s, t, st1);
        if Lower(first.pred, st1).Success? {
          var st2 := Lower(first.pred, st1).value.1;
          LowerExactly(sem, first.result, s, t, st2);
          AfterTrans(t, st, st1, st2);
          if Lower(first.result, st2).Success? {
            var st3 := Lower(first.result, st2).value.1;
            AfterTrans(t, st, st2, st3);
            SameMemo(t, st, st3, LowerClauses(clauses, otherwise, spec, st).value.1);
          }
        }
      }
      assert clauses == [first] + clauses[1..];
      assert ClausesLower(clauses) <==> ClausesLower(clauses[1..]) && Lowers(first.pred) && Lowers(first.result);
    }
  }

  lemma {:induction false} ChoicesExactly(sem: Sem, choices: seq<TupleClause>, width: nat, s: Scope, t: Table,
      st: State)
    requires ChoicesScoped(sem, choices, s, t) && Remembers(t, st)
    ensures LowerChoices(choices, width, st).Success? <==> ChoicesLower(choices, width)
    ensures LowerChoices(choices, width, st).Success? ==> After(t, st, LowerChoices(choices, width, st).value.1)
    decreases choices, 0
  {
    hide Lower, LowerAll, Lowers, AllLower, Remembers, Kept, WellScoped, AllScoped, Grew;
    AfterSelf(t, st);
    if choices != [] {
      var before, last := choices[..|choices| - 1], choices[|choices| - 1];
      assert (choices decreases to last);
      ChoicesExactly(sem, before, width, s, t, st);
      if LowerChoices(before, width, st).Success? {
        var st1 := LowerChoices(before, width, st).value.1;
        LowerExactly(sem, last.pred, s, t, st1);
        if Lower(last.pred, st1).Success? {
          var st2 := Lower(last.pred, st1).value.1;
          AllExactly(sem, last.results, s, t, st2);
          AfterTrans(t, st, st1, st2);
          if LowerAll(last.results, st2).Success? {
            AfterTrans(t, st, st2, LowerAll(last.results, st2).value.1);
          }
        }
      }
      assert ChoicesLower(choices, width) <==>
          (ChoicesLower(before, width) && Lowers(last.pred) && AllLower(last.results) && |last.results| == width);
    }
  }

  lemma {:induction false} TupleExactly(sem: Sem, e: Expr, s: Scope, t: Table, st: State)
    requires WellScoped(sem, e, s, t) && Remembers(t, st)
    ensures LowerTuple(e, st).Success? <==> TupleLowers(e)
    ensures LowerTuple(e, st).Success? ==> |LowerTuple(e, st).value.0| == Width(e)
    ensures LowerTuple(e, st).Success? ==> After(t, st, LowerTuple(e, st).value.1)
    decreases e, 1
  {
    hide Home, Lower, LowerAll, LowerChoices, AllLower, ChoicesLower, Grew, Demand, Kept;
    match e
    case TupleBlock(ref, _, _) =>
      if ref in st.tuples { AfterSelf(t, st); } else { TupleBlockExactly(sem, e, s, t, st); }
    case Loop(ref, _, _, _) => if ref in st.tuples { AfterSelf(t, st); } else { LoopExactly(sem, e, s, t, st); }
    case Metadata(_, inner, _) => TupleExactly(sem, inner, s, t, st);
    case TupleCond(_, _, _) => TupleCondExactly(sem, e, s, t, st);
    case Tuple(elems) => AllExactly(sem, elems, s, t, st);
    case _ =>
  }

  lemma {:induction false} TupleBlockExactly(sem: Sem, e: Expr, s: Scope, t: Table, st: State)
    requires WellScoped(sem, e, s, t) && Remembers(t, st) && e.TupleBlock? && e.ref !in st.tuples
    ensures LowerTuple(e, st).Success? <==> TupleLowers(e)
    ensures LowerTuple(e, st).Success? ==> |LowerTuple(e, st).value.0| == Width(e)
    ensures LowerTuple(e, st).Success? ==> After(t, st, LowerTuple(e, st).value.1)
    decreases e, 0
  {
    hide Home, LowerAll, AllLower, Grew, Demand, Remembers, Kept;
    AllExactly(sem, e.inputs, s, t, st);
    if LowerAll(e.inputs, st).Success? {
      var (bound, st1) := LowerAll(e.inputs, st).value;
      var inside := st1.(bind := Some(bound));
      SameMemo(t, st, st1, inside);
      AllExactly(sem, e.results, In(e.inputs, s), t, inside);
      if LowerAll(e.results, inside).Success? {
        var (ids, st2) := LowerAll(e.results, inside).value;
        AfterTrans(t, st, inside, st2);
        TupleAdded(t, st, st2, e, ids, LowerTuple(e, st).value.1);
      }
    }
  }

  lemma {:induction false} LoopExactly(sem: Sem, e: Expr, s: Scope, t: Table, st: State)
    requires WellScoped(sem, e, s, t) && Remembers(t, st) && e.Loop? && e.ref !in st.tuples
    ensures LowerTuple(e, st).Success? <==> TupleLowers(e)
    ensures LowerTuple(e, st).Success? ==> |LowerTuple(e, st).value.0| == Width(e)
    ensures LowerTuple(e, st).Success? ==> After(t, st, LowerTuple(e, st).value.1)
    decreases e, 0
  {
    hide Home, Lower, LowerAll, AllLower, Grew, Demand, Remembers, Kept, Finish;
    AllExactly(sem, e.init, s, t, st);
    if LowerAll(e.init, st).Success? {
      var st1 := LowerAll(e.init, st).value.1;
      RegionRemembers(t.tests[e.ref], st1);
      LowerExactly(sem, e.test, Top(|e.init|), t.tests[e.ref], Isolated(st1));
      if Lower(e.test, Isolated(st1)).Success? {
        var testState := Lower(e.test, Isolated(st1)).value.1;
        RegionRemembers(t.bodies[e.ref], testState);
        AllExactly(sem, e.body, Top(|e.init|), t.bodies[e.ref], Isolated(testState));
        if LowerAll(e.body, Isolated(testState)).Success? && e.body != [] {
          var (ids, st') := LowerTuple(e, st).value;
          TupleAdded(t, st, st1, e, ids, st');
        }
      }
    }
  }

  lemma {:induction false} TupleCondExactly(sem: Sem, e: Expr, s: Scope, t: Table, st: State)
    requires WellScoped(sem, e, s, t) && Remembers(t, st) && e.TupleCond?
    ensures LowerTuple(e, st).Success? <==> TupleLowers(e)
    ensures LowerTuple(e, st).Success? ==> |LowerTuple(e, st).value.0| == Width(e)
    ensures LowerTuple(e, st).Success? ==> After(t, st, LowerTuple(e, st).value.1)
    decreases e, 0
  {
    hide Home, LowerAll, LowerChoices, AllLower, ChoicesLower, Grew, Demand, Remembers, Kept;
    AllExactly(sem, e.defaults, s, t, st);
    if LowerAll(e.defaults, st).Success? {
      var (others, st1) := LowerAll(e.defaults, st).value;
      ChoicesExactly(sem, e.choices, |e.defaults|, s, t, st1);
      if LowerChoices(e.choices, |e.defaults|, st1).Success? {
        var (data, st2) := LowerChoices(e.choices, |e.defaults|, st1).value;
        AfterTrans(t, st, st1, st2);
        SelectsRemember(data, others, e.defaults, st2);
        SameMemo(t, st, st2, LowerTuple(e, st).value.1);
      }
    }
  }

  /** Select chains leave the memo as it is. */
  lemma {:induction false} SelectsRemember(data: seq<Choice>, others: seq<nat>, defaults: seq<Expr>, st: State)
    requires |others| <= |defaults| && forall k :: 0 <= k < |data| ==> |data[k].results| == |defaults|
    ensures var st' := SelectAll(data, others, defaults, st).1; st'.ids == st.ids && st'.tuples == st.tuples
    decreases |others|
  {
    if others != [] {
      var i := |others| - 1;
      SelectsRemember(data, others[..i], defaults, st);
      ChainRemembers(data, i, others[i], SpecOf(defaults[i]), SelectAll(data, others[..i], defaults, st).1);
    }
  }

  lemma {:induction false} ChainRemembers(data: seq<Choice>, i: nat, otherwise: nat, spec: Spec, st: State)
    requires forall k :: 0 <= k < |data| ==> i < |data[k].results|
    ensures var st' := SelectOne(data, i, otherwise, spec, st).1; st'.ids == st.ids && st'.tuples == st.tuples
    decreases |data|
  {
    if data != [] {
      ChainRemembers(data[1..], i, otherwise, spec, st);
    }
  }

  // -- the theorems -------------------------------------------------------------------

  /** A program is lowered if and only if each of its outputs can be. */
  lemma ToGraphExactly(sem: Sem, outputs: seq<Expr>, arity: nat, t: Table)
    requires AllScoped(sem, outputs, Top(arity), t)
    ensures ToGraph(outputs).Success? <==> AllLower(outputs)
  {
    AllExactly(sem, outputs, Top(arity), t, EMPTY);
  }

  lemma HasId(e: Expr, st: State)
    requires Lower(e, st).Success? && !e.TupleBlock?
    ensures var (id, st') := Lower(e, st).value; !e.Tuple? && e.ref in st'.ids && st'.ids[e.ref] == id
  {
    hide LowerAll, LowerTuple, LowerStarts, LowerClauses;
  }

  /** What is shared is lowered once: met again, however much was lowered in between, an expression has
      its id already, and nothing is added. */
  lemma LoweredOnce(sem: Sem, e: Expr, es: seq<Expr>, s: Scope, t: Table, st: State)
    requires Remembers(t, st) && WellScoped(sem, e, s, t) && AllScoped(sem, es, s, t) && !e.TupleBlock?
    requires Lower(e, st).Success? && LowerAll(es, Lower(e, st).value.1).Success?
    ensures var (id, st1) := Lower(e, st).value;
            var st2 := LowerAll(es, st1).value.1;
            Lower(e, st2) == Success((id, st2))
  {
    hide WellScoped, AllScoped, LowerAll, Remembers, Lowers, AllLower, TupleLowers;
    LowerExactly(sem, e, s, t, st);
    AllExactly(sem, es, s, t, Lower(e, st).value.1);
    HasId(e, st);
  }

  /** A tuple-valued block or a loop is lowered once for all its projections. */
  lemma TupleLoweredOnce(sem: Sem, e: Expr, es: seq<Expr>, s: Scope, t: Table, st: State)
    requires Remembers(t, st) && WellScoped(sem, e, s, t) && AllScoped(sem, es, s, t) && (e.TupleBlock? || e.Loop?)
    requires LowerTuple(e, st).Success? && LowerAll(es, LowerTuple(e, st).value.1).Success?
    ensures var (ids, st1) := LowerTuple(e, st).value;
            var st2 := LowerAll(es, st1).value.1;
            LowerTuple(e, st2) == Success((ids, st2))
  {
    hide WellScoped, AllScoped, LowerAll, Remembers;
    TupleExactly(sem, e, s, t, st);
    AllExactly(sem, es, s, t, LowerTuple(e, st).value.1);
  }
}
