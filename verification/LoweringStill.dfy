/** Folds whose functions read no runtime scalar are lowered to nodes that read none. */
module LoweringStill {
  import opened Values
  import opened GraphIR
  import opened Lowering
  import opened LoweringExact
  import opened Segments

  /** In a region that is still, every window starts where the program says; in any other, only the
      functions of folds are still.  Loops' regions are nodes of their own. */
  predicate StillExpr(e: Expr, still: bool)
    decreases e, 1
  {
    match e
    case Apply(_, _, args, _, _) => AllStill(args, still)
    case Fill(_, _, args, _, _, _) => AllStill(args, still)
    case WindowAt(_, wop, base, starts, _, _, _) => AllStill(base, still) && StartsStill(wop, starts, still)
    case Reduce(_, _, tensor, acc, fn, _, _, _) =>
      StillExpr(tensor, still) && StillExpr(acc, still) && StillExpr(fn, true)
    case Metadata(_, inner, _) => StillExpr(inner, still)
    case Cond(_, clauses, default, _) => StillExpr(default, still) && ClausesStill(clauses, still)
    case Block(_, inputs, result, _) => AllStill(inputs, still) && StillExpr(result, still)
    case Elem(_, source, _, _) => StillExpr(source, still)
    case TupleBlock(_, inputs, results) => AllStill(inputs, still) && AllStill(results, still)
    case Loop(_, init, _, _) => AllStill(init, still) && !still
    case TupleCond(_, choices, defaults) => AllStill(defaults, still) && ChoicesStill(choices, still)
    case Tuple(elems) => AllStill(elems, still)
    case _ => true
  }

  predicate AllStill(es: seq<Expr>, still: bool)
    decreases es, 0
  {
    forall k :: 0 <= k < |es| ==> StillExpr(es[k], still)
  }

  /** A start is the program's own if it is an integer or, in a put_slice, a compile-time scalar. */
  predicate StartsStill(wop: WindowOp, starts: seq<StartExpr>, still: bool)
    decreases starts, 0
  {
    forall k :: 0 <= k < |starts| && starts[k].From? ==>
      assert (starts decreases to starts[k]);
      (wop.PutSlice? && IsNumber(starts[k].e)) || (!still && StillExpr(starts[k].e, still))
  }

  predicate ClausesStill(clauses: seq<Clause>, still: bool)
    decreases clauses, 0
  {
    forall k :: 0 <= k < |clauses| ==>
      assert (clauses decreases to clauses[k]);
      StillExpr(clauses[k].pred, still) && StillExpr(clauses[k].result, still)
  }

  predicate ChoicesStill(choices: seq<TupleClause>, still: bool)
    decreases choices, 0
  {
    forall k :: 0 <= k < |choices| ==>
      assert (choices decreases to choices[k]);
      StillExpr(choices[k].pred, still) && AllStill(choices[k].results, still)
  }

  /** What a region's nodes then are. */
  predicate NodesStill(nodes: seq<Node>, still: bool) {
    forall k :: 0 <= k < |nodes| && (still || nodes[k].Fold?) ==> Still(nodes[k])
  }

  lemma {:induction false} LowerStill(e: Expr, still: bool, st: State)
    requires StillExpr(e, still) && NodesStill(st.nodes, still) && Lower(e, st).Success?
    ensures NodesStill(Lower(e, st).value.1.nodes, still)
    decreases e, 3
  {
    if e.ref !in st.ids {
      LowerNewStill(e, still, st);
    }
  }

  lemma {:induction false} LowerNewStill(e: Expr, still: bool, st: State)
    requires StillExpr(e, still) && NodesStill(st.nodes, still) && !e.Tuple? && LowerNew(e, st).Success?
    ensures NodesStill(LowerNew(e, st).value.1.nodes, still)
    decreases e, 2
  {
    hide Lower, LowerAll, LowerTuple, LowerStarts, LowerClauses, Grew, AllStill, StartsStill, ClausesStill, NodesStill;
    match e
    case Apply(_, op, args, attrs, spec) =>
      AllLowerStill(args, still, st);
      var (ids, st1) := LowerAll(args, st).value;
      OneMore(st1.nodes, Compute(st1.counter, Op(op, attrs, None, spec), ids), still);
    case Fill(_, op, args, fill, attrs, spec) =>
      AllLowerStill(args, still, st);
      var (ids, st1) := LowerAll(args, st).value;
      OneMore(st1.nodes, Compute(st1.counter, Op(op, attrs, Some(ScalarConstant(fill).value), spec), ids), still);
    case WindowAt(_, wop, base, starts, lengths, attrs, spec) =>
      AllLowerStill(base, still, st);
      var (ids, st1) := LowerAll(base, st).value;
      StartsLowerStill(wop, starts, still, st1);
      var (dyn, st2) := LowerStarts(wop, starts, st1).value;
      OneMore(st2.nodes, Compute(st2.counter, Window(wop, attrs, lengths, StartSpecs(wop, starts), spec), ids + dyn),
          still);
    case Reduce(_, op, tensor, acc, fn, count, attrs, spec) => ReduceStill(e, still, st);
    case Metadata(_, inner, _) => LowerStill(inner, still, st);
    case Cond(_, clauses, default, spec) =>
      LowerStill(default, still, st);
      var (otherwise, st1) := Lower(default, st).value;
      ClausesLowerStill(clauses, otherwise, spec, still, st1);
    case Block(_, inputs, result, _) =>
      AllLowerStill(inputs, still, st);
      var (bound, st1) := LowerAll(inputs, st).value;
      LowerStill(result, still, st1.(bind := Some(bound)));
    case Elem(_, source, _, _) => TupleLowerStill(source, still, st);
    case TupleBlock(_, _, _) => TupleLowerStill(e, still, st);
    case _ =>
  }

  lemma OneMore(nodes: seq<Node>, node: Node, still: bool)
    requires NodesStill(nodes, still) && (still || node.Fold? ==> Still(node))
    ensures NodesStill(nodes + [node], still)
  {
    hide Still;
  }

  lemma {:induction false} ReduceStill(e: Expr, still: bool, st: State)
    requires StillExpr(e, still) && NodesStill(st.nodes, still) && e.Reduce? && LowerNew(e, st).Success?
    ensures NodesStill(LowerNew(e, st).value.1.nodes, still)
    decreases e, 1
  {
    hide Lower, Grew;
    LowerStill(e.tensor, still, st);
    var (i, st1) := Lower(e.tensor, st).value;
    LowerStill(e.acc, still, st1);
    var (j, st2) := Lower(e.acc, st1).value;
    LowerStill(e.fn, true, Isolated(st2));
    var (id, sub) := Lower(e.fn, Isolated(st2)).value;
    OneMore(st2.nodes, Fold(st2.counter, e.op, e.attrs, [i, j], e.count, Finish([e.fn], [id], sub), e.spec), still);
  }

  lemma {:induction false} AllLowerStill(es: seq<Expr>, still: bool, st: State)
    requires AllStill(es, still) && NodesStill(st.nodes, still) && LowerAll(es, st).Success?
    ensures NodesStill(LowerAll(es, st).value.1.nodes, still)
    decreases es, 0
  {
    hide Lower, NodesStill, Grew;
    if es != [] {
      AllLowerStill(es[..|es| - 1], still, st);
      LowerStill(es[|es| - 1], still, LowerAll(es[..|es| - 1], st).value.1);
    }
  }

  lemma {:induction false} StartsLowerStill(wop: WindowOp, starts: seq<StartExpr>, still: bool, st: State)
    requires StartsStill(wop, starts, still) && NodesStill(st.nodes, still) && LowerStarts(wop, starts, st).Success?
    ensures NodesStill(LowerStarts(wop, starts, st).value.1.nodes, still)
    ensures still ==> LowerStarts(wop, starts, st).value.0 == []
    decreases starts, 0
  {
    hide Lower, NodesStill, Grew;
    if starts != [] {
      var before, last := starts[..|starts| - 1], starts[|starts| - 1];
      assert (starts decreases to last);
      StartsLowerStill(wop, before, still, st);
      if last.From? {
        NumberLowers(last.e);
        if StaticStart(wop, last).None? {
          LowerStill(last.e, still, LowerStarts(wop, before, st).value.1);
        }
      }
    }
  }

  lemma {:induction false} ClausesLowerStill(clauses: seq<Clause>, otherwise: nat, spec: Spec, still: bool, st: State)
    requires ClausesStill(clauses, still) && NodesStill(st.nodes, still)
    requires LowerClauses(clauses, otherwise, spec, st).Success?
    ensures NodesStill(LowerClauses(clauses, otherwise, spec, st).value.1.nodes, still)
    decreases clauses, 0
  {
    hide Lower, NodesStill, Grew;
    if clauses != [] {
      var first := clauses[0];
      assert (clauses decreases to first);
      ClausesLowerStill(clauses[1..], otherwise, spec, still, st);
      var (rest, st1) := LowerClauses(clauses[1..], otherwise, spec, st).value;
      LowerStill(first.pred, still, st1);
      var (p, st2) := Lower(first.pred, st1).value;
      LowerStill(first.result, still, st2);
      var (v, st3) := Lower(first.result, st2).value;
      OneMore(st3.nodes, Compute(st3.counter, SelectKernel(spec), [p, v, rest]), still);
    }
  }

  lemma {:induction false} ChoicesLowerStill(choices: seq<TupleClause>, width: nat, still: bool, st: State)
    requires ChoicesStill(choices, still) && NodesStill(st.nodes, still) && LowerChoices(choices, width, st).Success?
    ensures NodesStill(LowerChoices(choices, width, st).value.1.nodes, still)
    decreases choices, 0
  {
    hide Lower, LowerAll, NodesStill, AllStill, Grew;
    if choices != [] {
      var before, last := choices[..|choices| - 1], choices[|choices| - 1];
      assert (choices decreases to last);
      ChoicesLowerStill(before, width, still, st);
      var st1 := LowerChoices(before, width, st).value.1;
      LowerStill(last.pred, still, st1);
      AllLowerStill(last.results, still, Lower(last.pred, st1).value.1);
    }
  }

  lemma {:induction false} TupleLowerStill(e: Expr, still: bool, st: State)
    requires StillExpr(e, still) && NodesStill(st.nodes, still) && LowerTuple(e, st).Success?
    ensures NodesStill(LowerTuple(e, st).value.1.nodes, still)
    decreases e, 1
  {
    hide Lower, LowerAll, LowerChoices, NodesStill, AllStill, ChoicesStill, Grew, Finish;
    match e
    case TupleBlock(ref, inputs, results) =>
      if ref !in st.tuples {
        AllLowerStill(inputs, still, st);
        var (bound, st1) := LowerAll(inputs, st).value;
        AllLowerStill(results, still, st1.(bind := Some(bound)));
      }
    case Loop(ref, init, test, body) =>
      if ref !in st.tuples {
        AllLowerStill(init, still, st);
        var (ids, st1) := LowerAll(init, st).value;
        var (t, testState) := Lower(test, Isolated(st1)).value;
        var (outs, bodyState) := LowerAll(body, Isolated(testState)).value;
        OneMore(st1.nodes, While(ids, Finish([test], [t], testState), Finish(body, outs, bodyState),
            LoopOutputs(body, st1.counter)), still);
      }
    case Metadata(_, inner, _) => TupleLowerStill(inner, still, st);
    case TupleCond(_, choices, defaults) =>
      AllLowerStill(defaults, still, st);
      var (others, st1) := LowerAll(defaults, st).value;
      ChoicesLowerStill(choices, |defaults|, still, st1);
      var (data, st2) := LowerChoices(choices, |defaults|, st1).value;
      SelectsStill(data, others, defaults, still, st2);
    case Tuple(elems) => AllLowerStill(elems, still, st);
    case _ =>
  }

  lemma {:induction false} SelectsStill(data: seq<Choice>, others: seq<nat>, defaults: seq<Expr>, still: bool,
      st: State)
    requires |others| <= |defaults| && forall k :: 0 <= k < |data| ==> |data[k].results| == |defaults|
    requires NodesStill(st.nodes, still)
    ensures NodesStill(SelectAll(data, others, defaults, st).1.nodes, still)
    decreases |others|
  {
    hide NodesStill, Grew;
    if others != [] {
      var i := |others| - 1;
      SelectsStill(data, others[..i], defaults, still, st);
      ChainStill(data, i, others[i], SpecOf(defaults[i]), still, SelectAll(data, others[..i], defaults, st).1);
    }
  }

  lemma {:induction false} ChainStill(data: seq<Choice>, i: nat, otherwise: nat, spec: Spec, still: bool, st: State)
    requires forall k :: 0 <= k < |data| ==> i < |data[k].results|
    requires NodesStill(st.nodes, still)
    ensures NodesStill(SelectOne(data, i, otherwise, spec, st).1.nodes, still)
    decreases |data|
  {
    hide NodesStill, Grew;
    if data != [] {
      ChainStill(data[1..], i, otherwise, spec, still, st);
      var (rest, st1) := SelectOne(data[1..], i, otherwise, spec, st);
      OneMore(st1.nodes, Compute(st1.counter, SelectKernel(spec), [data[0].pred, data[0].results[i], rest]), still);
    }
  }

  /** A program in which no fold's function reads a runtime scalar or holds a loop becomes a graph in
      which none does. */
  lemma StillProgram(outputs: seq<Expr>)
    requires AllStill(outputs, false) && ToGraph(outputs).Success?
    ensures var nodes := ToGraph(outputs).value.main.nodes;
            forall k :: 0 <= k < |nodes| && nodes[k].Fold? ==> Still(nodes[k])
  {
    AllLowerStill(outputs, false, EMPTY);
  }
}
