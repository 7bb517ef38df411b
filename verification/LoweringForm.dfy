/** Lowered graphs are well formed: one sequential id space, and no reference before its definition. */
module LoweringForm {
  import opened Values
  import opened GraphIR
  import opened GraphForm
  import opened Lowering

  predicate ItemsOk(st: State) {
    AllIds(st.inputs, st.constants, st.nodes) == Range(st.counter) && NodesOk(st.nodes, st.counter)
  }

  /** An operation, or a window whose dynamic starts all name operands. */
  predicate KernelOk(k: Kernel, operands: nat) {
    k.Op? ||
    (k.Window? && forall i :: 0 <= i < |k.starts| ==>
        !k.starts[i].Symbolic? && (k.starts[i].Input? ==> FirstStart(k.wop) + k.starts[i].k < operands))
  }

  /** Only such kernels, at any depth. */
  predicate NodeKind(node: Node)
    decreases node
  {
    match node
    case Compute(_, k, inputs) => KernelOk(k, |inputs|)
    case Fold(_, _, _, _, _, fn, _) => forall k :: 0 <= k < |fn.nodes| ==> NodeKind(fn.nodes[k])
    case While(_, cond, body, _) =>
      && (forall k :: 0 <= k < |cond.nodes| ==> NodeKind(cond.nodes[k]))
      && forall k :: 0 <= k < |body.nodes| ==> NodeKind(body.nodes[k])
  }

  predicate AllKinds(nodes: seq<Node>) {
    forall k :: 0 <= k < |nodes| ==> NodeKind(nodes[k])
  }

  predicate StateOk(st: State) {
    && ItemsOk(st) && AllKinds(st.nodes)
    && (forall r :: r in st.ids ==> st.ids[r] < st.counter)
    && (forall r :: r in st.tuples ==> AllBelow(st.tuples[r], st.counter))
    && (st.bind.Some? ==> AllBelow(st.bind.value, st.counter))
  }

  lemma NodesOkMonotone(nodes: seq<Node>, a: nat, b: nat)
    requires NodesOk(nodes, a) && a <= b
    ensures NodesOk(nodes, b)
  {
  }

  // -- state updates keep states well formed --------------------------------------

  lemma AddNodeOk(nodes: seq<Node>, node: Node, bound: nat)
    requires NodesOk(nodes, bound) && AllBelow(node.inputs, bound) && NodeSubsOk(node)
    requires var ids := DefinedIds(node); ids != [] && forall k :: 0 <= k < |ids| ==> ids[k] == bound + k
    ensures NodesOk(nodes + [node], bound + |DefinedIds(node)|)
    ensures NodeIds(nodes + [node]) == NodeIds(nodes) + multiset(DefinedIds(node))
  {
    hide AllBelow, NodeSubsOk;
    var all, ids := nodes + [node], DefinedIds(node);
    assert all[..|all| - 1] == nodes && all[|all| - 1] == node;
    assert ids[0] == bound + 0;
  }

  /** Appending a node that defines the next ids. */
  lemma AppendNodeOk(st: State, st': State, node: Node)
    requires StateOk(st) && AllBelow(node.inputs, st.counter) && NodeSubsOk(node)
    requires var ids := DefinedIds(node);
             && ids != [] && (forall k :: 0 <= k < |ids| ==> ids[k] == st.counter + k)
             && st'.counter == st.counter + |ids|
    requires st'.inputs == st.inputs && st'.constants == st.constants && st'.nodes == st.nodes + [node]
    ensures ItemsOk(st')
  {
    hide NodesOk, NodeSubsOk, NodeIds, InputIds, ConstantIds;
    AddNodeOk(st.nodes, node, st.counter);
    RangeSplit(st.counter, DefinedIds(node));
  }

  lemma AddRawOk(st: State, kernel: Kernel, inputs: seq<nat>)
    requires StateOk(st) && AllBelow(inputs, st.counter) && KernelOk(kernel, |inputs|)
    ensures StateOk(AddRaw(st, kernel, inputs).1)
  {
    AppendNodeOk(st, AddRaw(st, kernel, inputs).1, Compute(st.counter, kernel, inputs));
    hide ItemsOk;
  }

  lemma AddNodeStateOk(st: State, ref: Ref, kernel: Kernel, inputs: seq<nat>)
    requires StateOk(st) && AllBelow(inputs, st.counter) && KernelOk(kernel, |inputs|)
    ensures StateOk(AddNode(st, ref, kernel, inputs).1)
  {
    AddRawOk(st, kernel, inputs);
    WithRefOk(AddRaw(st, kernel, inputs).1, ref, st.counter);
  }

  lemma WithRefOk(st: State, ref: Ref, id: nat)
    requires StateOk(st) && id < st.counter
    ensures StateOk(WithRef(st, ref, id))
  {
    hide NodesOk, AllIds;
  }

  lemma AddFoldOk(st: State, ref: Ref, op: string, attrs: Attrs, inputs: seq<nat>, count: nat, fn: Sub, spec: Spec)
    requires StateOk(st) && AllBelow(inputs, st.counter) && SubOk(fn) && AllKinds(fn.nodes)
    ensures StateOk(AddFold(st, ref, op, attrs, inputs, count, fn, spec).1)
  {
    hide ItemsOk, SubOk;
    AppendNodeOk(st, AddFold(st, ref, op, attrs, inputs, count, fn, spec).1,
        Fold(st.counter, op, attrs, inputs, count, fn, spec));
  }

  lemma AddLoopOk(st: State, ref: Ref, inputs: seq<nat>, cond: Sub, body: Sub, results: seq<Expr>)
    requires StateOk(st) && AllBelow(inputs, st.counter) && SubOk(cond) && SubOk(body) && results != []
    requires AllKinds(cond.nodes) && AllKinds(body.nodes)
    ensures var (ids, st') := AddLoop(st, ref, inputs, cond, body, results);
            StateOk(st') && AllBelow(ids, st'.counter) && st.counter <= st'.counter
  {
    hide ItemsOk, SubOk, LoopOutputs, OutIds;
    var outs := LoopOutputs(results, st.counter);
    var (ids, st') := AddLoop(st, ref, inputs, cond, body, results);
    assert ItemsOk(st') by {
      AppendNodeOk(st, st', While(inputs, cond, body, outs));
    }
    KnownBelow(st);
    hide ItemsOk, SubOk, LoopOutputs, OutIds;
    assert AllBelow(ids, st'.counter);
  }

  /** Appending an input or a constant that defines the next id. */
  lemma AppendInputOk(st: State, st': State, inp: GraphInput)
    requires ItemsOk(st) && inp.id == st.counter && st'.counter == st.counter + 1
    requires st'.inputs == st.inputs + [inp] && st'.constants == st.constants && st'.nodes == st.nodes
    ensures ItemsOk(st')
  {
    NodesOkMonotone(st.nodes, st.counter, st.counter + 1);
    hide NodesOk, NodeIds, ConstantIds;
    assert st'.inputs[..|st.inputs|] == st.inputs;
    assert InputIds(st'.inputs) == InputIds(st.inputs) + multiset{inp.id};
    hide InputIds;
  }

  lemma AppendConstantOk(st: State, st': State, c: Constant)
    requires ItemsOk(st) && c.id == st.counter && st'.counter == st.counter + 1
    requires st'.inputs == st.inputs && st'.constants == st.constants + [c] && st'.nodes == st.nodes
    ensures ItemsOk(st')
  {
    NodesOkMonotone(st.nodes, st.counter, st.counter + 1);
    hide NodesOk, NodeIds, InputIds;
    assert st'.constants[..|st.constants|] == st.constants;
    assert ConstantIds(st'.constants) == ConstantIds(st.constants) + multiset{c.id};
    hide ConstantIds;
  }

  lemma AddInputOk(st: State, ref: Ref, pos: nat, spec: Spec)
    requires StateOk(st)
    ensures StateOk(AddInput(st, ref, pos, spec))
  {
    AppendInputOk(st, AddInput(st, ref, pos, spec), GraphInput(st.counter, pos, spec));
    hide ItemsOk;
  }

  lemma AddConstantOk(st: State, ref: Ref, source: Source, spec: Spec, blobs: seq<Bytes>)
    requires StateOk(st)
    ensures StateOk(AddConstant(st, ref, source, spec).(blobs := blobs))
  {
    hide ItemsOk;
    AppendConstantOk(st, AddConstant(st, ref, source, spec).(blobs := blobs), Constant(st.counter, source, spec));
  }

  lemma FinishOk(outputs: seq<Expr>, ids: seq<nat>, st: State)
    requires |ids| == |outputs| && StateOk(st) && AllBelow(ids, st.counter)
    ensures SubOk(Finish(outputs, ids, st)) && AllKinds(Finish(outputs, ids, st).nodes)
  {
    RangeSize(st.counter);
    hide NodesOk, AllIds;
    assert OutIds(Finish(outputs, ids, st).outputs) == ids;
  }

  // -- lowering ---------------------------------------------------------------

  /** A lowering step's result. */
  predicate StepOk(st: State, id: nat, st': State) {
    StateOk(st') && id < st'.counter && st.counter <= st'.counter
  }

  predicate StepsOk(st: State, ids: seq<nat>, st': State) {
    StateOk(st') && AllBelow(ids, st'.counter) && st.counter <= st'.counter
  }

  lemma IsolatedOk(st: State)
    ensures StateOk(Isolated(st))
  {
  }

  lemma RebindOk(st: State, bind: Option<seq<nat>>)
    requires StateOk(st) && (bind.Some? ==> AllBelow(bind.value, st.counter))
    ensures StateOk(st.(bind := bind))
  {
    hide ItemsOk;
    assert ItemsOk(st.(bind := bind)) by { assert ItemsOk(st); ItemsSame(st, st.(bind := bind)); }
  }

  lemma ItemsSame(st: State, st': State)
    requires ItemsOk(st) && st'.inputs == st.inputs && st'.constants == st.constants && st'.nodes == st.nodes
    requires st'.counter == st.counter
    ensures ItemsOk(st')
  {
  }

  lemma {:induction false} LowerForms(e: Expr, st: State)
    requires StateOk(st) && Lower(e, st).Success?
    ensures var (id, st') := Lower(e, st).value; StepOk(st, id, st')
    decreases e, 3
  {
    if !e.Tuple? && e.ref !in st.ids {
      LowerNewForms(e, st);
    } else {
      hide ItemsOk;
    }
  }

  /** Remembered and bound ids exist. */
  lemma KnownBelow(st: State)
    requires StateOk(st)
    ensures forall r :: r in st.ids ==> st.ids[r] < st.counter
    ensures forall r :: r in st.tuples ==> AllBelow(st.tuples[r], st.counter)
    ensures st.bind.Some? ==> AllBelow(st.bind.value, st.counter)
  {
    hide ItemsOk;
  }

  lemma {:induction false} LowerNewForms(e: Expr, st: State)
    requires StateOk(st) && !e.Tuple? && LowerNew(e, st).Success?
    ensures var (id, st') := LowerNew(e, st).value; StepOk(st, id, st')
    decreases e, 2
  {
    hide StateOk, SubOk;
    match e {
      case Param(ref, pos, spec) =>
        KnownBelow(st);
        if st.bind.Some? && pos < |st.bind.value| {
          WithRefOk(st, ref, st.bind.value[pos]);
        } else {
          AddInputOk(st, ref, pos, spec);
        }
      case Const(ref, number, spec) =>
        AddConstantOk(st, ref, Scalar(number), spec, st.blobs);
      case Literal(ref, bytes, _, spec) =>
        AddConstantOk(st, ref, Data(|st.blobs|), spec, st.blobs + [bytes]);
      case Apply(ref, op, args, attrs, spec) =>
        LowerAllForms(args, st);
        var (ids, st1) := LowerAll(args, st).value;
        AddNodeStateOk(st1, ref, Op(op, attrs, None, spec), ids);
      case Fill(ref, op, args, fill, attrs, spec) =>
        LowerAllForms(args, st);
        var (ids, st1) := LowerAll(args, st).value;
        AddNodeStateOk(st1, ref, Op(op, attrs, Some(ScalarConstant(fill).value), spec), ids);
      case WindowAt(ref, wop, base, starts, lengths, attrs, spec) =>
        LowerAllForms(base, st);
        var (ids, st1) := LowerAll(base, st).value;
        LowerStartsForms(wop, starts, st1);
        var (dyn, st2) := LowerStarts(wop, starts, st1).value;
        WindowKernelOk(wop, starts, lengths, attrs, spec, st1, |ids|);
        AddNodeStateOk(st2, ref, Window(wop, attrs, lengths, StartSpecs(wop, starts), spec), ids + dyn);
      case Reduce(ref, op, tensor, acc, fn, count, attrs, spec) =>
        LowerReduceForms(e, st);
      case Metadata(ref, inner, _) =>
        LowerForms(inner, st);
        var (id, st1) := Lower(inner, st).value;
        WithRefOk(st1, ref, id);
      case Cond(ref, clauses, default, spec) =>
        LowerForms(default, st);
        var (otherwise, st1) := Lower(default, st).value;
        LowerClausesForms(clauses, otherwise, spec, st1);
        var (id, st2) := LowerClauses(clauses, otherwise, spec, st1).value;
        WithRefOk(st2, ref, id);
      case Block(ref, inputs, result, _) =>
        LowerAllForms(inputs, st);
        var (bound, st1) := LowerAll(inputs, st).value;
        RebindOk(st1, Some(bound));
        LowerForms(result, st1.(bind := Some(bound)));
        var (id, st2) := Lower(result, st1.(bind := Some(bound))).value;
        KnownBelow(st);
        RebindOk(st2, st.bind);
        WithRefOk(st2.(bind := st.bind), ref, id);
      case Elem(ref, source, index, _) =>
        LowerTupleForms(source, st);
        var (ids, st1) := LowerTuple(source, st).value;
        WithRefOk(st1, ref, ids[index]);
      case TupleBlock(_, _, _) =>
        LowerTupleForms(e, st);
      case _ =>
    }
  }

  lemma {:induction false} LowerStartsShape(wop: WindowOp, starts: seq<StartExpr>, st: State)
    requires LowerStarts(wop, starts, st).Success?
    ensures |LowerStarts(wop, starts, st).value.0| == DynamicCount(wop, starts)
    ensures wop.PutSlice? ==> forall i :: 0 <= i < |starts| ==> starts[i].From?
  {
    if starts != [] {
      LowerStartsShape(wop, starts[..|starts| - 1], st);
    }
  }

  lemma {:induction false} SpecsCounted(wop: WindowOp, starts: seq<StartExpr>)
    ensures var specs := StartSpecs(wop, starts);
            forall i :: 0 <= i < |specs| ==>
                !specs[i].Symbolic? && (specs[i].Input? ==> specs[i].k < DynamicCount(wop, starts))
  {
    if starts != [] {
      var before, specs := starts[..|starts| - 1], StartSpecs(wop, starts);
      SpecsCounted(wop, before);
      forall i | 0 <= i < |specs| ensures !specs[i].Symbolic?
          && (specs[i].Input? ==> specs[i].k < DynamicCount(wop, starts)) {
        if i < |before| {
          assert specs[i] == StartSpecs(wop, before)[i];
        }
      }
    }
  }

  /** The descriptors of dynamic starts name the operands they were lowered to. */
  lemma {:induction false} WindowKernelOk(wop: WindowOp, starts: seq<StartExpr>, lengths: seq<nat>, attrs: Attrs,
      spec: Spec, st: State, operands: nat)
    requires LowerStarts(wop, starts, st).Success? && operands == FirstStart(wop)
    ensures KernelOk(Window(wop, attrs, lengths, StartSpecs(wop, starts), spec),
        operands + |LowerStarts(wop, starts, st).value.0|)
  {
    LowerStartsShape(wop, starts, st);
    SpecsCounted(wop, starts);
  }

  lemma {:induction false} LowerReduceForms(e: Expr, st: State)
    requires StateOk(st) && e.Reduce? && LowerNew(e, st).Success?
    ensures var (id, st') := LowerNew(e, st).value; StepOk(st, id, st')
    decreases e, 0
  {
    hide StateOk, SubOk;
    LowerForms(e.tensor, st);
    var (t, st1) := Lower(e.tensor, st).value;
    LowerForms(e.acc, st1);
    var (a, st2) := Lower(e.acc, st1).value;
    IsolatedOk(st2);
    LowerForms(e.fn, Isolated(st2));
    var (id, sub) := Lower(e.fn, Isolated(st2)).value;
    FinishOk([e.fn], [id], sub);
    WithBlobsOk(st2, sub.blobs);
    AddFoldOk(st2.(blobs := sub.blobs), e.ref, e.op, e.attrs, [t, a], e.count, Finish([e.fn], [id], sub), e.spec);
  }

  lemma WithBlobsOk(st: State, blobs: seq<Bytes>)
    requires StateOk(st)
    ensures StateOk(st.(blobs := blobs))
  {
    ItemsSame(st, st.(blobs := blobs));
    hide ItemsOk;
  }

  lemma {:induction false} LowerAllForms(es: seq<Expr>, st: State)
    requires StateOk(st) && LowerAll(es, st).Success?
    ensures var (ids, st') := LowerAll(es, st).value; StepsOk(st, ids, st')
    decreases es, 0
  {
    hide StateOk;
    if es != [] {
      LowerAllForms(es[..|es| - 1], st);
      LowerForms(es[|es| - 1], LowerAll(es[..|es| - 1], st).value.1);
    }
  }

  lemma {:induction false} LowerStartsForms(wop: WindowOp, starts: seq<StartExpr>, st: State)
    requires StateOk(st) && LowerStarts(wop, starts, st).Success?
    ensures var (ids, st') := LowerStarts(wop, starts, st).value; StepsOk(st, ids, st')
    decreases starts, 0
  {
    hide StateOk;
    if starts != [] {
      var s := starts[|starts| - 1];
      assert (starts decreases to s);
      LowerStartsForms(wop, starts[..|starts| - 1], st);
      if StaticStart(wop, s).None? {
        LowerForms(s.e, LowerStarts(wop, starts[..|starts| - 1], st).value.1);
      }
    }
  }

  lemma {:induction false} LowerClausesForms(clauses: seq<Clause>, otherwise: nat, spec: Spec, st: State)
    requires StateOk(st) && otherwise < st.counter && LowerClauses(clauses, otherwise, spec, st).Success?
    ensures var (id, st') := LowerClauses(clauses, otherwise, spec, st).value; StepOk(st, id, st')
    decreases clauses, 0
  {
    hide StateOk;
    if clauses != [] {
      var first := clauses[0];
      assert (clauses decreases to first);
      LowerClausesForms(clauses[1..], otherwise, spec, st);
      var (rest, st1) := LowerClauses(clauses[1..], otherwise, spec, st).value;
      LowerForms(first.pred, st1);
      var (p, st2) := Lower(first.pred, st1).value;
      LowerForms(first.result, st2);
      var (v, st3) := Lower(first.result, st2).value;
      AddRawOk(st3, SelectKernel(spec), [p, v, rest]);
    }
  }

  lemma {:induction false} LowerTupleForms(e: Expr, st: State)
    requires StateOk(st) && LowerTuple(e, st).Success?
    ensures var (ids, st') := LowerTuple(e, st).value; StepsOk(st, ids, st')
    decreases e, 1
  {
    KnownBelow(st);
    hide StateOk, SubOk;
    match e {
      case TupleBlock(ref, inputs, results) =>
        if ref !in st.tuples {
          LowerAllForms(inputs, st);
          var (bound, st1) := LowerAll(inputs, st).value;
          RebindOk(st1, Some(bound));
          LowerAllForms(results, st1.(bind := Some(bound)));
          var (ids, st2) := LowerAll(results, st1.(bind := Some(bound))).value;
          RebindOk(st2, st.bind);
          RememberOk(st2.(bind := st.bind), ref, ids);
        }
      case Loop(ref, init, test, body) =>
        if ref !in st.tuples {
          LowerLoopForms(e, st);
        }
      case Metadata(_, inner, _) =>
        LowerTupleForms(inner, st);
      case TupleCond(_, choices, defaults) =>
        LowerAllForms(defaults, st);
        var (others, st1) := LowerAll(defaults, st).value;
        LowerChoicesForms(choices, |defaults|, st1);
        var (data, st2) := LowerChoices(choices, |defaults|, st1).value;
        SelectAllForms(data, others, defaults, st2);
      case Tuple(elems) =>
        LowerAllForms(elems, st);
      case _ =>
    }
  }

  lemma {:induction false} LowerLoopForms(e: Expr, st: State)
    requires StateOk(st) && e.Loop? && e.ref !in st.tuples && LowerTuple(e, st).Success?
    ensures var (ids, st') := LowerTuple(e, st).value; StepsOk(st, ids, st')
    decreases e, 0
  {
    hide StateOk, SubOk;
    LowerAllForms(e.init, st);
    var (ids, st1) := LowerAll(e.init, st).value;
    IsolatedOk(st1);
    LowerForms(e.test, Isolated(st1));
    var (t, st2) := Lower(e.test, Isolated(st1)).value;
    FinishOk([e.test], [t], st2);
    IsolatedOk(st2);
    LowerAllForms(e.body, Isolated(st2));
    var (outs, st3) := LowerAll(e.body, Isolated(st2)).value;
    FinishOk(e.body, outs, st3);
    WithBlobsOk(st1, st3.blobs);
    AddLoopOk(st1.(blobs := st3.blobs), e.ref, ids, Finish([e.test], [t], st2), Finish(e.body, outs, st3), e.body);
  }

  lemma RememberOk(st: State, ref: Ref, ids: seq<nat>)
    requires StateOk(st) && AllBelow(ids, st.counter)
    ensures StateOk(st.(tuples := st.tuples[ref := ids]))
  {
    ItemsSame(st, st.(tuples := st.tuples[ref := ids]));
    hide ItemsOk;
  }

  predicate ChoicesBelow(data: seq<Choice>, bound: nat) {
    forall k :: 0 <= k < |data| ==> data[k].pred < bound && AllBelow(data[k].results, bound)
  }

  lemma {:induction false} LowerChoicesForms(choices: seq<TupleClause>, width: nat, st: State)
    requires StateOk(st) && LowerChoices(choices, width, st).Success?
    ensures var (data, st') := LowerChoices(choices, width, st).value;
            StateOk(st') && ChoicesBelow(data, st'.counter) && st.counter <= st'.counter
    decreases choices, 0
  {
    hide StateOk;
    if choices != [] {
      var last := choices[|choices| - 1];
      assert (choices decreases to last);
      LowerChoicesForms(choices[..|choices| - 1], width, st);
      var (data, st1) := LowerChoices(choices[..|choices| - 1], width, st).value;
      LowerForms(last.pred, st1);
      var (p, st2) := Lower(last.pred, st1).value;
      LowerAllForms(last.results, st2);
    }
  }

  lemma {:induction false} SelectOneForms(data: seq<Choice>, i: nat, otherwise: nat, spec: Spec, st: State)
    requires StateOk(st) && otherwise < st.counter && ChoicesBelow(data, st.counter)
    requires forall k :: 0 <= k < |data| ==> i < |data[k].results|
    ensures var (id, st') := SelectOne(data, i, otherwise, spec, st); StepOk(st, id, st')
    decreases |data|
  {
    hide StateOk;
    if data != [] {
      SelectOneForms(data[1..], i, otherwise, spec, st);
      var (rest, st1) := SelectOne(data[1..], i, otherwise, spec, st);
      AddRawOk(st1, SelectKernel(spec), [data[0].pred, data[0].results[i], rest]);
    }
  }

  lemma {:induction false} SelectAllForms(data: seq<Choice>, others: seq<nat>, defaults: seq<Expr>, st: State)
    requires StateOk(st) && AllBelow(others, st.counter) && ChoicesBelow(data, st.counter)
    requires |others| <= |defaults| && forall k :: 0 <= k < |data| ==> |data[k].results| == |defaults|
    ensures var (ids, st') := SelectAll(data, others, defaults, st); StepsOk(st, ids, st')
    decreases |others|
  {
    hide StateOk;
    if others != [] {
      var i := |others| - 1;
      SelectAllForms(data, others[..i], defaults, st);
      var (ids, st1) := SelectAll(data, others[..i], defaults, st);
      SelectOneForms(data, i, others[i], SpecOf(defaults[i]), st1);
    }
  }

  /** Every lowered graph is well formed, and has only kernels that the worker knows how to run. */
  lemma LoweredGraphOk(outputs: seq<Expr>)
    requires ToGraph(outputs).Success?
    ensures SubOk(ToGraph(outputs).value.main) && AllKinds(ToGraph(outputs).value.main.nodes)
  {
    hide StateOk;
    assert StateOk(EMPTY) by { IsolatedOk(EMPTY); }
    LowerAllForms(outputs, EMPTY);
    var (ids, st) := LowerAll(outputs, EMPTY).value;
    FinishOk(outputs, ids, st);
  }
}
