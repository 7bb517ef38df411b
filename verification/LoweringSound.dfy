/** The lowering theorem, case by case. */
module LoweringSound {
  import opened Values
  import opened GraphIR
  import opened GraphForm
  import opened Lowering
  import opened LoweringForm
  import opened ExprMeaning
  import opened LoweringMeaning
  import opened SubGraphRuns
  import opened LoweringExact

  // -- composing agreements ---------------------------------------------------

  lemma ExtendsTrans(a: Model, b: Model, c: Model)
    requires Extends(a, b) && Extends(b, c)
    ensures Extends(a, c)
    ensures Broken(b) ==> Broken(c)
    ensures Broken(a) ==> Broken(b)
  {
    if Broken(b) { BrokenExtends(b, c); }
    if Broken(a) { BrokenExtends(a, b); }
  }

  /** Agreements chain: an id found after two steps stands for v if each step's own failure is v's. */
  lemma AgreeAfter(a: Model, b: Model, c: Model, id: nat, first: bool, v: Option<Value>)
    requires Extends(a, b) && (Broken(b) ==> Broken(a) || !first)
    requires Agrees(b, c, id, v) && (!first ==> v.None?)
    ensures Agrees(a, c, id, v)
  {
    ExtendsTrans(a, b, c);
  }

  // -- windows ----------------------------------------------------------------

  /** The values of the start operands. */
  function EvalDyn(sem: Sem, wop: WindowOp, starts: seq<StartExpr>, fr: Frame, fuel: nat): (r: Option<seq<Value>>)
    ensures r.Some? ==> |r.value| == DynamicCount(wop, starts)
  {
    if starts == [] then Some([])
    else
      var s := starts[|starts| - 1];
      var vs :- EvalDyn(sem, wop, starts[..|starts| - 1], fr, fuel);
      if StaticStart(wop, s).Some? then Some(vs)
      else
        var v :- Eval(sem, s.e, fr, fuel);
        Some(vs + [v])
  }

  /** The starts, from the static ones and the start operands' values. */
  function RawsOf(sem: Sem, wop: WindowOp, starts: seq<StartExpr>, dyn: seq<Value>): (raws: seq<int>)
    requires |dyn| == DynamicCount(wop, starts)
    ensures |raws| == |starts|
  {
    if starts == [] then []
    else
      var before := starts[..|starts| - 1];
      var s := StaticStart(wop, starts[|starts| - 1]);
      if s.Some? then RawsOf(sem, wop, before, dyn) + [s.value]
      else RawsOf(sem, wop, before, dyn[..|dyn| - 1]) + [IntOf(sem.toNumber(dyn[|dyn| - 1]))]
  }

  lemma {:induction false} ScalarValue(sem: Sem, e: Expr, fr: Frame, fuel: nat)
    requires ScalarHonest(sem, e) && ScalarConstant(e).Success?
    ensures var v := Eval(sem, e, fr, fuel);
            v.Some? && sem.toNumber(v.value) == ScalarConstant(e).value
  {
    if e.Metadata? {
      ScalarValue(sem, e.inner, fr, fuel);
    }
  }

  lemma {:induction false} StartsSplit(sem: Sem, wop: WindowOp, starts: seq<StartExpr>, fr: Frame, fuel: nat, s: Scope,
      t: Table)
    requires StartsScoped(sem, wop, starts, s, t)
    ensures var raws := EvalStarts(sem, starts, fr, fuel);
            var dyn := EvalDyn(sem, wop, starts, fr, fuel);
            (raws.Some? <==> dyn.Some?) && (raws.Some? ==> raws.value == RawsOf(sem, wop, starts, dyn.value))
  {
    if starts != [] {
      var last := starts[|starts| - 1];
      StartsSplit(sem, wop, starts[..|starts| - 1], fr, fuel, s, t);
      if last.From? && StaticStart(wop, last).Some? {
        ScalarValue(sem, last.e, fr, fuel);
      }
    }
  }

  lemma {:induction false} SpecsPrefix(wop: WindowOp, starts: seq<StartExpr>, n: nat)
    requires n < |starts|
    ensures StartSpecs(wop, starts)[n] ==
            var s := StaticStart(wop, starts[n]);
            if s.Some? then Static(s.value) else Input(DynamicCount(wop, starts[..n]))
    ensures DynamicCount(wop, starts[..n]) + (if StaticStart(wop, starts[n]).Some? then 0
        else 1) <= DynamicCount(wop, starts)
    decreases |starts|
  {
    if n == |starts| - 1 {
    } else {
      assert starts[..|starts| - 1][..n] == starts[..n];
      SpecsPrefix(wop, starts[..|starts| - 1], n);
    }
  }

  lemma RoomSame(sem: Sem, k: Kernel, k0: Kernel, base: seq<Value>, dyn: seq<Value>, axis: nat)
    requires k.Window? && k0 == k.(starts := []) && |base| == FirstStart(k.wop)
    ensures Room(sem, k, base + dyn, axis) == Room(sem, k0, base, axis)
    ensures !Room(sem, k, base + dyn, axis).Stuck?
  {
  }

  /** The start operands before axis n. */
  function DynBefore(wop: WindowOp, starts: seq<StartExpr>, dyn: seq<Value>, n: nat): (vs: seq<Value>)
    requires n <= |starts| && |dyn| == DynamicCount(wop, starts)
    ensures |vs| == DynamicCount(wop, starts[..n])
  {
    if n == |starts| then assert starts[..n] == starts; dyn
    else SpecsPrefix(wop, starts, n); dyn[..DynamicCount(wop, starts[..n])]
  }

  /** One axis: the raw start, and how the node finds it among its operands. */
  lemma StartSame(sem: Sem, k: Kernel, k0: Kernel, base: seq<Value>, starts: seq<StartExpr>, dyn: seq<Value>, i: nat)
    requires k.Window? && k0 == k.(starts := []) && k.starts == StartSpecs(k.wop, starts)
    requires |base| == FirstStart(k.wop) && |dyn| == DynamicCount(k.wop, starts) && i < |starts|
    requires k.wop.PutSlice? ==> starts[i].From?
    ensures var raw := RawsOf(sem, k.wop, starts[..i + 1], DynBefore(k.wop, starts, dyn, i + 1))[i];
            var r := ResolveStart(sem, k, base + dyn, [], i);
            var w := WindowStart(sem, k0, base, starts[i], raw, i);
            !r.Stuck? && (r.Ok? <==> w.Some?) && (r.Ok? ==> r.value == w.value)
  {
    RoomSame(sem, k, k0, base, dyn, i);
    SpecsPrefix(k.wop, starts, i);
    var c := DynamicCount(k.wop, starts[..i]);
    assert starts[..i + 1][..i] == starts[..i];
    var s := StaticStart(k.wop, starts[i]);
    if s.None? {
      assert (base + dyn)[FirstStart(k.wop) + c] == dyn[c];
      assert DynBefore(k.wop, starts, dyn, i + 1)[c] == dyn[c];
    }
  }

  lemma RawsPrefix(sem: Sem, wop: WindowOp, starts: seq<StartExpr>, dyn: seq<Value>, i: nat)
    requires i < |starts| && |dyn| == DynamicCount(wop, starts)
    ensures RawsOf(sem, wop, starts[..i + 1], DynBefore(wop, starts, dyn, i + 1))[..i]
         == RawsOf(sem, wop, starts[..i], DynBefore(wop, starts, dyn, i))
  {
    SpecsPrefix(wop, starts, i);
    var upTo := starts[..i + 1];
    assert upTo[..|upTo| - 1] == starts[..i] && upTo[|upTo| - 1] == starts[i];
    var d1, d0 := DynBefore(wop, starts, dyn, i + 1), DynBefore(wop, starts, dyn, i);
    if StaticStart(wop, starts[i]).Some? {
      assert d1 == d0;
    } else {
      assert d1[..|d1| - 1] == d0;
    }
  }

  /** In-op resolution over the node's operands finds the starts Nx means. */
  lemma {:induction false} WindowSame(sem: Sem, k: Kernel, k0: Kernel, base: seq<Value>, starts: seq<StartExpr>,
      dyn: seq<Value>, n: nat)
    requires k.Window? && k0 == k.(starts := []) && k.starts == StartSpecs(k.wop, starts)
    requires |base| == FirstStart(k.wop) && |dyn| == DynamicCount(k.wop, starts) && n <= |starts|
    requires k.wop.PutSlice? ==> forall i :: 0 <= i < n ==> starts[i].From?
    ensures var r := ResolveStarts(sem, k, base + dyn, [], n);
            var w := WindowStarts(sem, k0, base, starts[..n],
                RawsOf(sem, k.wop, starts[..n], DynBefore(k.wop, starts, dyn, n)));
            !r.Stuck? && (r.Ok? <==> w.Some?) && (r.Ok? ==> r.value == w.value)
    decreases n
  {
    if n > 0 {
      var i := n - 1;
      assert starts[..n][..i] == starts[..i];
      WindowSame(sem, k, k0, base, starts, dyn, i);
      StartSame(sem, k, k0, base, starts, dyn, i);
      RawsPrefix(sem, k.wop, starts, dyn, i);
      hide ResolveStart, WindowStart, RawsOf, DynBefore, StartSpecs;
    }
  }

  // -- the mutual induction ---------------------------------------------------

  /** What one lowering step must show. */
  ghost predicate Good(x: Run, t: Table, s: Scope, st: State, m: Model, id: nat, st': State, m': Model,
      v: Option<Value>)
  {
    Holds(x, t, st', m') && Agrees(m, m', id, v) && Bound(x, st'.bind, s, m')
  }

  ghost predicate GoodAll(x: Run, t: Table, s: Scope, st: State, m: Model, ids: seq<nat>, st': State, m': Model,
      vs: Option<seq<Value>>)
  {
    Holds(x, t, st', m') && AllAgree(m, m', ids, vs) && Bound(x, st'.bind, s, m')
  }

  /** A state some lowering starts from. */
  ghost predicate Ready(x: Run, t: Table, s: Scope, st: State, m: Model) {
    Lawful(x.sem) && Holds(x, t, st, m) && Bound(x, st.bind, s, m) && StateOk(st)
  }

  lemma {:induction false} LowerSteps(x: Run, t: Table, e: Expr, s: Scope, st: State, m: Model) returns (m': Model)
    requires Ready(x, t, s, st, m) && WellScoped(x.sem, e, s, t)
    requires Lower(e, st).Success? && Lower(e, st).value.1.blobs <= x.blobs
    ensures var (id, st') := Lower(e, st).value; Good(x, t, s, st, m, id, st', m', EvalIn(x, e, s))
    decreases e, 4
  {
    if e.ref in st.ids {
      m' := m;
      FoundMeans(x, t, e, s, st, m);
    } else {
      m' := LowerNewMeans(x, t, e, s, st, m);
    }
  }

  /** A remembered id stands for the expression wherever it is found again. */
  lemma FoundMeans(x: Run, t: Table, e: Expr, s: Scope, st: State, m: Model)
    requires Ready(x, t, s, st, m) && !e.Tuple? && e.ref in st.ids
    requires e.ref in t.entries && t.entries[e.ref] == (e, Home(e, s))
    ensures Good(x, t, s, st, m, st.ids[e.ref], st, m, EvalIn(x, e, s))
  {
    hide Lawful, StateOk;
    ReadyFrame(x, t, s, st, m);
    if !Broken(m) {
      HomeSame(x, e, s);
    }
    hide Home, Eval, EvalIn, FrameOf;
  }

  lemma {:induction false} LowerAllMeans(x: Run, t: Table, es: seq<Expr>, s: Scope, st: State, m: Model)
      returns (m': Model)
    requires Ready(x, t, s, st, m) && AllScoped(x.sem, es, s, t)
    requires LowerAll(es, st).Success? && LowerAll(es, st).value.1.blobs <= x.blobs
    ensures var (ids, st') := LowerAll(es, st).value; GoodAll(x, t, s, st, m, ids, st', m', EvalAllIn(x, es, s))
    decreases es, 0
  {
    ReadyFrame(x, t, s, st, m);
    AgreeNothing(m);
    hide Holds, Agrees, AllAgree, Bound, MemoHolds, Extends, StateOk, Lawful, FrameOf, Lower, EvalIn, Eval;
    if es == [] {
      m' := m;
    } else {
      var before, last := es[..|es| - 1], es[|es| - 1];
      EvalAllStep(x, es, s);
      var (ids, st1) := LowerAll(before, st).value;
      var (id, st2) := Lower(last, st1).value;
      var m1 := LowerAllMeans(x, t, before, s, st, m);
      LowerAllForms(before, st);
      m' := LowerSteps(x, t, last, s, st1, m1);
      AgreeOneMore(m, m1, m', ids, EvalAllIn(x, before, s), id, EvalIn(x, last, s), EvalAllIn(x, es, s));
    }
  }

  lemma EvalAllStep(x: Run, es: seq<Expr>, s: Scope)
    requires es != []
    ensures var vs, v := EvalAllIn(x, es[..|es| - 1], s), EvalIn(x, es[|es| - 1], s);
            EvalAllIn(x, es, s) == if vs.Some? && v.Some? then Some(vs.value + [v.value]) else None
  {
  }

  lemma AgreeOneMore(a: Model, b: Model, c: Model, ids: seq<nat>, vs: Option<seq<Value>>, id: nat, v: Option<Value>,
      all: Option<seq<Value>>)
    requires AllAgree(a, b, ids, vs) && Agrees(b, c, id, v)
    requires all == if vs.Some? && v.Some? then Some(vs.value + [v.value]) else None
    ensures AllAgree(a, c, ids + [id], all)
  {
    ExtendsTrans(a, b, c);
    if !Broken(c) {
      MatchesExtends(b, c, ids, vs);
      assert Vals(c, ids + [id]) == Vals(c, ids) + [c[id].value];
    }
  }

  ghost predicate NeverStuck(sem: Sem, kernel: Kernel, n: nat) {
    forall vs: seq<Value> :: |vs| == n ==> !ApplyKernel(sem, kernel, vs, []).Stuck?
  }

  /** A node runs on any operands, and gives one value. */
  ghost predicate NodeFine(x: Run, node: Node) {
    forall args: seq<Value> :: |args| == |node.inputs| ==>
      var r := NodeResults(x.sem, x.blobs, node, args, [], x.fuel);
      !r.Stuck? && (r.Ok? ==> |r.value| == 1)
  }

  /** A node over lowered operands, when it computes the expression from their values. */
  lemma FinishWith(x: Run, t: Table, e: Expr, s: Scope, st: State, m: Model, st1: State, m1: Model,
      vs: Option<seq<Value>>, node: Node, st': State) returns (m': Model)
    requires GoodAll(x, t, s, st, m, node.inputs, st1, m1, vs) && !e.Tuple?
    requires e.ref in t.entries && t.entries[e.ref] == (e, Home(e, s))
    requires !node.While? && node.id == st1.counter && NodeFine(x, node)
    requires vs.None? ==> EvalIn(x, e, s).None?
    requires vs.Some? && |vs.value| == |node.inputs| ==>
      var r := NodeResults(x.sem, x.blobs, node, vs.value, [], x.fuel);
      EvalIn(x, e, s) == if r.Ok? then Some(r.value[0]) else None
    requires st' == WithRef(st1.(counter := st1.counter + 1, nodes := st1.nodes + [node]), e.ref, st1.counter)
    ensures Good(x, t, s, st, m, st1.counter, st', m', EvalIn(x, e, s))
  {
    hide Holds, FrameOf;
    m' := AddNodeHolds(x, t, st1, m1, e, s, node, st');
    AgreeAfter(m, m1, m', st1.counter, vs.Some?, EvalIn(x, e, s));
    BoundExtends(x, st1.bind, s, m1, m');
  }

  lemma FinishNode(x: Run, t: Table, e: Expr, s: Scope, st: State, m: Model, ids: seq<nat>, st1: State, m1: Model,
      vs: Option<seq<Value>>, kernel: Kernel) returns (m': Model)
    requires GoodAll(x, t, s, st, m, ids, st1, m1, vs) && !e.Tuple?
    requires e.ref in t.entries && t.entries[e.ref] == (e, Home(e, s))
    requires NeverStuck(x.sem, kernel, |ids|)
    requires vs.None? ==> EvalIn(x, e, s).None?
    requires vs.Some? ==>
      var r := ApplyKernel(x.sem, kernel, vs.value, []);
      EvalIn(x, e, s) == if r.Ok? then Some(r.value) else None
    ensures var (id, st') := AddNode(st1, e.ref, kernel, ids); Good(x, t, s, st, m, id, st', m', EvalIn(x, e, s))
  {
    var node := Compute(st1.counter, kernel, ids);
    assert NodeFine(x, node) by {
      forall args: seq<Value> | |args| == |ids|
        ensures var r := NodeResults(x.sem, x.blobs, node, args, [], x.fuel); !r.Stuck? && (r.Ok? ==> |r.value| == 1)
      {
        assert !ApplyKernel(x.sem, kernel, args, []).Stuck?;
      }
    }
    hide GoodAll, Good, FrameOf, NeverStuck;
    m' := FinishWith(x, t, e, s, st, m, st1, m1, vs, node, AddNode(st1, e.ref, kernel, ids).1);
  }

  lemma {:induction false} ApplySteps(x: Run, t: Table, e: Expr, s: Scope, st: State, m: Model) returns (m': Model)
    requires Ready(x, t, s, st, m) && WellScoped(x.sem, e, s, t) && e.Apply? && e.ref !in st.ids
    requires LowerNew(e, st).Success? && LowerNew(e, st).value.1.blobs <= x.blobs
    ensures var (id, st') := LowerNew(e, st).value; Good(x, t, s, st, m, id, st', m', EvalIn(x, e, s))
    decreases e, 1
  {
    hide Good, GoodAll, Ready, Lower, LowerAll, Demand, DemandAll, Home, Grew;
    var m1 := LowerAllMeans(x, t, e.args, s, st, m);
    var (ids, st1) := LowerAll(e.args, st).value;
    m' := FinishNode(x, t, e, s, st, m, ids, st1, m1, EvalAllIn(x, e.args, s), Op(e.op, e.attrs, None, e.spec));
  }

  lemma {:induction false} FillMeans(x: Run, t: Table, e: Expr, s: Scope, st: State, m: Model) returns (m': Model)
    requires Ready(x, t, s, st, m) && WellScoped(x.sem, e, s, t) && e.Fill? && e.ref !in st.ids
    requires LowerNew(e, st).Success? && LowerNew(e, st).value.1.blobs <= x.blobs
    ensures var (id, st') := LowerNew(e, st).value; Good(x, t, s, st, m, id, st', m', EvalIn(x, e, s))
    decreases e, 1
  {
    assert AllScoped(x.sem, e.args, s, t) && ScalarHonest(x.sem, e.fill);
    hide Good, GoodAll, Ready, Lower, LowerAll, Demand, DemandAll, Home, Grew, AddNode, AddRaw, WithRef;
    var m1 := LowerAllMeans(x, t, e.args, s, st, m);
    var (ids, st1) := LowerAll(e.args, st).value;
    if FrameOf(x, s).Some? {
      ScalarValue(x.sem, e.fill, FrameOf(x, s).value, x.fuel);
    }
    m' := FinishNode(x, t, e, s, st, m, ids, st1, m1, EvalAllIn(x, e.args, s),
        Op(e.op, e.attrs, Some(ScalarConstant(e.fill).value), e.spec));
  }

  lemma {:induction false} LowerStartsMeans(x: Run, t: Table, wop: WindowOp, starts: seq<StartExpr>, s: Scope,
      st: State, m: Model) returns (m': Model)
    requires Ready(x, t, s, st, m) && StartsScoped(x.sem, wop, starts, s, t)
    requires LowerStarts(wop, starts, st).Success? && LowerStarts(wop, starts, st).value.1.blobs <= x.blobs
    ensures var (ids, st') := LowerStarts(wop, starts, st).value;
            GoodAll(x, t, s, st, m, ids, st', m', EvalDynIn(x, wop, starts, s))
    decreases starts, 0
  {
    AgreeNothing(m);
    ReadyFrame(x, t, s, st, m);
    LowerStartsStep(wop, starts, st);
    hide LowerStarts, Demand, StaticStart, ScalarHonest, DynamicCount, StartSpecs, Holds, Agrees, AllAgree, Bound,
        MemoHolds, Extends, StateOk, Lawful, FrameOf, Lower, EvalIn, EvalDynIn, Eval, WellScoped, Broken;
    StartsStep(x, wop, starts, s);
    if starts == [] {
      m' := m;
    } else {
      var before, last := starts[..|starts| - 1], starts[|starts| - 1];
      assert (starts decreases to last);
      var m1 := LowerStartsMeans(x, t, wop, before, s, st, m);
      if StaticStart(wop, last).Some? {
        m' := m1;
      } else {
        var (ids, st1) := LowerStarts(wop, before, st).value;
        var (id, st2) := Lower(last.e, st1).value;
        LowerStartsForms(wop, before, st);
        m' := LowerSteps(x, t, last.e, s, st1, m1);
        AgreeOneMore(m, m1, m', ids, EvalDynIn(x, wop, before, s), id, EvalIn(x, last.e, s),
            EvalDynIn(x, wop, starts, s));
      }
    }
  }

  lemma LowerStartsStep(wop: WindowOp, starts: seq<StartExpr>, st: State)
    ensures starts == [] ==> LowerStarts(wop, starts, st) == Success(([], st))
    ensures starts != [] && LowerStarts(wop, starts, st).Success? ==>
              var last, before := starts[|starts| - 1], LowerStarts(wop, starts[..|starts| - 1], st);
              && before.Success?
              && if StaticStart(wop, last).Some? then LowerStarts(wop, starts, st) == before
                 else
                   && last.From? && Lower(last.e, before.value.1).Success?
                   && var (id, st') := Lower(last.e, before.value.1).value;
                       LowerStarts(wop, starts, st) == Success((before.value.0 + [id], st'))
  {
  }

  lemma StartsStep(x: Run, wop: WindowOp, starts: seq<StartExpr>, s: Scope)
    ensures starts == [] ==> EvalDynIn(x, wop, starts, s) == if FrameOf(x, s).Some? then Some([]) else None
    ensures starts != [] ==>
              var last, vs := starts[|starts| - 1], EvalDynIn(x, wop, starts[..|starts| - 1], s);
              if StaticStart(wop, last).Some? then EvalDynIn(x, wop, starts, s) == vs
              else last.From? && (var v := EvalIn(x, last.e, s);
                  EvalDynIn(x, wop, starts, s) == if vs.Some? && v.Some? then Some(vs.value + [v.value]) else None)
  {
  }

  lemma ReadyFrame(x: Run, t: Table, s: Scope, st: State, m: Model)
    requires Ready(x, t, s, st, m)
    ensures FrameOf(x, s).None? ==> Broken(m)
  {
  }

  function EvalDynIn(x: Run, wop: WindowOp, starts: seq<StartExpr>, s: Scope): (r: Option<seq<Value>>)
    ensures r.Some? ==> |r.value| == DynamicCount(wop, starts)
  {
    var fr :- FrameOf(x, s);
    EvalDyn(x.sem, wop, starts, fr, x.fuel)
  }

  lemma AgreeNothing(m: Model)
    ensures AllAgree(m, m, [], Some([]))
    ensures Broken(m) ==> AllAgree(m, m, [], None)
  {
    assert Vals(m, []) == [];
  }

  /** Two lists of operands, one after the other. */
  lemma AgreeBoth(a: Model, b: Model, c: Model, ids: seq<nat>, us: Option<seq<Value>>, more: seq<nat>,
      vs: Option<seq<Value>>)
    requires AllAgree(a, b, ids, us) && AllAgree(b, c, more, vs)
    ensures AllAgree(a, c, ids + more, if us.Some? && vs.Some? then Some(us.value + vs.value) else None)
  {
    ExtendsTrans(a, b, c);
    if !Broken(c) {
      MatchesExtends(b, c, ids, us);
      assert Vals(c, ids + more) == Vals(c, ids) + Vals(c, more);
    }
  }

  /** A window's kernel on its operands, for any values of them. */
  lemma WindowKernelSame(x: Run, e: Expr, kernel: Kernel, base: seq<Value>, dyn: seq<Value>)
    requires e.WindowAt? && kernel == Window(e.wop, e.attrs, e.lengths, StartSpecs(e.wop, e.starts), e.spec)
    requires |base| == FirstStart(e.wop) && |dyn| == DynamicCount(e.wop, e.starts)
    requires e.wop.PutSlice? ==> forall i :: 0 <= i < |e.starts| ==> e.starts[i].From?
    ensures var r := ApplyKernel(x.sem, kernel, base + dyn, []);
            var k0 := kernel.(starts := []);
            var at := WindowStarts(x.sem, k0, base, e.starts, RawsOf(x.sem, e.wop, e.starts, dyn));
            && !r.Stuck? && (r.Ok? <==> at.Some?)
            && (r.Ok? ==> r.value == x.sem.window(k0, base, at.value))
  {
    WindowSame(x.sem, kernel, kernel.(starts := []), base, e.starts, dyn, |e.starts|);
    assert e.starts[..|e.starts|] == e.starts;
    assert (base + dyn)[..FirstStart(e.wop)] == base;
  }

  lemma {:induction false} WindowMeans(x: Run, t: Table, e: Expr, s: Scope, st: State, m: Model) returns (m': Model)
    requires Ready(x, t, s, st, m) && WellScoped(x.sem, e, s, t) && e.WindowAt? && e.ref !in st.ids
    requires LowerNew(e, st).Success? && LowerNew(e, st).value.1.blobs <= x.blobs
    ensures var (id, st') := LowerNew(e, st).value; Good(x, t, s, st, m, id, st', m', EvalIn(x, e, s))
    decreases e, 1
  {
    hide Lower, LowerAll, LowerStarts, EvalIn, EvalAllIn, EvalDynIn, ApplyKernel, Holds, Agrees, AllAgree, Bound,
        MemoHolds, Extends, StateOk;
    var kernel := Window(e.wop, e.attrs, e.lengths, StartSpecs(e.wop, e.starts), e.spec);
    var (ids, st1) := LowerAll(e.base, st).value;
    var (dyn, st2) := LowerStarts(e.wop, e.starts, st1).value;
    var m1 := LowerAllMeans(x, t, e.base, s, st, m);
    LowerAllForms(e.base, st);
    LowerStartsShape(e.wop, e.starts, st1);
    var m2 := LowerStartsMeans(x, t, e.wop, e.starts, s, st1, m1);
    var us, vs := EvalAllIn(x, e.base, s), EvalDynIn(x, e.wop, e.starts, s);
    AgreeBoth(m, m1, m2, ids, us, dyn, vs);
    var all := if us.Some? && vs.Some? then Some(us.value + vs.value) else None;
    WindowRuns(x, e, kernel, |ids + dyn|);
    WindowValue(x, t, e, s, kernel, us, vs);
    m' := FinishNode(x, t, e, s, st, m, ids + dyn, st2, m2, all, kernel);
  }

  lemma WindowRuns(x: Run, e: Expr, kernel: Kernel, n: nat)
    requires e.WindowAt? && kernel == Window(e.wop, e.attrs, e.lengths, StartSpecs(e.wop, e.starts), e.spec)
    requires n == FirstStart(e.wop) + DynamicCount(e.wop, e.starts)
    requires e.wop.PutSlice? ==> forall i :: 0 <= i < |e.starts| ==> e.starts[i].From?
    ensures NeverStuck(x.sem, kernel, n)
  {
    forall ws: seq<Value> | |ws| == n ensures !ApplyKernel(x.sem, kernel, ws, []).Stuck? {
      var first := FirstStart(e.wop);
      WindowKernelSame(x, e, kernel, ws[..first], ws[first..]);
      assert ws[..first] + ws[first..] == ws;
    }
  }

  lemma WindowValue(x: Run, t: Table, e: Expr, s: Scope, kernel: Kernel, us: Option<seq<Value>>, vs: Option<seq<Value>>)
    requires WellScoped(x.sem, e, s, t) && e.WindowAt?
    requires kernel == Window(e.wop, e.attrs, e.lengths, StartSpecs(e.wop, e.starts), e.spec)
    requires us == EvalAllIn(x, e.base, s) && vs == EvalDynIn(x, e.wop, e.starts, s)
    requires e.wop.PutSlice? ==> forall i :: 0 <= i < |e.starts| ==> e.starts[i].From?
    ensures !(us.Some? && vs.Some?) ==> EvalIn(x, e, s).None?
    ensures us.Some? && vs.Some? ==>
      var r := ApplyKernel(x.sem, kernel, us.value + vs.value, []);
      EvalIn(x, e, s) == if r.Ok? then Some(r.value) else None
  {
    if FrameOf(x, s).Some? {
      var fr := FrameOf(x, s).value;
      StartsSplit(x.sem, e.wop, e.starts, fr, x.fuel, s, t);
      if us.Some? && vs.Some? {
        WindowKernelSame(x, e, kernel, us.value, vs.value);
      }
    }
  }

  // -- sub-graphs -------------------------------------------------------------

  /** A lowered sub-graph computes its expressions, whatever its parameters. */
  ghost predicate SubMeans(x: Run, sub: Sub, outputs: seq<Expr>, arity: nat) {
    forall ps: seq<Value> :: |ps| == arity ==>
      Same(EvalSub(x.sem, x.blobs, sub, ps, [], x.fuel), EvalAll(x.sem, outputs, Frame(None, ps), x.fuel))
  }

  lemma IsolatedReady(x: Run, t: Table, arity: nat, st: State)
    requires Lawful(x.sem) && arity <= |x.params| && st.blobs <= x.blobs
    ensures Ready(x, t, Top(arity), Isolated(st), map[])
  {
    IsolatedOk(st);
    hide StateOk, Lawful;
  }

  lemma {:induction false} RegionMeans(x: Run, t: Table, es: seq<Expr>, arity: nat, st: State)
    requires Lawful(x.sem) && st.blobs <= x.blobs && AllScoped(x.sem, es, Top(arity), t)
    requires LowerAll(es, Isolated(st)).Success? && LowerAll(es, Isolated(st)).value.1.blobs <= x.blobs
    ensures var (ids, sub) := LowerAll(es, Isolated(st)).value; SubMeans(x, Finish(es, ids, sub), es, arity)
    decreases es, 1
  {
    var (ids, sub) := LowerAll(es, Isolated(st)).value;
    IsolatedOk(st);
    LowerAllForms(es, Isolated(st));
    hide StateOk, Lawful, Holds, AllAgree, Ready, Same;
    forall ps: seq<Value> | |ps| == arity
      ensures Same(EvalSub(x.sem, x.blobs, Finish(es, ids, sub), ps, [], x.fuel),
          EvalAll(x.sem, es, Frame(None, ps), x.fuel))
    {
      var y := x.(params := ps);
      IsolatedReady(y, t, arity, st);
      var m := LowerAllMeans(y, t, es, Top(arity), Isolated(st), map[]);
      assert FrameOf(y, Top(arity)) == Some(Frame(None, ps));
      FinishedRuns(y, t, es, ids, sub, m, EvalAllIn(y, es, Top(arity)));
    }
  }

  lemma {:induction false} SingleMeans(x: Run, t: Table, e: Expr, arity: nat, st: State)
    requires Lawful(x.sem) && st.blobs <= x.blobs && WellScoped(x.sem, e, Top(arity), t)
    requires Lower(e, Isolated(st)).Success? && Lower(e, Isolated(st)).value.1.blobs <= x.blobs
    ensures var (id, sub) := Lower(e, Isolated(st)).value; SubMeans(x, Finish([e], [id], sub), [e], arity)
    decreases e, 5
  {
    hide StateOk, Lawful, Holds, Ready, Same, Lower, EvalSub, Eval;
    var (id, sub) := Lower(e, Isolated(st)).value;
    IsolatedOk(st);
    LowerForms(e, Isolated(st));
    forall ps: seq<Value> | |ps| == arity
      ensures Same(EvalSub(x.sem, x.blobs, Finish([e], [id], sub), ps, [], x.fuel),
          EvalAll(x.sem, [e], Frame(None, ps), x.fuel))
    {
      var y := x.(params := ps);
      IsolatedReady(y, t, arity, st);
      var m := LowerSteps(y, t, e, Top(arity), Isolated(st), map[]);
      assert FrameOf(y, Top(arity)) == Some(Frame(None, ps));
      AgreeNothing(map[]);
      EvalOne(x.sem, e, Frame(None, ps), x.fuel);
      AgreeOneMore(map[], map[], m, [], Some([]), id, EvalIn(y, e, Top(arity)), EvalAllIn(y, [e], Top(arity)));
      FinishedRuns(y, t, [e], [id], sub, m, EvalAllIn(y, [e], Top(arity)));
    }
  }

  lemma EvalOne(sem: Sem, e: Expr, fr: Frame, fuel: nat)
    ensures var v := Eval(sem, e, fr, fuel);
            EvalAll(sem, [e], fr, fuel) == if v.Some? then Some([v.value]) else None
  {
    var es := [e];
    assert es[..|es| - 1] == [] && es[|es| - 1] == e;
    assert EvalAll(sem, es[..|es| - 1], fr, fuel) == Some([]);
    var v := Eval(sem, es[|es| - 1], fr, fuel);
    if v.Some? {
      assert EvalAll(sem, es, fr, fuel) == Some([] + [v.value]);
      assert [] + [v.value] == [v.value];
    }
  }

  lemma {:induction false} FoldSame(x: Run, e: Expr, node: Node, t: Value, init: Value, n: nat)
    requires e.Reduce? && node.Fold? && node.op == e.op && node.attrs == e.attrs && SubMeans(x, node.fn, [e.fn], 2)
    ensures var r := EvalFold(x.sem, x.blobs, node, t, init, n, x.fuel);
            var v := FoldValue(x.sem, e, t, init, n, x.fuel);
            !r.Stuck? && (r.Ok? <==> v.Some?) && (r.Ok? ==> r.value == v.value)
  {
    if n > 0 {
      FoldSame(x, e, node, t, init, n - 1);
      var acc := FoldValue(x.sem, e, t, init, n - 1, x.fuel);
      if acc.Some? {
        var ps := [acc.value, x.sem.apply(Element(e.op, e.attrs, n - 1), [t])];
        EvalOne(x.sem, e.fn, Frame(None, ps), x.fuel);
        assert Same(EvalSub(x.sem, x.blobs, node.fn, ps, [], x.fuel), EvalAll(x.sem, [e.fn], Frame(None, ps), x.fuel));
      }
    }
  }

  lemma {:induction false} LoopSame(x: Run, e: Expr, node: Node, state: seq<Value>, left: nat)
    requires e.Loop? && node.While? && |e.body| == |e.init| == |state|
    requires SubMeans(x, node.cond, [e.test], |state|) && SubMeans(x, node.body, e.body, |state|)
    ensures Same(EvalLoop(x.sem, x.blobs, node, state, left, x.fuel), LoopValue(x.sem, e, state, left, x.fuel))
    decreases left
  {
    var test := EvalSub(x.sem, x.blobs, node.cond, state, [], x.fuel);
    EvalOne(x.sem, e.test, Frame(None, state), x.fuel);
    assert Same(test, EvalAll(x.sem, [e.test], Frame(None, state), x.fuel));
    assert Same(EvalSub(x.sem, x.blobs, node.body, state, [], x.fuel),
        EvalAll(x.sem, e.body, Frame(None, state), x.fuel));
    if test.Ok? && x.sem.truthy(test.value[0]) && left > 0 {
      var next := EvalAll(x.sem, e.body, Frame(None, state), x.fuel);
      if next.Some? {
        LoopSame(x, e, node, next.value, left - 1);
      }
    }
  }

  // -- folds ------------------------------------------------------------------

  lemma FoldNodeSame(x: Run, e: Expr, s: Scope, node: Node, args: seq<Value>)
    requires e.Reduce? && node.Fold? && node.op == e.op && node.attrs == e.attrs && node.count == e.count
    requires node.spec == e.spec
    requires SubMeans(x, node.fn, [e.fn], 2) && |args| == 2
    ensures var r := NodeResults(x.sem, x.blobs, node, args, [], x.fuel);
            && !r.Stuck? && (r.Ok? ==> |r.value| == 1)
            && (EvalAllIn(x, [e.tensor, e.acc], s) == Some(args) ==>
                  EvalIn(x, e, s) == if r.Ok? then Some(r.value[0]) else None)
  {
    FoldSame(x, e, node, args[0], x.sem.apply(FoldInit(e.op, e.attrs), args), e.count);
    if EvalAllIn(x, [e.tensor, e.acc], s) == Some(args) {
      EvalTwo(x.sem, e.tensor, e.acc, FrameOf(x, s).value, x.fuel);
      assert [args[0], args[1]] == args;
    }
  }

  lemma EvalTwo(sem: Sem, a: Expr, b: Expr, fr: Frame, fuel: nat)
    ensures var u, v := Eval(sem, a, fr, fuel), Eval(sem, b, fr, fuel);
            EvalAll(sem, [a, b], fr, fuel) == if u.Some? && v.Some? then Some([u.value, v.value]) else None
  {
    var es := [a, b];
    assert es[..|es| - 1] == [a] && es[|es| - 1] == b;
    EvalOne(sem, a, fr, fuel);
    var u, v := Eval(sem, a, fr, fuel), Eval(sem, es[|es| - 1], fr, fuel);
    if u.Some? && v.Some? {
      assert EvalAll(sem, es, fr, fuel) == Some([u.value] + [v.value]);
      assert [u.value] + [v.value] == [u.value, v.value];
    }
  }

  lemma {:induction false} ReduceMeans(x: Run, t: Table, e: Expr, s: Scope, st: State, m: Model) returns (m': Model)
    requires Ready(x, t, s, st, m) && WellScoped(x.sem, e, s, t) && e.Reduce? && e.ref !in st.ids
    requires LowerNew(e, st).Success? && LowerNew(e, st).value.1.blobs <= x.blobs
    ensures var (id, st') := LowerNew(e, st).value; Good(x, t, s, st, m, id, st', m', EvalIn(x, e, s))
    decreases e, 1
  {
    hide Lower, EvalIn, Lawful, StateOk, SubMeans, Holds, Agrees, Bound;
    var (a, st1) := Lower(e.tensor, st).value;
    var (b, st2) := Lower(e.acc, st1).value;
    var (id, sub) := Lower(e.fn, Isolated(st2)).value;
    var m1 := LowerSteps(x, t, e.tensor, s, st, m);
    LowerForms(e.tensor, st);
    var m2 := LowerSteps(x, t, e.acc, s, st1, m1);
    SingleMeans(x, t.bodies[e.ref], e.fn, 2, st2);
    PairAgrees(x, e.tensor, e.acc, s, m, m1, m2, a, b);
    HoldsBlobs(x, t, st2, m2, sub.blobs);
    var st3 := st2.(blobs := sub.blobs);
    var fn := Finish([e.fn], [id], sub);
    var node := Fold(st3.counter, e.op, e.attrs, [a, b], e.count, fn, e.spec);
    var both := EvalAllIn(x, [e.tensor, e.acc], s);
    FoldFine(x, e, s, node, both);
    m' := FinishWith(x, t, e, s, st, m, st3, m2, both, node,
        AddFold(st3, e.ref, e.op, e.attrs, [a, b], e.count, fn, e.spec).1);
  }

  lemma PairAgrees(x: Run, a: Expr, b: Expr, s: Scope, m: Model, m1: Model, m2: Model, i: nat, j: nat)
    requires Agrees(m, m1, i, EvalIn(x, a, s)) && Agrees(m1, m2, j, EvalIn(x, b, s))
    ensures AllAgree(m, m2, [i, j], EvalAllIn(x, [a, b], s))
  {
    var u, v := EvalIn(x, a, s), EvalIn(x, b, s);
    if FrameOf(x, s).Some? {
      EvalTwo(x.sem, a, b, FrameOf(x, s).value, x.fuel);
    }
    hide FrameOf;
    AgreeNothing(m);
    AgreeOneMore(m, m, m1, [], Some([]), i, u, if u.Some? then Some([] + [u.value]) else None);
    AgreeOneMore(m, m1, m2, [] + [i], if u.Some? then Some([] + [u.value]) else None, j, v,
                 if u.Some? && v.Some? then Some([] + [u.value] + [v.value]) else None);
    assert [] + [i] + [j] == [i, j];
    if u.Some? && v.Some? {
      assert [] + [u.value] + [v.value] == [u.value, v.value];
    }
  }

  lemma FoldFine(x: Run, e: Expr, s: Scope, node: Node, both: Option<seq<Value>>)
    requires e.Reduce? && node.Fold? && node.op == e.op && node.attrs == e.attrs && node.count == e.count
    requires node.spec == e.spec
    requires SubMeans(x, node.fn, [e.fn], 2) && |node.inputs| == 2 && both == EvalAllIn(x, [e.tensor, e.acc], s)
    ensures NodeFine(x, node)
    ensures both.None? ==> EvalIn(x, e, s).None?
    ensures both.Some? ==>
      var r := NodeResults(x.sem, x.blobs, node, both.value, [], x.fuel);
      EvalIn(x, e, s) == if r.Ok? then Some(r.value[0]) else None
  {
    forall args: seq<Value> | |args| == 2
      ensures var r := NodeResults(x.sem, x.blobs, node, args, [], x.fuel); !r.Stuck? && (r.Ok? ==> |r.value| == 1)
    {
      FoldNodeSame(x, e, s, node, args);
    }
    if both.Some? {
      FoldNodeSame(x, e, s, node, both.value);
    } else if FrameOf(x, s).Some? {
      EvalTwo(x.sem, e.tensor, e.acc, FrameOf(x, s).value, x.fuel);
    }
  }

  lemma HoldsBlobs(x: Run, t: Table, st: State, m: Model, blobs: seq<Bytes>)
    requires Holds(x, t, st, m) && blobs <= x.blobs
    ensures Holds(x, t, st.(blobs := blobs), m)
  {
  }

  // -- cond -------------------------------------------------------------------

  function EvalClausesIn(x: Run, clauses: seq<Clause>, s: Scope): (r: Option<(seq<Value>, seq<Value>)>)
    ensures r.Some? ==> |r.value.0| == |r.value.1| == |clauses|
  {
    var fr :- FrameOf(x, s);
    EvalClauses(x.sem, clauses, fr, x.fuel)
  }

  /** The select chain over these clauses. */
  function ChainIn(x: Run, clauses: seq<Clause>, d: Option<Value>, spec: Spec, s: Scope): Option<Value> {
    var d :- d;
    var (ps, vs) :- EvalClausesIn(x, clauses, s);
    Some(ChainValue(x.sem, spec, ps, vs, d))
  }

  /** A synthetic select over three lowered operands. */
  lemma SelectMeans(x: Run, t: Table, s: Scope, st: State, m: Model, ids: seq<nat>, st1: State, m1: Model,
      vs: Option<seq<Value>>, spec: Spec, v: Option<Value>) returns (m': Model)
    requires GoodAll(x, t, s, st, m, ids, st1, m1, vs) && |ids| == 3
    requires v == if vs.Some? then Some(x.sem.apply(SelectKernel(spec), vs.value)) else None
    ensures var (id, st') := AddRaw(st1, SelectKernel(spec), ids); Good(x, t, s, st, m, id, st', m', v)
  {
    hide Holds;
    var node := Compute(st1.counter, SelectKernel(spec), ids);
    m' := AppendHolds(x, t, st1, m1, node, AddRaw(st1, SelectKernel(spec), ids).1);
    if !Broken(m') && Broken(m1) {
      BrokenExtends(m1, m');
    }
    AgreeAfter(m, m1, m', st1.counter, vs.Some?, v);
    BoundExtends(x, st1.bind, s, m1, m');
  }

  /** Three lowered operands, the first found before the other two. */
  lemma TripleAgrees(m: Model, m1: Model, m2: Model, m3: Model, i: nat, u: Option<Value>, j: nat, v: Option<Value>,
      k: nat, w: Option<Value>)
    requires Agrees(m, m1, i, u) && Agrees(m1, m2, j, v) && Agrees(m2, m3, k, w)
    ensures AllAgree(m, m3, [j, k, i], if u.Some? && v.Some?
        && w.Some? then Some([v.value, w.value, u.value]) else None)
  {
    ExtendsTrans(m, m1, m2);
    ExtendsTrans(m, m2, m3);
    ExtendsTrans(m1, m2, m3);
    if !Broken(m3) {
      assert Vals(m3, [j, k, i]) == [v.value, w.value, u.value];
    }
  }

  lemma {:induction false} LowerClausesMeans(x: Run, t: Table, clauses: seq<Clause>, otherwise: nat, d: Option<Value>,
      spec: Spec, s: Scope, st: State, m: Model) returns (m': Model)
    requires Ready(x, t, s, st, m) && ClausesScoped(x.sem, clauses, s, t) && Agrees(m, m, otherwise, d)
    requires LowerClauses(clauses, otherwise, spec, st).Success?
    requires LowerClauses(clauses, otherwise, spec, st).value.1.blobs <= x.blobs
    ensures var (id, st') := LowerClauses(clauses, otherwise, spec, st).value;
            Good(x, t, s, st, m, id, st', m', ChainIn(x, clauses, d, spec, s))
    decreases clauses, 1
  {
    KnownIn(x, t, s, st, m, otherwise);
    if clauses == [] {
      NoClauses(x, d, spec, s, m, otherwise);
      m' := m;
    } else {
      hide Ready, Good, StateOk, ChainIn, FrameOf, Agrees;
      m' := ClauseMeans(x, t, clauses, otherwise, d, spec, s, st, m);
    }
  }

  lemma {:induction false} ClauseMeans(x: Run, t: Table, clauses: seq<Clause>, otherwise: nat, d: Option<Value>,
      spec: Spec, s: Scope, st: State, m: Model) returns (m': Model)
    requires Ready(x, t, s, st, m) && ClausesScoped(x.sem, clauses, s, t) && Agrees(m, m, otherwise, d) && clauses != []
    requires LowerClauses(clauses, otherwise, spec, st).Success?
    requires LowerClauses(clauses, otherwise, spec, st).value.1.blobs <= x.blobs
    requires otherwise < st.counter
    ensures var (id, st') := LowerClauses(clauses, otherwise, spec, st).value;
            Good(x, t, s, st, m, id, st', m', ChainIn(x, clauses, d, spec, s))
    decreases clauses, 0
  {
    hide Holds, Agrees, Bound, Lawful, AllAgree, ChainIn, FrameOf, Extends, Lower, EvalIn;
    var first := clauses[0];
    assert (clauses decreases to first);
    var (rest, st1) := LowerClauses(clauses[1..], otherwise, spec, st).value;
    var (p, st2) := Lower(first.pred, st1).value;
    var (v, st3) := Lower(first.result, st2).value;
    assert st2.blobs <= x.blobs && st1.blobs <= x.blobs;
    LowerClausesForms(clauses[1..], otherwise, spec, st);
    LowerForms(first.pred, st1);
    hide Holds, Agrees, Bound, StateOk, Lawful, AllAgree, ChainIn, FrameOf, Extends, Grew, Lower;
    var m1 := LowerClausesMeans(x, t, clauses[1..], otherwise, d, spec, s, st, m);
    var m2 := LowerSteps(x, t, first.pred, s, st1, m1);
    var m3 := LowerSteps(x, t, first.result, s, st2, m2);
    var c, pv, rv := ChainIn(x, clauses[1..], d, spec, s), EvalIn(x, first.pred, s), EvalIn(x, first.result, s);
    TripleAgrees(m, m1, m2, m3, rest, c, p, pv, v, rv);
    var all := if c.Some? && pv.Some? && rv.Some? then Some([pv.value, rv.value, c.value]) else None;
    ChainStep(x, clauses, d, spec, s);
    m' := SelectMeans(x, t, s, st, m, [p, v, rest], st3, m3, all, spec, ChainIn(x, clauses, d, spec, s));
  }

  lemma KnownIn(x: Run, t: Table, s: Scope, st: State, m: Model, id: nat)
    requires Ready(x, t, s, st, m) && id in m
    ensures id < st.counter
    ensures FrameOf(x, s).None? ==> Broken(m)
  {
  }

  lemma NoClauses(x: Run, d: Option<Value>, spec: Spec, s: Scope, m: Model, id: nat)
    requires Agrees(m, m, id, d) && (FrameOf(x, s).None? ==> Broken(m))
    ensures Agrees(m, m, id, ChainIn(x, [], d, spec, s))
  {
  }

  lemma ChainStep(x: Run, clauses: seq<Clause>, d: Option<Value>, spec: Spec, s: Scope)
    requires clauses != []
    ensures var c := ChainIn(x, clauses[1..], d, spec, s);
            var p, v := EvalIn(x, clauses[0].pred, s), EvalIn(x, clauses[0].result, s);
            ChainIn(x, clauses, d, spec, s) ==
            if c.Some? && p.Some? && v.Some? then Some(x.sem.apply(SelectKernel(spec), [p.value, v.value, c.value]))
                else None
  {
    var rest, all := EvalClausesIn(x, clauses[1..], s), EvalClausesIn(x, clauses, s);
    if all.Some? {
      assert all.value.0[1..] == rest.value.0 && all.value.1[1..] == rest.value.1;
    }
  }

  lemma {:induction false} CondMeans(x: Run, t: Table, e: Expr, s: Scope, st: State, m: Model) returns (m': Model)
    requires Ready(x, t, s, st, m) && WellScoped(x.sem, e, s, t) && e.Cond? && e.ref !in st.ids
    requires LowerNew(e, st).Success? && LowerNew(e, st).value.1.blobs <= x.blobs
    ensures var (id, st') := LowerNew(e, st).value; Good(x, t, s, st, m, id, st', m', EvalIn(x, e, s))
    decreases e, 1
  {
    var (otherwise, st1) := Lower(e.default, st).value;
    var (id, st2) := LowerClauses(e.clauses, otherwise, e.spec, st1).value;
    var m1 := LowerSteps(x, t, e.default, s, st, m);
    LowerForms(e.default, st);
    var d := EvalIn(x, e.default, s);
    AgreesHere(m, m1, otherwise, d);
    var d1 := if Broken(m1) then None else d;
    m' := LowerClausesMeans(x, t, e.clauses, otherwise, d1, e.spec, s, st1, m1);
    CondValue(x, e, s);
    var v := ChainIn(x, e.clauses, d, e.spec, s);
    hide Holds, Bound, StateOk, Lawful, FrameOf, WellScoped, ChainIn;
    CondAgrees(m, m1, m', id, d, d1, x, e, s);
    AliasMeans(x, t, e, s, st, m, id, st2, m', st2.bind);
  }

  lemma AgreesHere(m: Model, m1: Model, id: nat, v: Option<Value>)
    requires Agrees(m, m1, id, v)
    ensures Agrees(m1, m1, id, if Broken(m1) then None else v)
  {
  }

  lemma CondValue(x: Run, e: Expr, s: Scope)
    requires Lawful(x.sem) && e.Cond?
    ensures EvalIn(x, e, s) == ChainIn(x, e.clauses, EvalIn(x, e.default, s), e.spec, s)
  {
    var cs := EvalClausesIn(x, e.clauses, s);
    var d := EvalIn(x, e.default, s);
    if cs.Some? && d.Some? {
      ChainIsChosen(x.sem, e.spec, cs.value.0, cs.value.1, d.value);
    }
  }

  lemma CondAgrees(m: Model, m1: Model, m2: Model, id: nat, d: Option<Value>, d1: Option<Value>, x: Run, e: Expr,
      s: Scope)
    requires e.Cond? && Agrees(m1, m2, id, ChainIn(x, e.clauses, d1, e.spec, s))
    requires Extends(m, m1) && (Broken(m1) ==> Broken(m) || d.None?) && d1 == if Broken(m1) then None else d
    ensures Agrees(m, m2, id, ChainIn(x, e.clauses, d, e.spec, s))
  {
    ExtendsTrans(m, m1, m2);
  }

  /** An expression that stands for an id already found: remember it. */
  lemma AliasMeans(x: Run, t: Table, e: Expr, s: Scope, st: State, m: Model, id: nat, st1: State, m1: Model,
      bind: Option<seq<nat>>)
    requires !e.Tuple? && e.ref in t.entries && t.entries[e.ref] == (e, Home(e, s))
    requires Holds(x, t, st1, m1) && Agrees(m, m1, id, EvalIn(x, e, s)) && Bound(x, bind, s, m1)
    ensures Good(x, t, s, st, m, id, WithRef(st1.(bind := bind), e.ref, id), m1, EvalIn(x, e, s))
  {
    hide FrameOf;
    var st2 := st1.(bind := bind);
    assert Holds(x, t, st2, m1);
    WithRefHolds(x, t, st2, m1, e.ref, id, e, s);
  }

  // -- blocks -----------------------------------------------------------------

  /** Entering a block: its lowered inputs become the parameters of its scope. */
  lemma BlockReady(x: Run, t: Table, inputs: seq<Expr>, s: Scope, st: State, m: Model, ids: seq<nat>, st1: State,
      m1: Model)
    requires Lawful(x.sem) && GoodAll(x, t, s, st, m, ids, st1, m1, EvalAllIn(x, inputs, s)) && StateOk(st1)
    requires AllBelow(ids, st1.counter) && |ids| == |inputs|
    ensures Ready(x, t, In(inputs, s), st1.(bind := Some(ids)), m1)
  {
    RebindOk(st1, Some(ids));
    hide Lawful, StateOk, MemoHolds, ItemsHold;
    var st2 := st1.(bind := Some(ids));
    assert Holds(x, t, st2, m1) by { HoldsRebound(x, t, st1, m1, Some(ids)); }
    assert Known(m1, ids);
    if !Broken(m1) {
      assert FrameOf(x, s).Some?;
      assert FrameOf(x, In(inputs, s)) == Some(Frame(EvalAllIn(x, inputs, s), x.params));
    }
    assert Arity(In(inputs, s)) <= |x.params|;
  }

  lemma HoldsRebound(x: Run, t: Table, st: State, m: Model, bind: Option<seq<nat>>)
    requires Holds(x, t, st, m)
    ensures Holds(x, t, st.(bind := bind), m)
  {
  }

  /** Leaving a block. */
  lemma BlockDone(x: Run, t: Table, s: Scope, st: State, m: Model, bind: Option<seq<nat>>, m0: Model)
    requires Holds(x, t, st, m) && Bound(x, bind, s, m0) && Extends(m0, m)
    ensures Holds(x, t, st.(bind := bind), m) && Bound(x, bind, s, m)
  {
    BoundExtends(x, bind, s, m0, m);
    hide FrameOf;
  }

  lemma AgreeExtends(m: Model, m': Model, id: nat, v: Option<Value>)
    requires Agrees(m, m', id, v)
    ensures Extends(m, m') && id in m'
  {
  }

  lemma AllAgreeExtends(m: Model, m': Model, ids: seq<nat>, vs: Option<seq<Value>>)
    requires AllAgree(m, m', ids, vs)
    ensures Extends(m, m') && Known(m', ids)
  {
  }

  lemma BlockAgrees(m: Model, m1: Model, m2: Model, ids: seq<nat>, us: Option<seq<Value>>, id: nat, v: Option<Value>,
      w: Option<Value>)
    requires AllAgree(m, m1, ids, us) && Agrees(m1, m2, id, v)
    requires w == if us.Some? then v else None
    ensures Agrees(m, m2, id, w)
  {
    ExtendsTrans(m, m1, m2);
  }

  lemma BlockAllAgree(m: Model, m1: Model, m2: Model, ids: seq<nat>, us: Option<seq<Value>>, more: seq<nat>,
      vs: Option<seq<Value>>, w: Option<seq<Value>>)
    requires AllAgree(m, m1, ids, us) && AllAgree(m1, m2, more, vs)
    requires w == if us.Some? then vs else None
    ensures AllAgree(m, m2, more, w)
  {
    ExtendsTrans(m, m1, m2);
  }

  lemma {:induction false} BlockMeans(x: Run, t: Table, e: Expr, s: Scope, st: State, m: Model) returns (m': Model)
    requires Ready(x, t, s, st, m) && WellScoped(x.sem, e, s, t) && e.Block? && e.ref !in st.ids
    requires LowerNew(e, st).Success? && LowerNew(e, st).value.1.blobs <= x.blobs
    ensures var (id, st') := LowerNew(e, st).value; Good(x, t, s, st, m, id, st', m', EvalIn(x, e, s))
    decreases e, 1
  {
    var (ids, st1) := LowerAll(e.inputs, st).value;
    var (id, st2) := Lower(e.result, st1.(bind := Some(ids))).value;
    BlockValue(x, e, s);
    hide Holds, Bound, Agrees, AllAgree, StateOk, Lawful, FrameOf, Grew;
    var m1 := LowerAllMeans(x, t, e.inputs, s, st, m);
    LowerAllForms(e.inputs, st);
    BlockReady(x, t, e.inputs, s, st, m, ids, st1, m1);
    m' := LowerSteps(x, t, e.result, In(e.inputs, s), st1.(bind := Some(ids)), m1);
    AgreeExtends(m1, m', id, EvalIn(x, e.result, In(e.inputs, s)));
    BlockAgrees(m, m1, m', ids, EvalAllIn(x, e.inputs, s), id, EvalIn(x, e.result, In(e.inputs, s)), EvalIn(x, e, s));
    BlockDone(x, t, s, st2, m', st.bind, m1);
    AliasMeans(x, t, e, s, st, m, id, st2, m', st.bind);
  }

  lemma BlockValue(x: Run, e: Expr, s: Scope)
    ensures e.Block? ==>
        EvalIn(x, e, s) == if EvalAllIn(x, e.inputs, s).Some? then EvalIn(x, e.result, In(e.inputs, s)) else None
    ensures e.TupleBlock? ==>
        EvalTupleIn(x, e, s) == if EvalAllIn(x, e.inputs, s).Some? then EvalAllIn(x, e.results, In(e.inputs, s))
        else None
  {
  }

  /** A tuple's ids, remembered. */
  lemma RememberMeans(x: Run, t: Table, e: Expr, s: Scope, st: State, m: Model, ids: seq<nat>, st1: State, m1: Model)
    requires !e.Tuple? && e.ref in t.entries && t.entries[e.ref] == (e, Home(e, s))
    requires Holds(x, t, st1, m1) && AllAgree(m, m1, ids, EvalTupleIn(x, e, s)) && Bound(x, st1.bind, s, m1)
    ensures GoodAll(x, t, s, st, m, ids, st1.(tuples := st1.tuples[e.ref := ids]), m1, EvalTupleIn(x, e, s))
  {
    if !Broken(m1) {
      assert EvalTupleIn(x, e, s).Some?;
      HomeSame(x, e, s);
    }
    hide FrameOf, Home, EvalTuple, EvalTupleIn;
  }

  lemma {:induction false} TupleBlockMeans(x: Run, t: Table, e: Expr, s: Scope, st: State, m: Model) returns (m': Model)
    requires Ready(x, t, s, st, m) && WellScoped(x.sem, e, s, t) && e.TupleBlock? && e.ref !in st.tuples
    requires LowerTuple(e, st).Success? && LowerTuple(e, st).value.1.blobs <= x.blobs
    ensures var (ids, st') := LowerTuple(e, st).value; GoodAll(x, t, s, st, m, ids, st', m', EvalTupleIn(x, e, s))
    decreases e, 0
  {
    var (ids, st1) := LowerAll(e.inputs, st).value;
    var (outs, st2) := LowerAll(e.results, st1.(bind := Some(ids))).value;
    BlockValue(x, e, s);
    hide Holds, Bound, AllAgree, StateOk, Lawful, FrameOf, Grew;
    var m1 := LowerAllMeans(x, t, e.inputs, s, st, m);
    LowerAllForms(e.inputs, st);
    BlockReady(x, t, e.inputs, s, st, m, ids, st1, m1);
    m' := LowerAllMeans(x, t, e.results, In(e.inputs, s), st1.(bind := Some(ids)), m1);
    AllAgreeExtends(m1, m', outs, EvalAllIn(x, e.results, In(e.inputs, s)));
    BlockAllAgree(m, m1, m', ids, EvalAllIn(x, e.inputs, s), outs, EvalAllIn(x, e.results, In(e.inputs, s)),
        EvalTupleIn(x, e, s));
    BlockDone(x, t, s, st2, m', st.bind, m1);
    RememberMeans(x, t, e, s, st, m, outs, st2.(bind := st.bind), m');
  }

  // -- loops ------------------------------------------------------------------

  lemma {:induction false} LoopLength(x: Run, node: Node, state: seq<Value>, left: nat)
    requires node.While? && |state| == |node.body.outputs|
    ensures var r := EvalLoop(x.sem, x.blobs, node, state, left, x.fuel); r.Ok? ==> |r.value| == |state|
    decreases left
  {
    if left > 0 {
      var next := EvalSub(x.sem, x.blobs, node.body, state, [], x.fuel);
      if next.Ok? {
        LoopLength(x, node, next.value, left - 1);
      }
    }
  }

  /** Consecutive ids for a loop's results; no value where there is none. */
  function ResultModel(first: nat, r: Outcome<seq<Value>>, n: nat): (added: Model)
    ensures forall id: nat :: id in added <==> first <= id < first + n
    ensures forall id: nat :: first <= id < first + n ==>
      added[id] == if r.Ok? && id - first < |r.value| then Some(r.value[id - first]) else None
  {
    if n == 0 then map[]
    else ResultModel(first, r, n - 1)[first + n - 1 := if r.Ok?
        && n - 1 < |r.value| then Some(r.value[n - 1]) else None]
  }

  /** The values of a loop node's output ids. */
  function LoopModel(x: Run, node: Node, m: Model, first: nat): (added: Model)
    requires node.While?
    ensures forall id: nat :: id in added <==> first <= id < first + |node.outputs|
  {
    var r := if AllSome(m, node.inputs) then EvalLoop(x.sem, x.blobs, node, Vals(m, node.inputs), x.fuel, x.fuel)
        else Diverged;
    ResultModel(first, r, |node.outputs|)
  }

  lemma LoopGrows(x: Run, t: Table, st: State, m: Model, added: Model, n: nat)
    requires Holds(x, t, st, m) && forall id: nat :: id in added <==> st.counter <= id < st.counter + n
    ensures var m' := m + added;
            && Extends(m, m') && ItemsHold(x, st, m') && MemoKnown(st, m')
            && (Broken(m') <==> Broken(m) || Broken(added))
            && (!Broken(m') ==> MemoHolds(x, t, st, m'))
            && (forall id: nat :: id in m' <==> id < st.counter + n)
  {
    var m' := m + added;
    ExtendsKeeps(x, st, m, m');
    if Broken(added) {
      var id :| id in added && added[id].None?;
      assert m'[id].None?;
    }
    if !Broken(m') {
      assert !Broken(m);
      MemoExtends(x, t, st, m, m');
    }
  }

  /** Consecutive ids find their results. */
  lemma ResultsAt(m: Model, m': Model, r: Outcome<seq<Value>>, ids: seq<nat>, first: nat)
    requires m' == m + ResultModel(first, r, |ids|) && (r.Ok? ==> |r.value| == |ids|)
    requires forall k :: 0 <= k < |ids| ==> ids[k] == first + k
    ensures Known(m', ids)
    ensures r.Ok? ==> forall k :: 0 <= k < |ids| ==> m'[ids[k]] == Some(r.value[k])
    ensures !r.Ok? ==> forall k :: 0 <= k < |ids| ==> m'[ids[k]].None?
  {
    hide ResultModel;
    var added := ResultModel(first, r, |ids|);
    forall k | 0 <= k < |ids|
      ensures ids[k] in m' && m'[ids[k]] == if r.Ok? then Some(r.value[k]) else None
    {
      assert first <= ids[k] < first + |ids| && ids[k] - first == k;
      assert ids[k] in added && m'[ids[k]] == added[ids[k]];
    }
  }

  lemma SameOperands(m: Model, m': Model, ids: seq<nat>)
    requires Known(m, ids) && Extends(m, m') && AllSome(m', ids)
    ensures AllSome(m, ids) && Vals(m', ids) == Vals(m, ids)
  {
  }

  /** The loop node holds its values; on any operands it runs. */
  lemma LoopNodeHolds(x: Run, e: Expr, node: Node, m: Model, m': Model, first: nat)
    requires e.Loop? && node.While? && |e.body| == |e.init| == |node.inputs| == |node.outputs| == |node.body.outputs|
    requires e.body != []
    requires SubMeans(x, node.cond, [e.test], |e.init|) && SubMeans(x, node.body, e.body, |e.init|)
    requires Known(m, node.inputs) && Extends(m, m') && m' == m + LoopModel(x, node, m, first)
    requires forall k :: 0 <= k < |node.outputs| ==> node.outputs[k].id == first + k
    requires forall k :: 0 <= k < |node.inputs| ==> node.inputs[k] < first
    ensures NodeHolds(x, node, m')
  {
    hide ResultModel, EvalLoop, LoopValue, SubMeans;
    var ids := OutIds(node.outputs);
    var r := if AllSome(m, node.inputs) then EvalLoop(x.sem, x.blobs, node, Vals(m, node.inputs), x.fuel, x.fuel)
        else Diverged;
    assert m' == m + ResultModel(first, r, |ids|);
    if AllSome(m, node.inputs) {
      LoopLength(x, node, Vals(m, node.inputs), x.fuel);
      LoopSame(x, e, node, Vals(m, node.inputs), x.fuel);
    }
    ResultsAt(m, m', r, ids, first);
    hide LoopModel, Extends;
    if AllSome(m', node.inputs) {
      SameOperands(m, m', node.inputs);
      assert NodeResults(x.sem, x.blobs, node, Vals(m, node.inputs), [], x.fuel) == r;
      assert !r.Ok? ==> m'[ids[0]].None?;
    }
  }

  lemma LoopAgrees(x: Run, e: Expr, s: Scope, node: Node, m0: Model, m: Model, m': Model, first: nat,
      inits: Option<seq<Value>>)
    requires e.Loop? && node.While? && |e.body| == |e.init| == |node.inputs| == |node.outputs| == |node.body.outputs|
    requires e.body != []
    requires SubMeans(x, node.cond, [e.test], |e.init|) && SubMeans(x, node.body, e.body, |e.init|)
    requires inits == EvalAllIn(x, e.init, s) && AllAgree(m0, m, node.inputs, inits)
    requires Extends(m, m') && m' == m + LoopModel(x, node, m, first)
    requires Broken(m') <==> Broken(m) || Broken(LoopModel(x, node, m, first))
    requires forall k :: 0 <= k < |node.outputs| ==> node.outputs[k].id == first + k
    ensures AllAgree(m0, m', OutIds(node.outputs), EvalTupleIn(x, e, s))
  {
    hide ResultModel, EvalLoop, LoopValue, SubMeans, FrameOf;
    var ids := OutIds(node.outputs);
    var added := LoopModel(x, node, m, first);
    ExtendsTrans(m0, m, m');
    if !Broken(m) {
      var args := Vals(m, node.inputs);
      LoopSame(x, e, node, args, x.fuel);
      LoopLength(x, node, args, x.fuel);
      var r := EvalLoop(x.sem, x.blobs, node, args, x.fuel, x.fuel);
      if r.Ok? {
        assert !Broken(added);
        assert AllSome(m', ids) && Vals(m', ids) == r.value;
      } else {
        assert added[ids[0]].None?;
      }
    }
  }

  /** The loop node, appended. */
  lemma AddLoopMeans(x: Run, t: Table, e: Expr, s: Scope, st: State, m: Model, ids: seq<nat>, st1: State, m1: Model,
      cond: Sub, body: Sub) returns (m': Model)
    requires e.Loop? && e.body != [] && |e.body| == |e.init| == |ids| == |body.outputs|
    requires GoodAll(x, t, s, st, m, ids, st1, m1, EvalAllIn(x, e.init, s)) && AllBelow(ids, st1.counter)
    requires SubMeans(x, cond, [e.test], |e.init|) && SubMeans(x, body, e.body, |e.init|)
    requires e.ref in t.entries && t.entries[e.ref] == (e, Home(e, s))
    ensures var (outs, st') := AddLoop(st1, e.ref, ids, cond, body, e.body);
            GoodAll(x, t, s, st, m, outs, st', m', EvalTupleIn(x, e, s))
  {
    hide FrameOf, SubMeans, LoopModel, ResultModel, MemoHolds, NodeHolds, AllBelow, EvalAllIn, EvalTupleIn, SubOk,
        NodeResults;
    var (outIds, st') := AddLoop(st1, e.ref, ids, cond, body, e.body);
    var node := While(ids, cond, body, LoopOutputs(e.body, st1.counter));
    var added := LoopModel(x, node, m1, st1.counter);
    m' := m1 + added;
    LoopGrows(x, t, st1, m1, added, |e.body|);
    hide FrameOf, SubMeans, LoopModel, ResultModel, MemoHolds, NodeHolds, AllBelow;
    LoopAgrees(x, e, s, node, m, m1, m', st1.counter, EvalAllIn(x, e.init, s));
    LoopNodeHolds(x, e, node, m1, m', st1.counter);
    BoundExtends(x, st1.bind, s, m1, m');
    var st2 := st1.(counter := st1.counter + |e.body|, nodes := st1.nodes + [node]);
    LoopHolds(x, t, st1, st2, m', node);
    hide Holds, AllAgree, Bound, Extends, Broken;
    RememberMeans(x, t, e, s, st, m, outIds, st2, m');
  }

  lemma LoopHolds(x: Run, t: Table, st: State, st': State, m: Model, node: Node)
    requires ItemsHold(x, st, m) && MemoKnown(st, m) && (!Broken(m) ==> MemoHolds(x, t, st, m)) && st.blobs <= x.blobs
    requires NodeHolds(x, node, m) && (forall id: nat :: id in m <==> id < st'.counter)
    requires st' == st.(counter := st'.counter, nodes := st.nodes + [node])
    ensures Holds(x, t, st', m)
  {
    hide NodeHolds, FrameOf, Broken;
    MemoSame(x, t, st, st', m);
  }

  lemma MemoSame(x: Run, t: Table, st: State, st': State, m: Model)
    requires st'.ids == st.ids && st'.tuples == st.tuples
    ensures MemoHolds(x, t, st, m) ==> MemoHolds(x, t, st', m)
  {
  }

  lemma {:induction false} LoopMeans(x: Run, t: Table, e: Expr, s: Scope, st: State, m: Model) returns (m': Model)
    requires Ready(x, t, s, st, m) && WellScoped(x.sem, e, s, t) && e.Loop? && e.ref !in st.tuples
    requires LowerTuple(e, st).Success? && LowerTuple(e, st).value.1.blobs <= x.blobs
    ensures var (ids, st') := LowerTuple(e, st).value; GoodAll(x, t, s, st, m, ids, st', m', EvalTupleIn(x, e, s))
    decreases e, 0
  {
    var (ids, st1) := LowerAll(e.init, st).value;
    var (test, st2) := Lower(e.test, Isolated(st1)).value;
    var (outs, st3) := LowerAll(e.body, Isolated(st2)).value;
    assert st1.blobs <= st2.blobs <= st3.blobs <= x.blobs;
    hide Holds, Bound, AllAgree, FrameOf, Grew, StateOk, Lawful, SubMeans;
    var m1 := LowerAllMeans(x, t, e.init, s, st, m);
    LowerAllForms(e.init, st);
    SingleMeans(x, t.tests[e.ref], e.test, |e.init|, st1);
    RegionMeans(x, t.bodies[e.ref], e.body, |e.init|, st2);
    GoodBlobs(x, t, s, st, m, ids, st1, m1, EvalAllIn(x, e.init, s), st3.blobs);
    m' := AddLoopMeans(x, t, e, s, st, m, ids, st1.(blobs := st3.blobs), m1, Finish([e.test], [test], st2),
        Finish(e.body, outs, st3));
  }

  lemma GoodBlobs(x: Run, t: Table, s: Scope, st: State, m: Model, ids: seq<nat>, st1: State, m1: Model,
      vs: Option<seq<Value>>, blobs: seq<Bytes>)
    requires GoodAll(x, t, s, st, m, ids, st1, m1, vs) && blobs <= x.blobs
    ensures GoodAll(x, t, s, st, m, ids, st1.(blobs := blobs), m1, vs)
  {
    HoldsBlobs(x, t, st1, m1, blobs);
    hide Holds;
  }

  // -- tuple-valued cond --------------------------------------------------------

  function EvalChoicesIn(x: Run, choices: seq<TupleClause>, width: nat,
      s: Scope): (r: Option<(seq<Value>, seq<seq<Value>>)>)
    ensures r.Some? ==> |r.value.0| == |r.value.1| == |choices|
    ensures r.Some? ==> forall k :: 0 <= k < |choices| ==> |r.value.1[k]| == width
  {
    var fr :- FrameOf(x, s);
    EvalChoices(x.sem, choices, width, fr, x.fuel)
  }

  predicate ChoicesKnown(m: Model, data: seq<Choice>) {
    forall k :: 0 <= k < |data| ==> data[k].pred in m && Known(m, data[k].results)
  }

  /** The lowered clauses hold their values. */
  predicate ChoicesMatch(m: Model, data: seq<Choice>, ps: seq<Value>, rows: seq<seq<Value>>) {
    && |data| == |ps| == |rows|
    && forall k :: 0 <= k < |data| ==>
         data[k].pred in m && m[data[k].pred] == Some(ps[k]) && Matches(m, data[k].results, Some(rows[k]))
  }

  ghost predicate ChoicesAgree(m: Model, m': Model, data: seq<Choice>, v: Option<(seq<Value>, seq<seq<Value>>)>) {
    && Extends(m, m') && ChoicesKnown(m', data)
    && (Broken(m') ==> Broken(m) || v.None?)
    && (!Broken(m') ==> v.Some? && ChoicesMatch(m', data, v.value.0, v.value.1))
  }

  lemma ChoicesExtend(m: Model, m': Model, data: seq<Choice>, ps: seq<Value>, rows: seq<seq<Value>>)
    requires ChoicesMatch(m, data, ps, rows) && Extends(m, m')
    ensures ChoicesMatch(m', data, ps, rows)
  {
    forall k | 0 <= k < |data| ensures Matches(m', data[k].results, Some(rows[k])) {
      MatchesExtends(m, m', data[k].results, Some(rows[k]));
    }
  }

  lemma ChoiceStep(a: Model, b: Model, c: Model, d: Model, data: seq<Choice>, v: Option<(seq<Value>, seq<seq<Value>>)>,
      p: nat, pv: Option<Value>, ids: seq<nat>, vs: Option<seq<Value>>, all: Option<(seq<Value>, seq<seq<Value>>)>)
    requires ChoicesAgree(a, b, data, v) && Agrees(b, c, p, pv) && AllAgree(c, d, ids, vs)
    requires all == if v.Some? && pv.Some? && vs.Some? then Some((v.value.0 + [pv.value], v.value.1 + [vs.value]))
        else None
    ensures ChoicesAgree(a, d, data + [Choice(p, ids)], all)
  {
    ExtendsTrans(a, b, c);
    ExtendsTrans(a, c, d);
    ExtendsTrans(b, c, d);
    if !Broken(d) {
      ChoicesExtend(b, d, data, v.value.0, v.value.1);
    }
  }

  lemma {:induction false} LowerChoicesMeans(x: Run, t: Table, choices: seq<TupleClause>, width: nat, s: Scope,
      st: State, m: Model) returns (m': Model)
    requires Ready(x, t, s, st, m) && ChoicesScoped(x.sem, choices, s, t)
    requires LowerChoices(choices, width, st).Success? && LowerChoices(choices, width, st).value.1.blobs <= x.blobs
    ensures var (data, st') := LowerChoices(choices, width, st).value;
            Holds(x, t, st', m') && ChoicesAgree(m, m', data, EvalChoicesIn(x, choices, width, s))
                && Bound(x, st'.bind, s, m')
    decreases choices, 0
  {
    ReadyFrame(x, t, s, st, m);
    NoChoices(x, width, s, m);
    hide Holds, Bound, AllAgree, Agrees, FrameOf, StateOk, Lawful, Lower, LowerAll, EvalIn, EvalAllIn, EvalChoicesIn,
        ChoicesAgree, WellScoped, Broken;
    if choices == [] {
      m' := m;
    } else {
      var last, before := choices[|choices| - 1], choices[..|choices| - 1];
      assert (choices decreases to last);
      var (data, st1) := LowerChoices(before, width, st).value;
      var (p, st2) := Lower(last.pred, st1).value;
      var (ids, st3) := LowerAll(last.results, st2).value;
      assert st1.blobs <= st2.blobs <= x.blobs;
      hide Holds, Bound, AllAgree, Agrees, ChoicesAgree, FrameOf, Grew, StateOk, Lawful;
      var m1 := LowerChoicesMeans(x, t, before, width, s, st, m);
      LowerChoicesForms(before, width, st);
      var m2 := LowerSteps(x, t, last.pred, s, st1, m1);
      LowerForms(last.pred, st1);
      m' := LowerAllMeans(x, t, last.results, s, st2, m2);
      ChoicesStepValue(x, choices, width, s);
      ChoiceStep(m, m1, m2, m', data, EvalChoicesIn(x, before, width, s), p, EvalIn(x, last.pred, s),
                 ids, EvalAllIn(x, last.results, s), EvalChoicesIn(x, choices, width, s));
    }
  }

  lemma NoChoices(x: Run, width: nat, s: Scope, m: Model)
    requires FrameOf(x, s).None? ==> Broken(m)
    ensures ChoicesAgree(m, m, [], EvalChoicesIn(x, [], width, s))
  {
  }

  lemma ChoicesStepValue(x: Run, choices: seq<TupleClause>, width: nat, s: Scope)
    requires choices != [] && |choices[|choices| - 1].results| == width
    ensures var last := choices[|choices| - 1];
            var v := EvalChoicesIn(x, choices[..|choices| - 1], width, s);
            var p, vs := EvalIn(x, last.pred, s), EvalAllIn(x, last.results, s);
            EvalChoicesIn(x, choices, width, s) ==
            if v.Some? && p.Some? && vs.Some? then Some((v.value.0 + [p.value], v.value.1 + [vs.value])) else None
  {
  }

  type Rows = Option<(seq<Value>, seq<seq<Value>>)>

  /** Everything a select chain reads is known, and right unless something has failed. */
  ghost predicate SelectReady(x: Run, t: Table, s: Scope, st: State, m: Model, data: seq<Choice>, width: nat,
      cv: Rows)
  {
    && Holds(x, t, st, m) && Bound(x, st.bind, s, m) && ChoicesKnown(m, data)
    && (forall k :: 0 <= k < |data| ==> |data[k].results| == width)
    && (!Broken(m) ==> cv.Some? && ChoicesMatch(m, data, cv.value.0, cv.value.1))
  }

  /** One more select: its value is right unless something has already failed. */
  lemma OneSelect(x: Run, t: Table, s: Scope, st: State, m: Model, data: seq<Choice>, width: nat, cv: Rows,
      ids: seq<nat>, spec: Spec) returns (m': Model)
    requires SelectReady(x, t, s, st, m, data, width, cv) && |ids| == 3 && Known(m, ids)
    ensures var (id, st') := AddRaw(st, SelectKernel(spec), ids);
            && SelectReady(x, t, s, st', m', data, width, cv) && Extends(m, m') && id in m'
            && (Broken(m') <==> Broken(m))
            && (!Broken(m') ==> AllSome(m, ids) && m'[id] == Some(x.sem.apply(SelectKernel(spec), Vals(m, ids))))
  {
    var node := Compute(st.counter, SelectKernel(spec), ids);
    SomeUnlessBroken(m, ids);
    m' := AppendHolds(x, t, st, m, node, AddRaw(st, SelectKernel(spec), ids).1);
    hide FrameOf, Holds;
    if Broken(m) {
      BrokenExtends(m, m');
    } else {
      assert NodeValue(x, node, m).Some?;
      ChoicesExtend(m, m', data, cv.value.0, cv.value.1);
    }
    BoundExtends(x, st.bind, s, m, m');
  }

  lemma {:induction false} SelectOneMeans(x: Run, t: Table, s: Scope, data: seq<Choice>, i: nat, otherwise: nat,
      d: Option<Value>, spec: Spec, st: State, m: Model, width: nat, cv: Rows) returns (m': Model)
    requires SelectReady(x, t, s, st, m, data, width, cv) && i < width && otherwise in m
    requires (!Broken(m) ==> d == m[otherwise] && d.Some?)
    ensures var (id, st') := SelectOne(data, i, otherwise, spec, st);
            && Holds(x, t, st', m') && Bound(x, st'.bind, s, m') && Extends(m, m') && id in m'
            && (Broken(m') <==> Broken(m))
            && (!Broken(m') ==>
                  && RowsFit(cv.value, i)
                  && m'[id] == Some(ChainValue(x.sem, spec, cv.value.0, Column(cv.value.1, i), d.value)))
    decreases |data|
  {
    hide Lower, EvalIn, NodeHolds, Holds, Bound;
    if data == [] {
      m' := m;
    } else {
      var rest := data[1..];
      var cv1: Rows := if cv.Some? && |cv.value.0| == |cv.value.1| == |data|
          then Some((cv.value.0[1..], cv.value.1[1..])) else None;
      SelectReadyRest(x, t, s, st, m, data, width, cv, cv1);
      var m1 := SelectOneMeans(x, t, s, rest, i, otherwise, d, spec, st, m, width, cv1);
      var (id, st1) := SelectOne(rest, i, otherwise, spec, st);
      SelectReadyLater(x, t, s, st, m, data, width, cv, st1, m1);
      var ids := [data[0].pred, data[0].results[i], id];
      hide Holds, Bound;
      m' := OneSelect(x, t, s, st1, m1, data, width, cv, ids, spec);
      if !Broken(m') {
        var ps, rows := cv.value.0, cv.value.1;
        assert Column(rows, i)[1..] == Column(rows[1..], i);
        assert Vals(m1, ids) == [ps[0], rows[0][i], m1[id].value];
      }
    }
  }

  predicate RowsFit(rows: (seq<Value>, seq<seq<Value>>), i: nat) {
    |rows.0| == |rows.1| && forall k :: 0 <= k < |rows.1| ==> i < |rows.1[k]|
  }

  lemma SelectReadyRest(x: Run, t: Table, s: Scope, st: State, m: Model, data: seq<Choice>, width: nat, cv: Rows,
      cv1: Rows)
    requires SelectReady(x, t, s, st, m, data, width, cv) && data != []
    requires cv1 == if cv.Some? && |cv.value.0| == |cv.value.1| == |data| then Some((cv.value.0[1..], cv.value.1[1..]))
        else None
    ensures SelectReady(x, t, s, st, m, data[1..], width, cv1)
  {
    hide Holds, Bound;
  }

  lemma SelectReadyLater(x: Run, t: Table, s: Scope, st: State, m: Model, data: seq<Choice>, width: nat, cv: Rows,
      st1: State, m1: Model)
    requires SelectReady(x, t, s, st, m, data, width, cv)
    requires Holds(x, t, st1, m1) && Bound(x, st1.bind, s, m1) && Extends(m, m1)
    ensures SelectReady(x, t, s, st1, m1, data, width, cv)
  {
    hide Holds, Bound;
    if !Broken(m1) {
      assert !Broken(m) by { if Broken(m) { BrokenExtends(m, m1); } }
      ChoicesExtend(m, m1, data, cv.value.0, cv.value.1);
    }
  }

  lemma ReadyRows(x: Run, t: Table, s: Scope, st: State, m: Model, data: seq<Choice>, width: nat, cv: Rows)
    requires SelectReady(x, t, s, st, m, data, width, cv)
    ensures Holds(x, t, st, m) && Bound(x, st.bind, s, m) && (!Broken(m) ==> cv.Some? && RowsAre(cv.value, width))
    ensures forall k :: 0 <= k < |data| ==> |data[k].results| == width
  {
    if !Broken(m) {
      RowsMatch(m, data, cv.value, width);
    }
  }

  lemma AllAndOne(x: Run, rows: (seq<Value>, seq<seq<Value>>), ds: seq<Value>, defaults: seq<Expr>, i: nat, m1: Model,
      m': Model, ids: seq<nat>, id: nat)
    requires Lawful(x.sem) && RowsAre(rows, |defaults|) && |ds| == i + 1 <= |defaults| && Extends(m1, m') && id in m'
    requires Matches(m1, ids, Some(ChosenAll(x.sem, rows.0, rows.1, ds[..i], defaults)))
    requires m'[id] == Some(ChainValue(x.sem, SpecOf(defaults[i]), rows.0, Column(rows.1, i), ds[i]))
    ensures Matches(m', ids + [id], Some(ChosenAll(x.sem, rows.0, rows.1, ds, defaults)))
  {
    hide Lawful, ChainValue, Column, ChosenAll;
    OneMoreChosen(x, rows, ds, defaults, i);
    MatchesExtends(m1, m', ids, Some(ChosenAll(x.sem, rows.0, rows.1, ds[..i], defaults)));
    assert Vals(m', ids + [id]) == Vals(m', ids) + [m'[id].value];
  }

  lemma {:induction false} SelectAllMeans(x: Run, t: Table, s: Scope, data: seq<Choice>, others: seq<nat>,
      ds: Option<seq<Value>>, defaults: seq<Expr>, st: State, m: Model, cv: Rows) returns (m': Model)
    requires Lawful(x.sem) && SelectReady(x, t, s, st, m, data, |defaults|, cv)
    requires |others| <= |defaults| && Known(m, others) && (!Broken(m) ==> Matches(m, others, ds))
    ensures var (ids, st') := SelectAll(data, others, defaults, st);
            && Holds(x, t, st', m') && Bound(x, st'.bind, s, m') && Extends(m, m') && Known(m', ids)
            && (Broken(m') <==> Broken(m))
            && (!Broken(m') ==>
                  && RowsAre(cv.value, |defaults|)
                  && Matches(m', ids, Some(ChosenAll(x.sem, cv.value.0, cv.value.1, ds.value, defaults))))
    decreases |others|
  {
    hide ChainValue, Column, Lower, EvalIn, ChoicesMatch, ChoicesKnown, SelectReady, Holds, Bound, SelectOne;
    ReadyRows(x, t, s, st, m, data, |defaults|, cv);
    if others == [] {
      m' := m;
    } else {
      var i := |others| - 1;
      var ds1 := if ds.Some? && |ds.value| == |others| then Some(ds.value[..i]) else None;
      if !Broken(m) {
        assert Vals(m, others[..i]) == Vals(m, others)[..i];
      }
      var m1 := SelectAllMeans(x, t, s, data, others[..i], ds1, defaults, st, m, cv);
      var (ids, st1) := SelectAll(data, others[..i], defaults, st);
      SelectReadyLater(x, t, s, st, m, data, |defaults|, cv, st1, m1);
      var d := if ds.Some? && |ds.value| == |others| then Some(ds.value[i]) else None;
      var spec := SpecOf(defaults[i]);
      assert !Broken(m1) ==> d == m1[others[i]] && d.Some?;
      hide Lawful;
      m' := SelectOneMeans(x, t, s, data, i, others[i], d, spec, st1, m1, |defaults|, cv);
      var (id, st2) := SelectOne(data, i, others[i], spec, st1);
      ExtendsTrans(m, m1, m');
      if !Broken(m') {
        AllAndOne(x, cv.value, ds.value, defaults, i, m1, m', ids, id);
      }
    }
  }

  predicate RowsAre(rows: (seq<Value>, seq<seq<Value>>), width: nat) {
    |rows.0| == |rows.1| && forall k :: 0 <= k < |rows.1| ==> |rows.1[k]| == width
  }

  lemma RowsMatch(m: Model, data: seq<Choice>, rows: (seq<Value>, seq<seq<Value>>), width: nat)
    requires ChoicesMatch(m, data, rows.0, rows.1) && forall k :: 0 <= k < |data| ==> |data[k].results| == width
    ensures RowsAre(rows, width)
  {
    forall k | 0 <= k < |rows.1| ensures |rows.1[k]| == width {
      assert Matches(m, data[k].results, Some(rows.1[k]));
    }
  }

  lemma OneMoreChosen(x: Run, rows: (seq<Value>, seq<seq<Value>>), ds: seq<Value>, defaults: seq<Expr>, i: nat)
    requires Lawful(x.sem) && RowsAre(rows, |defaults|) && |ds| == i + 1 <= |defaults|
    ensures ChosenAll(x.sem, rows.0, rows.1, ds, defaults)
         == ChosenAll(x.sem, rows.0, rows.1, ds[..i], defaults)
             + [ChainValue(x.sem, SpecOf(defaults[i]), rows.0, Column(rows.1, i), ds[i])]
  {
    ChainIsChosen(x.sem, SpecOf(defaults[i]), rows.0, Column(rows.1, i), ds[i]);
    hide Lawful, ChainValue, Chosen;
  }

  lemma {:induction false} TupleCondMeans(x: Run, t: Table, e: Expr, s: Scope, st: State, m: Model) returns (m': Model)
    requires Ready(x, t, s, st, m) && WellScoped(x.sem, e, s, t) && e.TupleCond?
    requires LowerTuple(e, st).Success? && LowerTuple(e, st).value.1.blobs <= x.blobs
    ensures var (ids, st') := LowerTuple(e, st).value; GoodAll(x, t, s, st, m, ids, st', m', EvalTupleIn(x, e, s))
    decreases e, 0
  {
    hide Holds, Bound, FrameOf, Lawful, EvalTupleIn, EvalAllIn, EvalChoicesIn, LowerAll, LowerChoices, ChosenAll;
    var width := |e.defaults|;
    var (others, st1) := LowerAll(e.defaults, st).value;
    var (data, st2) := LowerChoices(e.choices, width, st1).value;
    var m1 := LowerAllMeans(x, t, e.defaults, s, st, m);
    LowerAllForms(e.defaults, st);
    var m2 := LowerChoicesMeans(x, t, e.choices, width, s, st1, m1);
    var ds, cv := EvalAllIn(x, e.defaults, s), EvalChoicesIn(x, e.choices, width, s);
    TupleCondReady(x, t, s, m, m1, st2, m2, others, ds, data, width, cv);
    var cv1 := if Broken(m2) then None else cv;
    m' := SelectAllMeans(x, t, s, data, others, ds, e.defaults, st2, m2, cv1);
    TupleCondValue(x, e, s);
    hide Holds, Bound, FrameOf, Lawful, WellScoped, EvalTupleIn;
    ExtendsTrans(m, m1, m2);
    ExtendsTrans(m, m2, m');
  }

  lemma TupleCondReady(x: Run, t: Table, s: Scope, m: Model, m1: Model, st2: State, m2: Model, others: seq<nat>,
      ds: Option<seq<Value>>, data: seq<Choice>, width: nat, cv: Rows)
    requires AllAgree(m, m1, others, ds) && ChoicesAgree(m1, m2, data, cv)
    requires Holds(x, t, st2, m2) && Bound(x, st2.bind, s, m2)
    requires forall k :: 0 <= k < |data| ==> |data[k].results| == width
    ensures SelectReady(x, t, s, st2, m2, data, width, if Broken(m2) then None else cv)
    ensures Known(m2, others) && (!Broken(m2) ==> Matches(m2, others, ds))
    ensures Extends(m, m1) && Extends(m1, m2)
    ensures Broken(m2) ==> Broken(m) || ds.None? || cv.None?
  {
    hide Holds, Bound;
    ExtendsTrans(m, m1, m2);
    if !Broken(m2) {
      MatchesExtends(m1, m2, others, ds);
    }
  }

  lemma TupleCondValue(x: Run, e: Expr, s: Scope)
    requires e.TupleCond?
    ensures var ds, cv := EvalAllIn(x, e.defaults, s), EvalChoicesIn(x, e.choices, |e.defaults|, s);
            EvalTupleIn(x, e, s) ==
            if ds.Some? && cv.Some? then Some(ChosenAll(x.sem, cv.value.0, cv.value.1, ds.value, e.defaults)) else None
  {
  }

  lemma {:induction false} LowerTupleMeans(x: Run, t: Table, e: Expr, s: Scope, st: State, m: Model) returns (m': Model)
    requires Ready(x, t, s, st, m) && WellScoped(x.sem, e, s, t)
    requires LowerTuple(e, st).Success? && LowerTuple(e, st).value.1.blobs <= x.blobs
    ensures var (ids, st') := LowerTuple(e, st).value; GoodAll(x, t, s, st, m, ids, st', m', EvalTupleIn(x, e, s))
    decreases e, 1
  {
    hide Holds, AllAgree, Bound, StateOk, Lawful, Eval, Home, FrameOf;
    match e {
      case TupleBlock(ref, _, _) =>
        if ref in st.tuples {
          m' := RememberedMeans(x, t, e, s, st, m);
        } else {
          m' := TupleBlockMeans(x, t, e, s, st, m);
        }
      case Loop(ref, _, _, _) =>
        if ref in st.tuples {
          m' := RememberedMeans(x, t, e, s, st, m);
        } else {
          m' := LoopMeans(x, t, e, s, st, m);
        }
      case Metadata(_, inner, _) =>
        m' := LowerTupleMeans(x, t, inner, s, st, m);
      case TupleCond(_, _, _) =>
        m' := TupleCondMeans(x, t, e, s, st, m);
      case Tuple(elems) =>
        m' := LowerAllMeans(x, t, elems, s, st, m);
      case _ =>
        m' := m;
    }
  }

  lemma RememberedMeans(x: Run, t: Table, e: Expr, s: Scope, st: State, m: Model) returns (m': Model)
    requires Ready(x, t, s, st, m) && !e.Tuple? && e.ref in st.tuples
    requires e.ref in t.entries && t.entries[e.ref] == (e, Home(e, s))
    ensures GoodAll(x, t, s, st, m, st.tuples[e.ref], st, m', EvalTupleIn(x, e, s))
  {
    hide Lawful, StateOk;
    m' := m;
    ReadyFrame(x, t, s, st, m);
    if !Broken(m) {
      HomeSame(x, e, s);
    }
    hide Home, EvalTuple, EvalTupleIn, FrameOf;
  }

  lemma {:induction false} ElemMeans(x: Run, t: Table, e: Expr, s: Scope, st: State, m: Model) returns (m': Model)
    requires Ready(x, t, s, st, m) && WellScoped(x.sem, e, s, t) && e.Elem? && e.ref !in st.ids
    requires LowerNew(e, st).Success? && LowerNew(e, st).value.1.blobs <= x.blobs
    ensures var (id, st') := LowerNew(e, st).value; Good(x, t, s, st, m, id, st', m', EvalIn(x, e, s))
    decreases e, 1
  {
    var (ids, st1) := LowerTuple(e.source, st).value;
    m' := LowerTupleMeans(x, t, e.source, s, st, m);
    ElemAgrees(x, m, m', ids, e.index, EvalTupleIn(x, e.source, s));
    ElemValue(x, e, s);
    hide Holds, Bound, FrameOf, Agrees, AllAgree, Lawful, StateOk;
    AliasMeans(x, t, e, s, st, m, ids[e.index], st1, m', st1.bind);
  }

  lemma ElemValue(x: Run, e: Expr, s: Scope)
    requires e.Elem?
    ensures var vs := EvalTupleIn(x, e.source, s);
            EvalIn(x, e, s) == if vs.Some? && e.index < |vs.value| then Some(vs.value[e.index]) else None
  {
  }

  lemma ElemAgrees(x: Run, m: Model, m': Model, ids: seq<nat>, i: nat, vs: Option<seq<Value>>)
    requires AllAgree(m, m', ids, vs) && i < |ids|
    ensures Agrees(m, m', ids[i], if vs.Some? && i < |vs.value| then Some(vs.value[i]) else None)
  {
  }

  /** A tuple-valued block named directly: its first result. */
  lemma {:induction false} FirstMeans(x: Run, t: Table, e: Expr, s: Scope, st: State, m: Model) returns (m': Model)
    requires Ready(x, t, s, st, m) && WellScoped(x.sem, e, s, t) && e.TupleBlock?
    requires LowerNew(e, st).Success? && LowerNew(e, st).value.1.blobs <= x.blobs
    ensures var (id, st') := LowerNew(e, st).value; Good(x, t, s, st, m, id, st', m', EvalIn(x, e, s))
    decreases e, 2
  {
    m' := LowerTupleMeans(x, t, e, s, st, m);
    ElemAgrees(x, m, m', LowerTuple(e, st).value.0, 0, EvalTupleIn(x, e, s));
    hide Holds, Bound, Agrees, AllAgree, Lawful, StateOk;
  }

  lemma {:induction false} ParamMeans(x: Run, t: Table, e: Expr, s: Scope, st: State, m: Model) returns (m': Model)
    requires Ready(x, t, s, st, m) && WellScoped(x.sem, e, s, t) && e.Param? && e.ref !in st.ids
    ensures var (id, st') := LowerNew(e, st).value; Good(x, t, s, st, m, id, st', m', EvalIn(x, e, s))
  {
    hide MemoHolds, ItemsHold;
    if st.bind.Some? && e.pos < |st.bind.value| {
      m' := m;
      assert st.(bind := st.bind) == st;
      AliasMeans(x, t, e, s, st, m, st.bind.value[e.pos], st, m, st.bind);
    } else {
      m' := AddInputHolds(x, t, st, m, e, s);
      BoundExtends(x, st.bind, s, m, m');
    }
  }

  lemma {:induction false} ConstantMeans(x: Run, t: Table, e: Expr, s: Scope, st: State, m: Model) returns (m': Model)
    requires Ready(x, t, s, st, m) && WellScoped(x.sem, e, s, t) && (e.Const? || e.Literal?) && e.ref !in st.ids
    requires LowerNew(e, st).value.1.blobs <= x.blobs
    ensures var (id, st') := LowerNew(e, st).value; Good(x, t, s, st, m, id, st', m', EvalIn(x, e, s))
  {
    hide MemoHolds, ItemsHold;
    var blobs := if e.Const? then st.blobs else st.blobs + [e.bytes];
    var source := if e.Const? then Scalar(e.number) else Data(|st.blobs|);
    m' := AddConstantHolds(x, t, st, m, e, s, source, blobs);
    BoundExtends(x, st.bind, s, m, m');
    assert AddConstant(st, e.ref, source, e.spec).(blobs := st.blobs) == AddConstant(st, e.ref, source, e.spec);
  }

  lemma {:induction false} MetadataMeans(x: Run, t: Table, e: Expr, s: Scope, st: State, m: Model) returns (m': Model)
    requires Ready(x, t, s, st, m) && WellScoped(x.sem, e, s, t) && e.Metadata? && e.ref !in st.ids
    requires LowerNew(e, st).Success? && LowerNew(e, st).value.1.blobs <= x.blobs
    ensures var (id, st') := LowerNew(e, st).value; Good(x, t, s, st, m, id, st', m', EvalIn(x, e, s))
    decreases e, 1
  {
    var (id, st1) := Lower(e.inner, st).value;
    m' := LowerSteps(x, t, e.inner, s, st, m);
    hide Holds, Bound, Agrees, Lawful, StateOk;
    AliasMeans(x, t, e, s, st, m, id, st1, m', st1.bind);
  }

  lemma {:induction false} LowerNewMeans(x: Run, t: Table, e: Expr, s: Scope, st: State, m: Model) returns (m': Model)
    requires Ready(x, t, s, st, m) && WellScoped(x.sem, e, s, t) && !e.Tuple? && e.ref !in st.ids
    requires LowerNew(e, st).Success? && LowerNew(e, st).value.1.blobs <= x.blobs
    ensures var (id, st') := LowerNew(e, st).value; Good(x, t, s, st, m, id, st', m', EvalIn(x, e, s))
    decreases e, 3
  {
    hide Ready, Good, WellScoped;
    match e {
      case Param(_, _, _) => m' := ParamMeans(x, t, e, s, st, m);
      case Const(_, _, _) => m' := ConstantMeans(x, t, e, s, st, m);
      case Literal(_, _, _, _) => m' := ConstantMeans(x, t, e, s, st, m);
      case Apply(_, _, _, _, _) => m' := ApplySteps(x, t, e, s, st, m);
      case Fill(_, _, _, _, _, _) => m' := FillMeans(x, t, e, s, st, m);
      case WindowAt(_, _, _, _, _, _, _) => m' := WindowMeans(x, t, e, s, st, m);
      case Reduce(_, _, _, _, _, _, _, _) => m' := ReduceMeans(x, t, e, s, st, m);
      case Metadata(_, _, _) => m' := MetadataMeans(x, t, e, s, st, m);
      case Cond(_, _, _, _) => m' := CondMeans(x, t, e, s, st, m);
      case Block(_, _, _, _) => m' := BlockMeans(x, t, e, s, st, m);
      case Elem(_, _, _, _) => m' := ElemMeans(x, t, e, s, st, m);
      case TupleBlock(_, _, _) => m' := FirstMeans(x, t, e, s, st, m);
      case _ => m' := m;
    }
  }

  // -- the theorem ----------------------------------------------------------------

  // -- the theorems -----------------------------------------------------------------

  /** An expression that can be lowered is lowered, and its id stands for its value. */
  lemma LowerMeans(x: Run, t: Table, e: Expr, s: Scope, st: State, m: Model) returns (m': Model)
    requires Ready(x, t, s, st, m) && WellScoped(x.sem, e, s, t) && Remembers(t, st) && Lowers(e)
    requires Lower(e, st).Success? ==> Lower(e, st).value.1.blobs <= x.blobs
    ensures Lower(e, st).Success? && Remembers(t, Lower(e, st).value.1)
    ensures var (id, st') := Lower(e, st).value; Good(x, t, s, st, m, id, st', m', EvalIn(x, e, s))
  {
    hide Ready, WellScoped, Remembers, Lowers, Lower, Good;
    LowerExactly(x.sem, e, s, t, st);
    assert Remembers(t, Lower(e, st).value.1) by { AfterRemembers(t, st, Lower(e, st).value.1); }
    m' := LowerSteps(x, t, e, s, st, m);
  }

  /** An operation on operands that can be lowered, however many, becomes a node that computes it. */
  lemma ApplyMeans(x: Run, t: Table, e: Expr, s: Scope, st: State, m: Model) returns (m': Model)
    requires Ready(x, t, s, st, m) && WellScoped(x.sem, e, s, t) && Remembers(t, st) && e.Apply? && e.ref !in st.ids
    requires AllLower(e.args)
    requires LowerNew(e, st).Success? ==> LowerNew(e, st).value.1.blobs <= x.blobs
    ensures LowerNew(e, st).Success?
    ensures var (id, st') := LowerNew(e, st).value; Good(x, t, s, st, m, id, st', m', EvalIn(x, e, s))
  {
    hide Ready, WellScoped, Remembers, LowerNew, Good, AllLower;
    LowerNewExactly(x.sem, e, s, t, st);
    m' := ApplySteps(x, t, e, s, st, m);
  }

  /** A well-scoped program is lowered exactly if each of its outputs can be; and then, for all arguments
      and every iteration budget, the lowered graph runs without an undefined id, operand or blob, it
      ends exactly when all the expressions have values, and then its outputs are those values. */
  lemma LoweringPreservesMeaning(sem: Sem, outputs: seq<Expr>, t: Table, args: seq<Value>, fuel: nat)
    requires Lawful(sem) && AllScoped(sem, outputs, Top(|args|), t)
    ensures ToGraph(outputs).Success? <==> AllLower(outputs)
    ensures AllLower(outputs) ==>
              var g := ToGraph(outputs).value;
              Same(EvalSub(sem, g.blobs, g.main, args, [], fuel), EvalAll(sem, outputs, Frame(None, args), fuel))
  {
    hide AllLower, AllScoped;
    ToGraphExactly(sem, outputs, |args|, t);
    if ToGraph(outputs).Success? {
      assert Isolated(EMPTY) == EMPTY;
      var (ids, st) := LowerAll(outputs, EMPTY).value;
      var x := Run(sem, st.blobs, args, fuel);
      RegionMeans(x, t, outputs, |args|, EMPTY);
    }
  }
}
