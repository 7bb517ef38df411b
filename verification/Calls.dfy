/** A call, from the client's expressions to the worker's results: arguments are sent in the order of
    the graph's inputs, and the worker binds them by position. */
module Calls {
  import opened Values
  import opened GraphIR
  import opened GraphForm
  import opened Typing
  import opened Reentry
  import opened Capture
  import opened Lowering
  import opened LoweringForm
  import opened Validator
  import opened ExprMeaning
  import opened LoweringExact
  import opened LoweringStill
  import opened LoweringSound
  import opened LoweringTyped
  import opened NestedLoops
  import opened GraphRuns
  import opened Workers

  /** A client tensor: resident in this worker, in some generation of it, or anywhere else. */
  datatype Param = OnWorker(generation: nat, id: nat) | Elsewhere(v: Value)

  datatype CallError = StaleTensor(tensor: nat, worker: nat) | MissingParameter(index: nat)

  /** A parameter that is not there, or belongs to another generation. */
  predicate Unsendable(params: seq<Param>, index: nat, generation: nat, error: CallError) {
    if index >= |params| then error == MissingParameter(index)
    else
      params[index].OnWorker? && params[index].generation != generation
      && error == StaleTensor(params[index].generation, generation)
  }

  /** One argument for each graph input: a handle if the tensor is resident in this generation, its
      bytes if it is elsewhere, and an error exactly if one is missing or of an earlier generation. */
  function BuildInputs(inputs: seq<GraphInput>, params: seq<Param>, generation: nat): (r: Result<seq<Argument>,
      CallError>)
    ensures r.Success? ==> |r.value| == |inputs|
    ensures r.Success? <==> forall k :: 0 <= k < |inputs| ==>
        inputs[k].index < |params| &&
        (params[inputs[k].index].OnWorker? ==> params[inputs[k].index].generation == generation)
    ensures r.Failure? ==> exists k :: 0 <= k < |inputs| && Unsendable(params, inputs[k].index, generation, r.error)
  {
    if inputs == [] then Success([])
    else
      var before :- BuildInputs(inputs[..|inputs| - 1], params, generation);
      var index := inputs[|inputs| - 1].index;
      if index >= |params| then Failure(MissingParameter(index))
      else match params[index]
        case OnWorker(g, id) => if g == generation then Success(before + [ByHandle(id)])
            else Failure(StaleTensor(g, generation))
        case Elsewhere(v) => Success(before + [ByBlob(v)])
  }

  /** What a parameter holds. */
  predicate Holding(p: Param, values: map<nat, Value>, v: Value) {
    match p
    case OnWorker(_, id) => id in values && values[id] == v
    case Elsewhere(w) => w == v
  }

  /** The arguments that a graph's inputs pick, in the graph's order. */
  function Picked(inputs: seq<GraphInput>, args: seq<Value>): (r: seq<Value>)
    requires forall k :: 0 <= k < |inputs| ==> inputs[k].index < |args|
    ensures |r| == |inputs| && forall k :: 0 <= k < |inputs| ==> r[k] == args[inputs[k].index]
  {
    seq(|inputs|, k requires 0 <= k < |inputs| => args[inputs[k].index])
  }

  /** The worker gets the picked values, and no handle of another generation is ever sent. */
  lemma {:induction false} BuiltInputs(inputs: seq<GraphInput>, params: seq<Param>, generation: nat, values: map<nat,
      Value>, args: seq<Value>)
    requires |params| == |args| && forall k :: 0 <= k < |params| ==>
        (params[k].OnWorker? && params[k].generation != generation) || Holding(params[k], values, args[k])
    requires BuildInputs(inputs, params, generation).Success?
    ensures forall k :: 0 <= k < |inputs| ==> inputs[k].index < |args|
    ensures var r := BuildInputs(inputs, params, generation).value;
            AllResident(r, values) && ArgValues(r, values) == Picked(inputs, args)
  {
    if inputs != [] {
      BuiltInputs(inputs[..|inputs| - 1], params, generation, values, args);
      var r, before := BuildInputs(inputs, params, generation).value,
          BuildInputs(inputs[..|inputs| - 1], params, generation).value;
      var index := inputs[|inputs| - 1].index;
      assert r[..|r| - 1] == before;
      assert forall i :: 0 <= i < |before| ==> r[i] == before[i];
      assert Holding(params[index], values, args[index]);
      assert ArgValues(r, values) == ArgValues(before, values) + [args[index]];
      assert Picked(inputs, args) == Picked(inputs[..|inputs| - 1], args) + [args[index]];
    }
  }

  // -- binding by position --------------------------------------------------------

  /** The graph as the worker binds it: input k is the k-th argument. */
  function AsPositional(g: Sub): Sub {
    g.(inputs := Renumbered(g.inputs))
  }

  function Renumbered(inputs: seq<GraphInput>): (r: seq<GraphInput>)
    ensures |r| == |inputs| && forall k :: 0 <= k < |r| ==> r[k] == inputs[k].(index := k)
  {
    seq(|inputs|, k requires 0 <= k < |inputs| => inputs[k].(index := k))
  }

  lemma {:induction false} PositionalBinds(inputs: seq<GraphInput>, args: seq<Value>, n: nat, env: Env)
    requires n <= |inputs| && forall k :: 0 <= k < |inputs| ==> inputs[k].index < |args|
    ensures BindInputs(Renumbered(inputs)[..n], Picked(inputs, args), env) == BindInputs(inputs[..n], args, env)
  {
    if n > 0 {
      PositionalBinds(inputs, args, n - 1, env);
      assert Renumbered(inputs)[..n][..n - 1] == Renumbered(inputs)[..n - 1] && inputs[..n][..n - 1] == inputs[..n - 1];
    }
  }

  /** Sending arguments in the graph's order and binding them by position is binding them by index. */
  lemma PositionalRun(sem: Sem, blobs: seq<Bytes>, g: Sub, args: seq<Value>, sym: seq<int>, fuel: nat)
    requires forall k :: 0 <= k < |g.inputs| ==> g.inputs[k].index < |args|
    ensures EvalSub(sem, blobs, AsPositional(g), Picked(g.inputs, args), sym, fuel) ==
        EvalSub(sem, blobs, g, args, sym, fuel)
  {
    var env := BindConstants(sem, blobs, g.constants);
    if env.Ok? {
      PositionalBinds(g.inputs, args, |g.inputs|, env.value);
      assert Renumbered(g.inputs)[..|g.inputs|] == Renumbered(g.inputs) && g.inputs[..|g.inputs|] == g.inputs;
    }
  }

  lemma {:induction false} SameIds(a: seq<GraphInput>, b: seq<GraphInput>)
    requires |a| == |b| && forall k :: 0 <= k < |a| ==> a[k].id == b[k].id
    ensures InputIds(a) == InputIds(b)
  {
    if a != [] {
      SameIds(a[..|a| - 1], b[..|b| - 1]);
    }
  }

  lemma PositionalOk(g: Sub)
    requires SubOk(g)
    ensures SubOk(AsPositional(g))
  {
    SameIds(Renumbered(g.inputs), g.inputs);
  }

  /** Well formed, with known kernels: what the executor asks of a graph's nodes. */
  lemma {:induction false} KindsWf(sub: Sub)
    requires SubOk(sub) && AllKinds(sub.nodes)
    ensures AllWf(sub.nodes)
    decreases sub
  {
    forall k | 0 <= k < |sub.nodes| ensures NodeWf(sub.nodes[k]) {
      FirstBelow(sub.nodes, |AllIds(sub.inputs, sub.constants, sub.nodes)|, k);
      assert NodeKind(sub.nodes[k]);
      match sub.nodes[k]
      case Compute(_, _, _) =>
      case Fold(_, _, _, _, _, fn, _) => KindsWf(fn);
      case While(_, cond, body, _) =>
        KindsWf(cond);
        KindsWf(body);
    }
  }

  // -- end to end ---------------------------------------------------------------------

  /** Binding by position keeps types. */
  lemma PositionalTyped(sem: Sem, g: Sub, args: seq<Value>, s: seq<seq<nat>>)
    requires TypedSub(sem, g, s) && |s| == |args| && forall k :: 0 <= k < |s| ==> sem.shape(args[k]) == s[k]
    ensures forall k :: 0 <= k < |g.inputs| ==> g.inputs[k].index < |args|
    ensures TypedSub(sem, AsPositional(g), ShapesOfValues(sem, Picked(g.inputs, args)))
  {
    hide TypedNodes, TypedConstants, TypedInputs;
    SameShapes(g.inputs, Renumbered(g.inputs));
    SameDeclared(g);
    InputsTypedStill(sem, g.inputs, args, s, DeclaredShapes(g));
  }

  lemma SameDeclared(g: Sub)
    requires InputShapes(Renumbered(g.inputs)) == InputShapes(g.inputs)
    ensures DeclaredShapes(AsPositional(g)) == DeclaredShapes(g)
  {
  }

  lemma InputsTypedStill(sem: Sem, inputs: seq<GraphInput>, args: seq<Value>, s: seq<seq<nat>>, shapes: Shapes)
    requires TypedInputs(inputs, s, shapes) && |s| == |args|
    requires forall k :: 0 <= k < |s| ==> sem.shape(args[k]) == s[k]
    ensures forall k :: 0 <= k < |inputs| ==> inputs[k].index < |args|
    ensures TypedInputs(Renumbered(inputs), ShapesOfValues(sem, Picked(inputs, args)), shapes)
  {
  }

  lemma {:induction false} SameShapes(a: seq<GraphInput>, b: seq<GraphInput>)
    requires |a| == |b| && forall k :: 0 <= k < |a| ==> a[k].id == b[k].id && a[k].spec == b[k].spec
    ensures InputShapes(a) == InputShapes(b)
  {
    if a != [] {
      SameShapes(a[..|a| - 1], b[..|b| - 1]);
    }
  }

  /** Loops that hold no loop, and folds without any, can be entered. */
  lemma FlatEnters(sem: Sem, nodes: seq<Node>)
    requires AllWf(nodes) && forall k :: 0 <= k < |nodes| ==> Flat(nodes[k])
    ensures AllEnter(sem, nodes)
  {
    hide NodeWf, NoneLoops;
    forall k | 0 <= k < |nodes| ensures EntersSafely(sem, nodes[k]) {
      assert NodeWf(nodes[k]) && Flat(nodes[k]);
      if nodes[k].While? {
        InnermostEnters(sem, nodes[k]);
      }
    }
  }

  /** The arguments have the shapes of the program's parameters. */
  predicate ArgsFit(sem: Sem, params: seq<Expr>, args: seq<Value>) {
    |params| == |args| && forall k :: 0 <= k < |args| ==> sem.shape(args[k]) == SpecOf(params[k]).shape
  }

  /** A well-typed program whose outputs can be lowered and have values is ready to run on the worker, with
      exactly those values as its results: what the worker computes for it is what the expressions mean.
      If loops are not nested, nothing is asked of the emitted graph. */
  lemma LoweredReady(sem: Sem, outputs: seq<Expr>, c: Context, t: Table, args: seq<Value>, values: seq<Value>,
      fuel: nat)
    requires Lawful(sem) && ShapeLaw(sem) && AllScoped(sem, outputs, Top(|args|), t) && AllLower(outputs)
    requires ProgramTyped(sem, outputs, c, t) && ArgsFit(sem, c.params, args)
    requires EvalAll(sem, outputs, Frame(None, args), fuel) == Some(values)
    requires c.depth > 1 && ToGraph(outputs).Success? ==> AllEnter(sem, ToGraph(outputs).value.main.nodes)
    ensures ToGraph(outputs).Success?
    ensures var g := ToGraph(outputs).value;
            && (forall k :: 0 <= k < |g.main.inputs| ==> g.main.inputs[k].index < |args|)
            && GraphReady(sem, g.blobs, AsPositional(g.main), Picked(g.main.inputs, args), values, fuel)
  {
    hide TypedSub, ProgramTyped, AllScoped, EvalAll, Lawful, ShapeLaw, SubOk, AllWf, AllEnter, AllKinds, DepthOk,
        AllLower, ToGraph, EvalSub, Specs;
    LoweringPreservesMeaning(sem, outputs, t, args, fuel);
    var g := ToGraph(outputs).value;
    LoweringKeepsTypes(sem, outputs, c, t);
    LoweredGraphOk(outputs);
    KindsWf(g.main);
    if c.depth <= 1 {
      LowerEnters(sem, outputs, c, t);
    }
    PositionalTyped(sem, g.main, args, Sizes(SpecsOf(c.params)));
    PositionalOk(g.main);
    PositionalRun(sem, g.blobs, g.main, args, [], fuel);
  }

  lemma LowerEnters(sem: Sem, outputs: seq<Expr>, c: Context, t: Table)
    requires ProgramTyped(sem, outputs, c, t) && ToGraph(outputs).Success? && c.depth <= 1
    ensures AllEnter(sem, ToGraph(outputs).value.main.nodes)
  {
    hide TypedSub, ProgramTyped, ToGraph, Specs, AllKinds, SubOk, AllEnter, AllWf;
    var nodes := ToGraph(outputs).value.main.nodes;
    LoweringKeepsTypes(sem, outputs, c, t);
    LoweredGraphOk(outputs);
    KindsWf(ToGraph(outputs).value.main);
    forall k | 0 <= k < |nodes| ensures Flat(nodes[k]) {
      assert DepthOk(nodes[k], c.depth);
    }
    FlatEnters(sem, nodes);
  }

  /** A call, from expressions to results: an executable of a lowered program in which no fold's function
      reads a runtime scalar or holds a loop, or of one that is sheltered otherwise, is answered with
      what the program's expressions mean on the client's tensors. */
  lemma CallMeans(w: Worker, id: nat, outputs: seq<Expr>, c: Context, t: Table, params: seq<Param>, generation: nat,
      args: seq<Value>, values: seq<Value>, fuel: nat)
    requires w.Valid() && id in w.executables.items && ToGraph(outputs).Success?
    requires var g, run := ToGraph(outputs).value, w.executables.items[id];
             && run.graph == AsPositional(g.main) && run.exec.blobs == g.blobs
             && (AllStill(outputs, false) || Sheltered(run.graph))
             && BuildInputs(g.main.inputs, params, generation).Success?
    requires Lawful(w.dev.sem) && ShapeLaw(w.dev.sem) && AllScoped(w.dev.sem, outputs, Top(|args|), t)
    requires ProgramTyped(w.dev.sem, outputs, c, t) && ArgsFit(w.dev.sem, c.params, args)
    requires EvalAll(w.dev.sem, outputs, Frame(None, args), fuel) == Some(values)
    requires c.depth <= 1 || AllEnter(w.dev.sem, ToGraph(outputs).value.main.nodes)
    requires |params| == |args| && forall k :: 0 <= k < |params| ==>
        (params[k].OnWorker? && params[k].generation != generation) || Holding(params[k], w.Values(), args[k])
    ensures var sent := BuildInputs(ToGraph(outputs).value.main.inputs, params, generation).value;
            && AllResident(sent, w.Values()) && w.Expects(id, sent, values, fuel)
            && w.Gives(id, sent, values) == values
  {
    hide Worker.GraphAt, Worker.Separate, Worker.BuffersOk, GraphReady, ProgramTyped, AllScoped, Lawful, ShapeLaw,
        EvalAll, AllEnter, Worker.Values, CompiledGraph.GraphOk, ToGraph, AllStill, AllLower;
    var g := ToGraph(outputs).value;
    BuiltInputs(g.main.inputs, params, generation, w.Values(), args);
    ToGraphExactly(w.dev.sem, outputs, |args|, t);
    if AllStill(outputs, false) {
      StillProgram(outputs);
    }
    LoweredReady(w.dev.sem, outputs, c, t, args, values, fuel);
    w.GivesRight(id, BuildInputs(g.main.inputs, params, generation).value, values, fuel);
  }
}
