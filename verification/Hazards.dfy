/** Why results are copied, passed-through outputs cloned, and hidden starts kept out of traces: what
    goes wrong otherwise. */
module Hazards {
  import opened Values
  import opened GraphIR
  import opened LazyTensors
  import opened LazySound
  import opened SymbolicPlan
  import opened Devices
  import opened Capture
  import opened Frozen
  import opened Segments
  import opened GraphRuns

  /** A result that is kept without a copy is overwritten by the next replay: what was read as one
      call's value then reads as the other's. */
  method ResultOverwritten(dev: Device, jit: Jit, trace: seq<Tensor>, first: seq<Tensor>, second: seq<Tensor>,
      ghost p: Path, j: nat) returns (kept: Option<Tensor>, jit': Jit)
    requires dev.Valid() && jit.Captured? && jit.trace == trace && JitOk(jit, dev.owner, p) && j < |trace|
    requires !Realized(dev.sem, trace[j])
    requires ReadAll(dev.sem, first, dev.Mem()).Ok? && ReadAll(dev.sem, second, dev.Mem()).Ok?
    requires SupportAll(first) !! OwnedBy(dev.owner, p) && SupportAll(second) !! OwnedBy(dev.owner, p)
    requires ReadAll(dev.sem, trace, Memory([], ReadAll(dev.sem, first, dev.Mem()).value, [])).Ok?
    requires ReadAll(dev.sem, trace, Memory([], ReadAll(dev.sem, second, dev.Mem()).value, [])).Ok?
    modifies dev
    ensures kept.Some? ==>
              Read(dev.sem, kept.value, dev.Mem()) ==
                  Ok(old(ReadAll(dev.sem, trace, Memory([], ReadAll(dev.sem, second, dev.Mem()).value, [])).value[j]))
  {
    OwnedOuts(jit, dev.owner, p, SupportAll(first));
    OwnedOuts(jit, dev.owner, p, SupportAll(second));
    ghost var mem0, owner0 := dev.Mem(), dev.owner;
    var r1, jit1 := dev.CallJit(jit, trace, first, [], p);
    if r1.None? {
      return None, jit1;
    }
    ReadElsewhere(dev.sem, second, mem0, dev.Mem(), owner0, p);
    var r2, jit2 := dev.CallJit(jit1, trace, second, [], p);
    jit' := jit2;
    kept := if r2.Some? then Some(r1.value[j]) else None;
  }

  lemma OwnedOuts(jit: Jit, owner: seq<Option<Path>>, p: Path, s: set<nat>)
    requires JitOk(jit, owner, p) && jit.Captured? && s !! OwnedBy(owner, p)
    ensures forall j :: 0 <= j < |jit.outs| ==> jit.outs[j] !in s
  {
    forall j | 0 <= j < |jit.outs| ensures jit.outs[j] !in s {
      assert jit.outs[j] in OwnedBy(owner, p);
    }
  }

  lemma ReadElsewhere(sem: Sem, ts: seq<Tensor>, mem: Memory, mem': Memory, owner: seq<Option<Path>>, p: Path)
    requires ReadAll(sem, ts, mem).Ok? && SupportAll(ts) !! OwnedBy(owner, p) && |owner| == |mem.bufs| <= |mem'.bufs|
    requires mem'.args == mem.args && mem'.sym == mem.sym
    requires forall b :: 0 <= b < |mem.bufs| && owner[b] != Some(p) ==> mem'.bufs[b] == mem.bufs[b]
    ensures ReadAll(sem, ts, mem') == ReadAll(sem, ts, mem)
  {
    ReadAllBound(sem, ts, mem);
    ReadAllStable(sem, ts, mem, mem');
  }

  /** An output that the trace passes through, captured without a clone, is the capturing call's
      input again on every replay, whatever the replay is given. */
  method PassedThroughStale(dev: Device, i: nat, captured: seq<Tensor>, replayed: seq<Tensor>, ghost p: Path)
      returns (r: Option<seq<Tensor>>)
    requires dev.Valid() && i < |captured| && i < |replayed|
    requires ReadAll(dev.sem, captured, dev.Mem()).Ok? && ReadAll(dev.sem, replayed, dev.Mem()).Ok?
    modifies dev
    ensures r.Some? ==> r.value == [captured[i]]
  {
    ReadAllAt(dev.sem, captured, dev.Mem());
    ReadAllAt(dev.sem, replayed, dev.Mem());
    ghost var vs, ws := ReadAll(dev.sem, captured, dev.Mem()).value, ReadAll(dev.sem, replayed, dev.Mem()).value;
    ReadOne(dev.sem, Arg(i), Memory([], vs, []));
    ReadOne(dev.sem, Arg(i), Memory([], ws, []));
    var jit := Captured([Arg(i)], [|dev.bufs|], [captured[i]]);
    ReadAllBound(dev.sem, replayed, dev.Mem());
    ghost var mem0 := dev.Mem();
    var unused := dev.Alloc(Read(dev.sem, captured[i], dev.Mem()).value, Some(p));
    ReadAllStable(dev.sem, replayed, mem0, dev.Mem());
    var jit';
    r, jit' := dev.CallJit(jit, [Arg(i)], replayed, [], p);
  }

  // -- starts hidden in a fold ------------------------------------------------------------

  const SCALAR := Spec([], "s32")
  const LIST := Spec([1], "s32")
  const TABLE := Spec([2], "s32")
  const NO_ATTRS: Attrs := map[]
  const RESHAPE := Op("reshape", NO_ATTRS, None, SCALAR)
  const PICK := Window(Slice, NO_ATTRS, [1], [Input(0)], LIST)

  /** A reduce function: the cell of a constant table that the element names. */
  const CELL_OF := Sub([GraphInput(0, 0, SCALAR), GraphInput(1, 1, SCALAR)], [Constant(2, Data(0), TABLE)],
                       [Compute(3, PICK, [2, 1]), Compute(4, RESHAPE, [3])], [Out(4, SCALAR)])

  /** A list of one position and an accumulator, reduced by it. */
  const LOOKUP := Sub([GraphInput(0, 0, LIST), GraphInput(1, 1, SCALAR)], [],
                      [Fold(2, "reduce", NO_ATTRS, [0, 1], 1, CELL_OF, SCALAR)], [Out(2, SCALAR)])

  /** The top-level test that sends a graph to eager evaluation does not look inside folds. */
  lemma {:induction false} HiddenStartNotEager()
    ensures !RunsEagerly(LOOKUP.nodes) && !AllJitSafe(LOOKUP.nodes) && NoneLoops(LOOKUP.nodes)
  {
    assert HasDynamicStarts(CELL_OF.nodes[0]) && !Loops(CELL_OF.nodes[0]) && !Loops(CELL_OF.nodes[1]);
    assert !JitSafe(LOOKUP.nodes[0]);
    assert !Loops(LOOKUP.nodes[0]);
  }

  /** The start that a list gives. */
  function PickedAt(sem: Sem, table: Value, list: Value): int {
    Clamp(IntOf(sem.toNumber(sem.apply(Element("reduce", NO_ATTRS, 0), [list]))), if sem.shape(table) == [] then 0
        else sem.shape(table)[0] as int - 1)
  }

  /** What the reduce gives, with the table read at a start. */
  function PickValue(sem: Sem, table: Value, list: Value, at: int): Value {
    sem.apply(FoldFinish("reduce", NO_ATTRS, SCALAR), [list,
        sem.apply(RESHAPE, [sem.window(PICK.(starts := []), [table], [at])])])
  }

  /** The reduce with its start fixed. */
  function PickTensor(table: Value, list: Tensor, at: int): Tensor {
    Lazy(FoldFinish("reduce", NO_ATTRS, SCALAR),
        [list, Lazy(RESHAPE, [Lazy(PICK.(starts := [Static(at)]), [Lit(table, true)])])])
  }

  lemma {:induction false} PickRead(sem: Sem, table: Value, list: Tensor, at: int, mem: Memory)
    requires Read(sem, list, mem).Ok?
    ensures Read(sem, PickTensor(table, list, at), mem) == Ok(PickValue(sem, table, Read(sem, list, mem).value, at))
  {
    var k, t, none := PICK.(starts := [Static(at)]), Lit(table, true), [];
    ReadOne(sem, t, mem);
    assert ResolveStarts(sem, k, [table], mem.sym, 0) == Ok(none);
    assert ResolveStarts(sem, k, [table], mem.sym, 1) == Ok(none + [at]);
    assert none + [at] == [at] && [table][..1] == [table];
    assert Read(sem, Lazy(k, [t]), mem) == Ok(sem.window(PICK.(starts := []), [table], [at]));
    ReadOne(sem, Lazy(k, [t]), mem);
    ReadTwo(sem, list, Lazy(RESHAPE, [Lazy(k, [t])]), mem);
  }

  /** Traced, the function keeps the start that its element has then. */
  lemma {:induction false} PickTraced(sem: Sem, blob: Bytes, acc: Tensor, e: Tensor, mem: Memory, at: int)
    requires Read(sem, e, mem).Ok? && |sem.shape(sem.literal(blob, TABLE))| > 0
    requires at == Clamp(IntOf(sem.toNumber(Read(sem, e, mem).value)),
        sem.shape(sem.literal(blob, TABLE))[0] as int - 1)
    ensures LazySub(sem, [blob], CELL_OF, [acc, e], mem) ==
        Ok([Lazy(RESHAPE, [Lazy(PICK.(starts := [Static(at)]), [Lit(sem.literal(blob, TABLE), true)])])])
  {
    var table := Lit(sem.literal(blob, TABLE), true);
    var inputs, nodes := CELL_OF.inputs, CELL_OF.nodes;
    var e0: TensorEnv, e1: TensorEnv, e2: TensorEnv := map[2 := table], map[2 := table, 0 := acc],
        map[2 := table, 0 := acc, 1 := e];
    assert CELL_OF.constants[..0] == [] && LiteralTensors(sem, [blob], CELL_OF.constants[..0]) == Ok(map[]);
    assert LiteralTensors(sem, [blob], CELL_OF.constants) == Ok(e0);
    assert inputs[..1] == [inputs[0]] && inputs[..1][..0] == [];
    assert BindTensors(inputs[..1][..0], [acc, e], e0) == Ok(e0);
    assert BindTensors(inputs[..1], [acc, e], e0) == Ok(e1);
    assert BindTensors(inputs, [acc, e], e0) == Ok(e2);
    PickKernel(sem, table, e, mem, at);
    var cell := Lazy(PICK.(starts := [Static(at)]), [table]);
    assert nodes[..1] == [nodes[0]] && nodes[..1][..0] == [];
    assert Tensors(e2, [2, 1]).value == [table, e];
    assert LazyNodes(sem, [blob], nodes[..1][..0], e2, mem) == Ok(e2);
    assert LazyNodes(sem, [blob], nodes[..1], e2, mem) == Ok(e2[3 := cell]);
    assert Tensors(e2[3 := cell], [3]).value == [cell];
    assert LazyNodes(sem, [blob], nodes, e2, mem) == Ok(e2[3 := cell][4 := Lazy(RESHAPE, [cell])]);
    assert Tensors(e2[3 := cell][4 := Lazy(RESHAPE, [cell])], OutIds(CELL_OF.outputs)).value == [Lazy(RESHAPE, [cell])];
  }

  lemma {:induction false} PickKernel(sem: Sem, table: Tensor, e: Tensor, mem: Memory, at: int)
    requires table.Lit? && Read(sem, e, mem).Ok? && |sem.shape(table.v)| > 0
    requires at == Clamp(IntOf(sem.toNumber(Read(sem, e, mem).value)), sem.shape(table.v)[0] as int - 1)
    ensures LazyKernel(sem, PICK, [table, e], mem) == Ok(Lazy(PICK.(starts := [Static(at)]), [table]))
  {
    var vs, none := [table.v, Read(sem, e, mem).value], [];
    ReadTwo(sem, table, e, mem);
    assert HasInputStart(PICK) by { assert PICK.starts[0].Input?; }
    assert FreezeStarts(sem, PICK, vs, 0) == Ok(none);
    assert ResolveStart(sem, PICK, vs, [], 0) == Ok(at);
    assert FreezeStarts(sem, PICK, vs, 1) == Ok(none + [Static(at)]);
    assert none + [Static(at)] == [Static(at)] && [table, e][..1] == [table];
  }

  /** Captured whole, the graph keeps the start of the inputs it was captured with. */
  lemma {:induction false} HiddenStartFrozen(sem: Sem, blob: Bytes, list: Value, acc: Value)
    requires |sem.shape(sem.literal(blob, TABLE))| > 0
    ensures var table := sem.literal(blob, TABLE);
            GraphTrace(sem, [blob], LOOKUP, [list, acc]) ==
                Ok([Lazy(Copy, [PickTensor(table, Arg(0), PickedAt(sem, table, list))])])
  {
    var table, mem, args, node := sem.literal(blob, TABLE), Memory([], [list, acc], []), [Arg(0), Arg(1)],
        LOOKUP.nodes[0];
    var at := PickedAt(sem, table, list);
    var init, e := Lazy(FoldInit("reduce", NO_ATTRS), args), Lazy(Element("reduce", NO_ATTRS, 0), [Arg(0)]);
    ReadOne(sem, Arg(0), mem);
    PickTraced(sem, blob, init, e, mem, at);
    assert LazyFold(sem, [blob], node, Arg(0), init, 0, mem) == Ok(init);
    assert LazyFold(sem, [blob], node, Arg(0), init, 1, mem) ==
        Ok(Lazy(RESHAPE, [Lazy(PICK.(starts := [Static(at)]), [Lit(table, true)])]));
    assert LazyNode(sem, [blob], node, args, mem) == Ok(PickTensor(table, Arg(0), at));
    var inputs, none: TensorEnv := LOOKUP.inputs, map[];
    var env: TensorEnv := map[0 := Arg(0), 1 := Arg(1)];
    assert ArgList(2) == args;
    assert inputs[..1] == [inputs[0]] && inputs[..1][..0] == [];
    assert BindTensors(inputs[..1][..0], args, none) == Ok(none);
    assert BindTensors(inputs[..1], args, none) == Ok(none[0 := Arg(0)]);
    assert BindTensors(inputs, args, none) == Ok(env);
    assert LOOKUP.nodes[..0] == [] && LazyNodes(sem, [blob], LOOKUP.nodes[..0], env, mem) == Ok(env);
    assert Tensors(env, [0, 1]).value == args;
    var env' := env[2 := PickTensor(table, Arg(0), at)];
    assert LazyNodes(sem, [blob], LOOKUP.nodes, env, mem) == Ok(env');
    assert Tensors(env', OutIds(LOOKUP.outputs)).value == [PickTensor(table, Arg(0), at)];
    assert Copies(sem, [PickTensor(table, Arg(0), at)]) == [Lazy(Copy, [PickTensor(table, Arg(0), at)])];
  }

  /** A replay reads the table where the captured list named it. */
  lemma {:induction false} HiddenStartReplayed(sem: Sem, blob: Bytes, list: Value, acc: Value, now: Value, acc': Value)
    requires |sem.shape(sem.literal(blob, TABLE))| > 0
    ensures var table, trace := sem.literal(blob, TABLE), GraphTrace(sem, [blob], LOOKUP, [list, acc]);
            && trace.Ok? && |trace.value| == 1 && !Realized(sem, trace.value[0])
            && ReadAll(sem, trace.value, Memory([], [now, acc'], [])) ==
                Ok([PickValue(sem, table, now, PickedAt(sem, table, list))])
  {
    var table, mem := sem.literal(blob, TABLE), Memory([], [now, acc'], []);
    var t := PickTensor(table, Arg(0), PickedAt(sem, table, list));
    HiddenStartFrozen(sem, blob, list, acc);
    PickRead(sem, table, Arg(0), PickedAt(sem, table, list), mem);
    ReadOne(sem, t, mem);
    ReadOne(sem, Lazy(Copy, [t]), mem);
  }

  /** The graph reads it where its own list names it: a replay is right exactly when the two cells
      give the same. */
  lemma {:induction false} HiddenStartMeans(sem: Sem, blob: Bytes, list: Value, acc: Value, fuel: nat)
    requires |sem.shape(sem.literal(blob, TABLE))| > 0 && EvalSub(sem, [blob], LOOKUP, [list, acc], [], fuel).Ok?
    ensures var table := sem.literal(blob, TABLE);
            EvalSub(sem, [blob], LOOKUP, [list, acc], [], fuel) ==
                Ok([PickValue(sem, table, list, PickedAt(sem, table, list))])
  {
    hide GraphTrace, EvalSub;
    HiddenStartNotEager();
    assert Simple(CELL_OF.nodes[0]) && Simple(CELL_OF.nodes[1]);
    assert Simple(LOOKUP.nodes[0]);
    OwnTrace(sem, [blob], LOOKUP, [list, acc], EvalSub(sem, [blob], LOOKUP, [list, acc], [], fuel).value, fuel);
    HiddenStartReplayed(sem, blob, list, acc, list, acc);
  }

  // -- one in which it is wrong, and passes the replay validation -----------------------------

  /** Lists with one element: 0 in u, 1 in t, 2 in v and 3 in w.  The table has two cells, u and v. */
  function PickSem(u: Value, t: Value, v: Value, w: Value, c: Elem): Sem {
    Sem((k: Kernel, args: seq<Value>) => if k.FoldFinish? && |args| == 2 then args[1] else if args == [] then u
        else args[0],
        (_: Kernel, _: seq<Value>, at: seq<int>) => if at == [0] then u else v,
        (_: Number, _: Spec) => u, (_: Bytes, _: Spec) => u, (_: Value) => [2], (_: Value) => true,
        (x: Value) => if x == u then 0.0 else if x == t then 1.0 else if x == v then 2.0 else 3.0,
        (_: string) => false, (_: Kernel, _: seq<seq<nat>>) => true,
        (_: Spec, _: seq<Value>, _: seq<Value>, d: Value) => d,
        (_: Value, _: Coord) => c, (_: Elem) => true, (_: Spec, e: Elem) => e)
  }

  lemma {:induction false} PickCells(u: Value, t: Value, v: Value, w: Value, c: Elem, list: Value)
    requires u != t && u != v && u != w && t != v && t != w && v != w && list in {u, t, v, w}
    ensures var sem := PickSem(u, t, v, w, c);
            && |sem.shape(sem.literal([], TABLE))| > 0
            && PickedAt(sem, sem.literal([], TABLE), list) == (if list == u then 0 else 1)
            && forall now: Value, at :: PickValue(sem, sem.literal([], TABLE), now, at) == (if at == 0 then u else v)
  {
    var sem := PickSem(u, t, v, w, c);
    assert sem.apply(Element("reduce", NO_ATTRS, 0), [list]) == list;
    assert IntOf(0.0) == 0 && IntOf(1.0) == 1 && IntOf(2.0) == 2 && IntOf(3.0) == 3;
    forall now: Value, at: int ensures PickValue(sem, sem.literal([], TABLE), now, at) == if at == 0 then u else v {
      var cell := sem.window(PICK.(starts := []), [sem.literal([], TABLE)], [at]);
      assert at == 0 ==> [at] == [0];
      assert at != 0 ==> [at][0] != [0][0];
      assert sem.apply(RESHAPE, [cell]) == cell;
    }
  }

  /** The graph on each of the lists. */
  lemma {:induction false} PickGraph(u: Value, t: Value, v: Value, w: Value, c: Elem, list: Value, acc: Value,
      fuel: nat)
    requires u != t && u != v && u != w && t != v && t != w && v != w && list in {u, t, v, w}
    ensures EvalSub(PickSem(u, t, v, w, c), [[]], LOOKUP, [list, acc], [], fuel) == Ok([if list == u then u else v])
  {
    hide EvalSub;
    PickCells(u, t, v, w, c, list);
    LookupOk(PickSem(u, t, v, w, c), [], list, acc, fuel);
    HiddenStartMeans(PickSem(u, t, v, w, c), [], list, acc, fuel);
  }

  lemma {:induction false} LookupOk(sem: Sem, blob: Bytes, list: Value, acc: Value, fuel: nat)
    requires |sem.shape(sem.literal(blob, TABLE))| > 0
    ensures EvalSub(sem, [blob], LOOKUP, [list, acc], [], fuel).Ok?
  {
    var node, inputs, none: Env := LOOKUP.nodes[0], LOOKUP.inputs, map[];
    var env: Env := map[0 := list, 1 := acc];
    assert inputs[..1] == [inputs[0]] && inputs[..1][..0] == [];
    assert BindInputs(inputs[..1][..0], [list, acc], none) == Ok(none);
    assert BindInputs(inputs[..1], [list, acc], none) == Ok(none[0 := list]);
    assert BindInputs(inputs, [list, acc], none) == Ok(env);
    assert Lookup(env, [0, 1]).value == [list, acc];
    var init, e := sem.apply(FoldInit("reduce", NO_ATTRS), [list, acc]),
        sem.apply(Element("reduce", NO_ATTRS, 0), [list]);
    CellOfOk(sem, blob, init, e, fuel);
    assert EvalFold(sem, [blob], node, list, init, 0, fuel) == Ok(init);
    assert EvalFold(sem, [blob], node, list, init, 1, fuel).Ok?;
    var r := NodeResults(sem, [blob], node, [list, acc], [], fuel).value;
    BindOne([2], r, env);
    assert LOOKUP.nodes[..0] == [] && EvalNodes(sem, [blob], LOOKUP.nodes[..0], env, [], fuel) == Ok(env);
    assert EvalNodes(sem, [blob], LOOKUP.nodes, env, [], fuel) == Ok(env[2 := r[0]]);
    assert OutIds(LOOKUP.outputs) == [2];
  }

  lemma {:induction false} CellOfOk(sem: Sem, blob: Bytes, acc: Value, e: Value, fuel: nat)
    requires |sem.shape(sem.literal(blob, TABLE))| > 0
    ensures EvalSub(sem, [blob], CELL_OF, [acc, e], [], fuel).Ok?
  {
    var table := sem.literal(blob, TABLE);
    var inputs, nodes := CELL_OF.inputs, CELL_OF.nodes;
    var e0: Env, e1: Env, e2: Env := map[2 := table], map[2 := table, 0 := acc], map[2 := table, 0 := acc, 1 := e];
    assert CELL_OF.constants[..0] == [] && BindConstants(sem, [blob], CELL_OF.constants[..0]) == Ok(map[]);
    assert BindConstants(sem, [blob], CELL_OF.constants) == Ok(e0);
    assert inputs[..1] == [inputs[0]] && inputs[..1][..0] == [];
    assert BindInputs(inputs[..1][..0], [acc, e], e0) == Ok(e0);
    assert BindInputs(inputs[..1], [acc, e], e0) == Ok(e1);
    assert BindInputs(inputs, [acc, e], e0) == Ok(e2);
    assert Lookup(e2, [2, 1]).value == [table, e];
    assert ResolveStart(sem, PICK, [table, e], [], 0).Ok?;
    assert ResolveStarts(sem, PICK, [table, e], [], 0).Ok? && ResolveStarts(sem, PICK, [table, e], [], 1).Ok?;
    var cell := ApplyKernel(sem, PICK, [table, e], []).value;
    assert nodes[..1] == [nodes[0]] && nodes[..1][..0] == [];
    assert EvalNodes(sem, [blob], nodes[..1][..0], e2, [], fuel) == Ok(e2);
    BindOne([3], [cell], e2);
    assert EvalNodes(sem, [blob], nodes[..1], e2, [], fuel) == Ok(e2[3 := cell]);
    var r := sem.apply(RESHAPE, [cell]);
    assert Lookup(e2[3 := cell], [3]).value == [cell];
    BindOne([4], [r], e2[3 := cell]);
    assert EvalNodes(sem, [blob], nodes, e2, [], fuel) == Ok(e2[3 := cell][4 := r]);
    assert OutIds(CELL_OF.outputs) == [4];
  }

  /** Compiled as the worker compiles: called on lists of 1 and 2, which captures it, then replayed on
      a list of 3 and compared with the graph.  It passes, as each of these starts is pulled back to
      the last cell.  Replayed on the list that names cell 0, it still gives the last. */
  method HiddenStartRun(dev: Device, u: Value, t: Value, v: Value, w: Value, ghost c: Elem, acc: Value, ghost p: Path,
      fuel: nat) returns (passes: bool, r: Option<Tensor>)
    requires dev.Valid() && dev.sem == PickSem(u, t, v, w, c) && u != t && u != v && u != w && t != v && t != w
    requires v != w
    modifies dev
    ensures r.Some? ==> passes && Read(dev.sem, r.value, dev.Mem()) == Ok(v)
    ensures EvalSub(dev.sem, [[]], LOOKUP, [u, acc], [], fuel) == Ok([u]) && u != v
  {
    hide EvalSub, GraphTrace, PickSem, OwnedBy, PickedAt, PickValue;
    r, passes := None, false;
    PickGraph(u, t, v, w, c, u, acc, fuel);
    PickGraph(u, t, v, w, c, w, acc, fuel);
    var r1, jit1 := CallOn(dev, Fresh, u, t, v, w, c, t, t, acc, p);
    if r1.None? { return; }
    var r2, jit2 := CallOn(dev, jit1, u, t, v, w, c, v, v, acc, p);
    if r2.None? { return; }
    var r3, jit3 := CallOn(dev, jit2, u, t, v, w, c, v, w, acc, p);
    if r3.None? { return; }
    passes := Ok([Read(dev.sem, r3.value, dev.Mem()).value]) == EvalSub(dev.sem, [[]], LOOKUP, [w, acc], [], fuel);
    var r4, jit4 := CallOn(dev, jit3, u, t, v, w, c, v, u, acc, p);
    r := r4;
  }

  /** One call of the captured whole, on arguments in buffers of their own. */
  method CallOn(dev: Device, jit: Jit, u: Value, t: Value, v: Value, w: Value, ghost c: Elem, was: Value, now: Value,
      acc: Value, ghost p: Path) returns (r: Option<Tensor>, jit': Jit)
    requires dev.Valid() && dev.sem == PickSem(u, t, v, w, c) && u != t && u != v && u != w && t != v && t != w
    requires v != w && was in {t, v} && now in {u, t, v, w}
    requires JitOk(jit, dev.owner, p)
    requires (jit.Captured? ==> GraphTrace(dev.sem, [[]], LOOKUP, [was, acc]) == Ok(jit.trace))
    modifies dev
    ensures dev.Valid() && JitOk(jit', dev.owner, p)
    ensures (jit'.Captured? ==> GraphTrace(dev.sem, [[]], LOOKUP, [was, acc]) == Ok(jit'.trace))
    ensures r.Some? ==> Read(dev.sem, r.value, dev.Mem()) == Ok(v)
    ensures r.Some? ==> if jit.Captured? then jit' == jit else jit'.Captured? == jit.Warm? && !jit'.Fresh?
  {
    hide GraphTrace, PickSem, PickValue, PickedAt;
    PickCells(u, t, v, w, c, was);
    HiddenStartReplayed(dev.sem, [], was, acc, now, acc);
    ghost var o := dev.owner;
    var a := dev.Alloc(now, None);
    var b := dev.Alloc(acc, None);
    JitLater(jit, o, dev.owner, p);
    var inputs := [Buf(a), Buf(b)];
    ReadTwo(dev.sem, Buf(a), Buf(b), dev.Mem());
    SupportTwo(Buf(a), Buf(b));
    var trace := GraphTrace(dev.sem, [[]], LOOKUP, [was, acc]).value;
    var outs, jit2 := dev.CallJit(jit, trace, inputs, [], p);
    jit' := jit2;
    r := if outs.Some? then Some(outs.value[0]) else None;
  }

  lemma JitLater(jit: Jit, o: seq<Option<Path>>, o': seq<Option<Path>>, p: Path)
    requires JitOk(jit, o, p) && o <= o'
    ensures JitOk(jit, o', p)
  {
  }

  // -- references that share a buffer ---------------------------------------------------------

  /** A realized tensor and a view of it, such as a reshape or a slice, registered under two references,
      always make a captured run fail. */
  lemma ViewShares(sem: Sem, t: Tensor, k: Kernel)
    requires Realized(sem, t) && ((k.Op? && sem.viewOp(k.op)) || (k.Window? && k.wop.Slice?))
    ensures Sharing(sem, [Handle(0, t), Handle(1, Lazy(k, [t]))])
  {
    var inputs := [Handle(0, t), Handle(1, Lazy(k, [t]))];
    assert inputs[0].ref != inputs[1].ref && BaseOf(sem, inputs[0].tensor) == BaseOf(sem, inputs[1].tensor);
  }
}
