/** Runs of any kind: one that meets an error, one that never ends, one that goes wrong.  Whatever an
    executable does on the device it does in moves, and no move reaches what is not its own. */
module AnyRuns {
  import opened Values
  import opened Typing
  import opened SymbolicPlan
  import opened LazyTensors
  import opened Devices
  import opened Capture
  import opened Executor
  import opened Frozen
  import opened Segments
  import opened SegmentSound
  import opened GraphRuns

  /** What a run can do next, in any order and on any tensors: copy or realize one, call a loop's step,
      a segment or the captured whole, or give up a step or a segment after a failure.  `junk` is what
      a replay may leave in its own buffers when it breaks off or overwrites what it reads. */
  datatype Move =
    | Copying(t: Tensor)
    | Looping(key: Key, inputs: seq<Tensor>, bound: seq<int>, junk: seq<Value>)
    | LoopGivenUp(key: Key)
    | InSegment(k: nat, inputs: seq<Tensor>, junk: seq<Value>)
    | SegmentGivenUp(k: nat)
    | InWhole(inputs: seq<Tensor>, junk: seq<Value>)

  /** Only loops of the kinds that lowering emits are met, at places of this executable. */
  predicate MoveOk(m: Move, root: Path) {
    m.Looping? || m.LoopGivenUp? ==>
      && m.key.node.While? && NodeWf(m.key.node) && root <= m.key.path
      && InputsDeclared(m.key.node.body.nodes, DeclaredShapes(m.key.node.body))
  }

  /** A call of a function under capture, on any inputs. */
  method CallAny(dev: Device, jit: Jit, trace: Outcome<seq<Tensor>>, inputs: seq<Tensor>, bound: seq<int>,
      junk: seq<Value>, ghost p: Path) returns (jit': Jit)
    requires dev.Valid() && JitOk(jit, dev.owner, p) && (jit.Captured? ==> trace == Ok(jit.trace))
    modifies dev
    ensures dev.Valid() && JitOk(jit', dev.owner, p) && (jit'.Captured? ==> trace == Ok(jit'.trace))
    ensures jit.Captured? ==> jit' == jit
    ensures Touched(old(dev.bufs), old(dev.owner), dev.bufs, dev.owner, p)
    ensures jit'.Captured? && !jit.Captured? ==> old(ReadAll(dev.sem, inputs, dev.Mem())).Ok?
  {
    hide ReadAll, SupportAll, DistinctBases, Realized;
    var args := ReadAll(dev.sem, inputs, dev.Mem());
    ghost var b0, o0 := dev.bufs, dev.owner;
    var clear := jit.Captured? ==> forall j :: 0 <= j < |jit.outs| ==> jit.outs[j] !in SupportAll(inputs);
    jit' := jit;
    if trace.Ok? && args.Ok? && clear && ReadAll(dev.sem, trace.value, Memory([], args.value, bound)).Ok? {
      var r;
      r, jit' := dev.CallJit(jit, trace.value, inputs, bound, p);
      TouchedCall(b0, o0, dev.bufs, dev.owner, p);
    } else if jit.Captured? {
      dev.Spoil(jit.outs, junk, p);
    } else {
      TouchedNothing(b0, o0, p);
    }
  }

  method MoveCopying(g: CompiledGraph, t: Tensor)
    requires g.GraphOk()
    modifies g.exec.dev
    ensures g.GraphOk()
    ensures Touched(old(g.exec.dev.bufs), old(g.exec.dev.owner), g.exec.dev.bufs, g.exec.dev.owner, g.root)
  {
    hide Read, CompiledGraph.StepAtOk, PlanOk, JitOk, GraphTrace, StepOk;
    var dev := g.exec.dev;
    TouchedNothing(dev.bufs, dev.owner, g.root);
    if Read(dev.sem, t, dev.Mem()).Ok? {
      var r := dev.Clone(t);
      AddsTouch(old(dev.bufs), old(dev.owner), dev.bufs, dev.owner, g.root);
      g.exec.StepsLater();
      g.GraphLater();
    }
  }

  method MoveLooping(g: CompiledGraph, key: Key, inputs: seq<Tensor>, bound: seq<int>, junk: seq<Value>)
    requires g.GraphOk() && MoveOk(Looping(key, inputs, bound, junk), g.root)
    modifies g.exec, g.exec.dev
    ensures g.GraphOk()
    ensures Touched(old(g.exec.dev.bufs), old(g.exec.dev.owner), g.exec.dev.bufs, g.exec.dev.owner, g.root)
  {
    hide CompiledGraph.StepAtOk, PlanOk, JitOk, GraphTrace, StepTrace, InputsDeclared, NodeWf, DeclaredShapes, Touched;
    var exec, dev := g.exec, g.exec.dev;
    ghost var b0, o0 := dev.bufs, dev.owner;
    TouchedNothing(b0, o0, g.root);
    if key !in exec.steps {
      var made := exec.MakeStep(key.node);
      exec.steps := exec.steps[key := made];
    }
    label made:
    var step := exec.steps[key];
    assert StepOk(dev.sem, exec.blobs, key, step, dev.owner);
    if step.Jitted? {
      var trace := StepTrace(dev.sem, exec.blobs, key.node.body);
      var jit' := CallAny(dev, step.jit, trace, inputs, bound, junk, key.path);
      TouchedGrows(b0, o0, dev.bufs, dev.owner, key.path);
      TouchedWider(b0, o0, dev.bufs, dev.owner, g.root, key.path);
      exec.StepsLater@made();
      exec.steps := exec.steps[key := Jitted(step.plan, jit')];
    }
    g.GraphLater();
  }

  method MoveLoopGivenUp(g: CompiledGraph, key: Key)
    requires g.GraphOk()
    modifies g.exec
    ensures g.GraphOk() && Touched(g.exec.dev.bufs, g.exec.dev.owner, g.exec.dev.bufs, g.exec.dev.owner, g.root)
  {
    hide CompiledGraph.StepAtOk, PlanOk, JitOk, GraphTrace;
    g.exec.steps := g.exec.steps[key := Interpreting];
    g.GraphLater();
  }

  method MoveInSegment(g: CompiledGraph, k: nat, inputs: seq<Tensor>, junk: seq<Value>)
    requires g.GraphOk()
    modifies g, g.exec.dev
    ensures g.GraphOk()
    ensures Touched(old(g.exec.dev.bufs), old(g.exec.dev.owner), g.exec.dev.bufs, g.exec.dev.owner, g.root)
  {
    hide PlanOk, JitOk, GraphTrace, SegmentTrace, StepOk, Touched;
    var exec, dev := g.exec, g.exec.dev;
    ghost var b0, o0 := dev.bufs, dev.owner;
    TouchedNothing(b0, o0, g.root);
    if g.plan.None? || k >= |g.plan.value| || !g.plan.value[k].Segment? {
      return;
    }
    var item := g.plan.value[k];
    var step := if k in g.segmentSteps then g.segmentSteps[k] else ByJit(Fresh);
    if k in g.segmentSteps {
      assert g.StepAtOk(k);
    } else {
      FreshStepOk(dev.sem, exec.blobs, g.graph.constants, item, dev.owner, g.root + [k]);
    }
    if step.ByJit? {
      var trace := SegmentTrace(dev.sem, exec.blobs, g.graph.constants, item);
      var jit' := CallAny(dev, step.jit, trace, inputs, [], junk, g.root + [k]);
      TouchedGrows(b0, o0, dev.bufs, dev.owner, g.root + [k]);
      TouchedWider(b0, o0, dev.bufs, dev.owner, g.root, g.root + [k]);
      exec.StepsLater();
      g.CacheStep(k, ByJit(jit'), o0);
    }
  }

  method MoveSegmentGivenUp(g: CompiledGraph, k: nat)
    requires g.GraphOk()
    modifies g
    ensures g.GraphOk() && Touched(g.exec.dev.bufs, g.exec.dev.owner, g.exec.dev.bufs, g.exec.dev.owner, g.root)
  {
    hide PlanOk, JitOk, GraphTrace, SegmentTrace, StepOk;
    if g.plan.Some? && k < |g.plan.value| && g.plan.value[k].Segment? {
      FreshStepOk(g.exec.dev.sem, g.exec.blobs, g.graph.constants, g.plan.value[k], g.exec.dev.owner, g.root + [k]);
      g.CacheStep(k, ByNode, g.exec.dev.owner);
    }
  }

  method MoveInWhole(g: CompiledGraph, inputs: seq<Tensor>, junk: seq<Value>)
    requires g.GraphOk()
    modifies g, g.exec.dev
    ensures g.GraphOk()
    ensures Touched(old(g.exec.dev.bufs), old(g.exec.dev.owner), g.exec.dev.bufs, g.exec.dev.owner, g.root)
  {
    hide PlanOk, JitOk, GraphTrace, SegmentTrace, StepOk, Touched, ReadAll, SegmentStepOk;
    var exec, dev := g.exec, g.exec.dev;
    ghost var b0, o0 := dev.bufs, dev.owner;
    var args := ReadAll(dev.sem, inputs, dev.Mem());
    var trace := if g.whole.Captured? then Ok(g.whole.trace)
                 else if args.Ok? then GraphTrace(dev.sem, exec.blobs, g.graph, args.value) else Stuck;
    var jit' := CallAny(dev, g.whole, trace, inputs, [], junk, g.root);
    TouchedGrows(b0, o0, dev.bufs, dev.owner, g.root);
    exec.StepsLater();
    g.SegmentsLater();
    if !g.whole.Captured? && args.Ok? {
      g.capturedWith := args.value;
    }
    g.whole := jit';
  }

  lemma NothingTouched(g: CompiledGraph)
    requires g.GraphOk()
    ensures Touched(g.exec.dev.bufs, g.exec.dev.owner, g.exec.dev.bufs, g.exec.dev.owner, g.root)
  {
    TouchedNothing(g.exec.dev.bufs, g.exec.dev.owner, g.root);
  }

  /** Any moves in any order: the cached steps stay right, and only the executable's own buffers are
      written. */
  method Wander(g: CompiledGraph, moves: seq<Move>)
    requires g.GraphOk() && forall i :: 0 <= i < |moves| ==> MoveOk(moves[i], g.root)
    modifies g, g.exec, g.exec.dev
    ensures g.GraphOk()
    ensures Touched(old(g.exec.dev.bufs), old(g.exec.dev.owner), g.exec.dev.bufs, g.exec.dev.owner, g.root)
  {
    hide CompiledGraph.GraphOk, Touched, MoveOk;
    var dev := g.exec.dev;
    ghost var b0, o0 := dev.bufs, dev.owner;
    NothingTouched(g);
    for i := 0 to |moves|
      invariant g.GraphOk() && Touched(b0, o0, dev.bufs, dev.owner, g.root)
    {
      ghost var b1, o1 := dev.bufs, dev.owner;
      match moves[i] {
        case Copying(t) => MoveCopying(g, t);
        case Looping(key, inputs, bound, junk) => MoveLooping(g, key, inputs, bound, junk);
        case LoopGivenUp(key) => MoveLoopGivenUp(g, key);
        case InSegment(k, inputs, junk) => MoveInSegment(g, k, inputs, junk);
        case SegmentGivenUp(k) => MoveSegmentGivenUp(g, k);
        case InWhole(inputs, junk) => MoveInWhole(g, inputs, junk);
      }
      TouchedTrans(b0, o0, b1, o1, dev.bufs, dev.owner, g.root);
    }
  }
}
