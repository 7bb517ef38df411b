/** Running a split graph on a device, item by item: what stays true of the environment. */
module SegmentRuns {
  import opened Values
  import opened GraphIR
  import opened Typing
  import opened LazyTensors
  import opened Devices
  import opened Reentry
  import opened TaintSound
  import opened NodeRuns
  import opened Segments
  import opened SegmentSound

  /** A buffer below the root belongs to an item before this one. */
  predicate Earlier(o: Option<Path>, root: Path, k: nat) {
    Under(o, root) ==> |o.value| > |root| && o.value[|root|] < k
  }

  predicate AllEarlier(bs: set<nat>, owner: seq<Option<Path>>, root: Path, k: nat) {
    forall b :: b in bs ==> b < |owner| && Earlier(owner[b], root, k)
  }

  /** Nothing in the environment is where item k, or a later one, writes. */
  ghost predicate EnvEarlier(env: TensorEnv, owner: seq<Option<Path>>, root: Path, k: nat) {
    forall id :: id in env ==> Concrete(env[id]) && AllEarlier(Support(env[id]), owner, root, k)
  }

  /** Every buffer that is not written by item k or a later one. */
  function EarlierSet(owner: seq<Option<Path>>, root: Path, k: nat): set<nat> {
    set b | 0 <= b < |owner| && Earlier(owner[b], root, k)
  }

  /** What is read from a position on, or returned, as a list. */
  function LaterIds(nodes: seq<Node>, outs: seq<nat>): seq<nat> {
    if nodes == [] then outs else nodes[0].inputs + LaterIds(nodes[1..], outs)
  }

  lemma {:induction false} LaterIdsLive(nodes: seq<Node>, outs: seq<nat>, id: nat)
    ensures id in LaterIds(nodes, outs) <==> Live(nodes, 0, outs, id)
  {
    if nodes != [] {
      LaterIdsLive(nodes[1..], outs, id);
      if j :| 0 <= j < |nodes| && id in nodes[j].inputs {
        assert j > 0 ==> id in nodes[1..][j - 1].inputs;
      }
      if j :| 0 <= j < |nodes[1..]| && id in nodes[1..][j].inputs {
        assert id in nodes[j + 1].inputs;
      }
    }
  }

  lemma LiveTail(nodes: seq<Node>, i: nat, outs: seq<nat>, id: nat)
    requires i <= |nodes|
    ensures Live(nodes, i, outs, id) <==> Live(nodes[i..], 0, outs, id)
  {
    if j :| i <= j < |nodes| && id in nodes[j].inputs {
      assert nodes[i..][j - i] == nodes[j];
    }
    if j :| 0 <= j < |nodes[i..]| && id in nodes[i..][j].inputs {
      assert nodes[i + j] == nodes[i..][j];
    }
  }

  /** Within one item: needed there, or later. */
  lemma ItemLive(nodes: seq<Node>, a: nat, b: nat, outs: seq<nat>, id: nat)
    requires a <= b <= |nodes|
    ensures Live(nodes[a..b], 0, LaterIds(nodes[b..], outs), id) <==> Live(nodes, a, outs, id)
    ensures Live(nodes[a..b], b - a, LaterIds(nodes[b..], outs), id) <==> Live(nodes, b, outs, id)
  {
    LaterIdsLive(nodes[b..], outs, id);
    LiveTail(nodes, b, outs, id);
    LiveSplit(nodes, a, b, outs, id);
  }

  /** What holds before item k: values, liveness, and that the item's buffers are free. */
  ghost predicate AtItem(sem: Sem, blobs: seq<Bytes>, nodes: seq<Node>, i: nat, k: nat, outs: seq<nat>, env: TensorEnv,
      vals0: Env, shapes: Shapes, mem: Memory, owner: seq<Option<Path>>, root: Path, fuel: nat)
  {
    && i <= |nodes| && EnvEarlier(env, owner, root, k) && EvalNodes(sem, blobs, nodes[..i], vals0, [], fuel).Ok?
    && var vals := EvalNodes(sem, blobs, nodes[..i], vals0, [], fuel).value;
       && Shaped(sem, vals, shapes) && LiveReads(sem, nodes, i, outs, env, vals, mem)
  }

  // -- an item run node by node ---------------------------------------------------------

  /** Everything needed to run the nodes between a and b on their own. */
  lemma ItemStart(sem: Sem, blobs: seq<Bytes>, nodes: seq<Node>, a: nat, b: nat, k: nat, outs: seq<nat>, env: TensorEnv,
      vals0: Env, shapes: Shapes, mem: Memory, owner: seq<Option<Path>>, root: Path, fuel: nat)
      returns (ms: seq<Taints>)
    requires a <= b <= |nodes| && EvalNodes(sem, blobs, nodes, vals0, [], fuel).Ok? && TypedNodes(sem, nodes, shapes)
    requires AllEnter(sem, nodes)
    requires AtItem(sem, blobs, nodes, a, k, outs, env, vals0, shapes, mem, owner, root, fuel)
    ensures var vals, part, later := EvalNodes(sem, blobs, nodes[..a], vals0, [], fuel).value, nodes[a..b],
        LaterIds(nodes[b..], outs);
            && EvalNodes(sem, blobs, part, vals, [], fuel).Ok?
            && EvalNodes(sem, blobs, nodes[..b], vals0, [], fuel) == EvalNodes(sem, blobs, part, vals, [], fuel)
            && TypedNodes(sem, part, shapes) && SafeChain(sem, part, later, root + [k], ms)
            && LiveReads(sem, part, 0, later, env, vals, mem)
            && EnvTainted(sem, env, ms[0], owner, root + [k])
            && EnvMade(env, EarlierSet(owner, root, k), owner, root + [k], |mem.bufs|)
  {
    hide EvalNodes, Live, LaterIds, TypedNodes, SafeStep, EntersSafely, LoopsFit;
    var vals, part, later := EvalNodes(sem, blobs, nodes[..a], vals0, [], fuel).value, nodes[a..b],
        LaterIds(nodes[b..], outs);
    EvalPrefix(sem, blobs, nodes, b, vals0, [], fuel);
    assert nodes[..b] == nodes[..a] + part;
    EvalNodesConcat(sem, blobs, nodes[..a], part, vals0, [], fuel);
    TypedPart(sem, nodes, a, b, shapes);
    ms := OnceEntered(sem, part, later, root + [k], shapes) by {
      forall i | 0 <= i < |part| ensures EntersSafely(sem, part[i]) {
        assert part[i] == nodes[a + i];
      }
    }
    forall id | id in vals && Live(part, 0, later, id) ensures id in env && Read(sem, env[id], mem) == Ok(vals[id]) {
      ItemLive(nodes, a, b, outs, id);
    }
    forall id | id in env ensures TensorTainted(sem, env[id], CLEAN, owner, root + [k]) {
      assert AllEarlier(Support(env[id]), owner, root, k);
      BaseInSupport(sem, env[id]);
      assert (root + [k])[|root|] == k && (root + [k])[..|root|] == root;
    }
  }

  /** A typed list whose nodes can be entered, run with nothing of theirs around. */
  lemma OnceEntered(sem: Sem, nodes: seq<Node>, outs: seq<nat>, p: Path, shapes: Shapes) returns (ms: seq<Taints>)
    requires AllEnter(sem, nodes) && TypedNodes(sem, nodes, shapes)
    ensures SafeChain(sem, nodes, outs, p, ms) && ms[0] == map[]
  {
    hide SafeStep, EntersSafely, TypedNodes;
    forall i | 0 <= i < |nodes| ensures LoopsFit(nodes[i]) {
      TypedAt(sem, nodes, shapes, i);
      TypedFits(sem, nodes[i], shapes);
    }
    ms := EnteredOnce(sem, nodes, outs, p, |nodes|);
  }

  lemma TypedFits(sem: Sem, node: Node, shapes: Shapes)
    requires TypedNode(sem, node, shapes)
    ensures LoopsFit(node)
  {
    if node.While? {
      assert |ShapesOf(OutIds(node.body.outputs), DeclaredShapes(node.body))| == |ShapesOf(node.inputs, shapes)|;
    }
  }

  lemma {:induction false} TypedPart(sem: Sem, nodes: seq<Node>, a: nat, b: nat, shapes: Shapes)
    requires a <= b <= |nodes| && TypedNodes(sem, nodes, shapes)
    ensures TypedNodes(sem, nodes[a..b], shapes)
    decreases b - a
  {
    hide TypedNode;
    if a < b {
      TypedPart(sem, nodes, a, b - 1, shapes);
      TypedAt(sem, nodes, shapes, b - 1);
      assert nodes[a..b][..b - a - 1] == nodes[a..b - 1];
    }
  }

  lemma ItemEnd(sem: Sem, blobs: seq<Bytes>, nodes: seq<Node>, a: nat, b: nat, k: nat, outs: seq<nat>, env: TensorEnv,
      vals0: Env, shapes: Shapes, mem: Memory, owner0: seq<Option<Path>>, owner: seq<Option<Path>>, root: Path,
      n: nat, fuel: nat)
    requires a <= b <= |nodes| && EvalNodes(sem, blobs, nodes, vals0, [], fuel).Ok? && TypedNodes(sem, nodes, shapes)
    requires ShapeLaw(sem) && Shaped(sem, vals0, shapes) && EvalNodes(sem, blobs, nodes[..b], vals0, [], fuel).Ok?
    requires owner0 <= owner
    requires LiveReads(sem, nodes[a..b], b - a, LaterIds(nodes[b..], outs), env,
        EvalNodes(sem, blobs, nodes[..b], vals0, [], fuel).value, mem)
    requires EnvMade(env, EarlierSet(owner0, root, k), owner, root + [k], n)
    ensures AtItem(sem, blobs, nodes, b, k + 1, outs, env, vals0, shapes, mem, owner, root, fuel)
  {
    hide EvalNodes, Live, LaterIds, TypedNodes;
    TypedPart(sem, nodes, 0, b, shapes);
    NodesShaped(sem, blobs, nodes[..b], vals0, shapes, [], fuel);
    var vals := EvalNodes(sem, blobs, nodes[..b], vals0, [], fuel).value;
    forall id | id in vals && Live(nodes, b, outs, id) ensures id in env && Read(sem, env[id], mem) == Ok(vals[id]) {
      ItemLive(nodes, a, b, outs, id);
    }
    forall id | id in env ensures Concrete(env[id]) && AllEarlier(Support(env[id]), owner, root, k + 1) {
      forall x | x in Support(env[id]) ensures x < |owner| && Earlier(owner[x], root, k + 1) {
        assert Made(x, EarlierSet(owner0, root, k), owner, root + [k], n);
        if Under(owner[x], root + [k]) {
          assert owner[x].value[|root|] == (root + [k])[|root|] == k;
        }
      }
    }
  }

  // -- a captured item ------------------------------------------------------------------

  /** What a captured segment's results are. */
  ghost predicate SegmentResult(t: Tensor, v: Value, mem: Memory, owner: seq<Option<Path>>, p: Path) {
    t.Buf? && t.b < |mem.bufs| && t.b < |owner| && mem.bufs[t.b] == v && (owner[t.b] == Some(p) || owner[t.b].None?)
  }

  lemma {:induction false} BoundResults(ids: seq<nat>, ts: seq<Tensor>, env: TensorEnv, id: nat)
    requires |ids| == |ts| && Ascending(ids)
    ensures id !in ids ==>
        (id in BindResults(ids, ts, env) <==> id in env) && (id in env ==> BindResults(ids, ts, env)[id] == env[id])
    ensures forall j :: 0 <= j < |ids| && ids[j] == id ==>
        id in BindResults(ids, ts, env) && BindResults(ids, ts, env)[id] == ts[j]
  {
    if ids != [] {
      var last := |ids| - 1;
      BoundResults(ids[..last], ts[..last], env, id);
      BindsPrefix(ids[..last], ts, env);
      if id !in ids { assert id !in ids[..last]; }
      forall j | 0 <= j < |ids| && ids[j] == id ensures id in BindResults(ids, ts, env)
          && BindResults(ids, ts, env)[id] == ts[j] {
        if j < last { assert ids[..last][j] == id; }
      }
    }
  }

  lemma {:induction false} BindsPrefix(ids: seq<nat>, ts: seq<Tensor>, env: TensorEnv)
    requires |ids| <= |ts|
    ensures BindResults(ids, ts, env) == BindResults(ids, ts[..|ids|], env)
  {
    if ids != [] {
      var last := |ids| - 1;
      BindsPrefix(ids[..last], ts, env);
      BindsPrefix(ids[..last], ts[..|ids|], env);
      assert ts[..|ids|][..last] == ts[..last];
    }
  }

  lemma KeptByCall(sem: Sem, t: Tensor, mem: Memory, mem': Memory, o: seq<Option<Path>>, root: Path, k: nat)
    requires Read(sem, t, mem).Ok? && AllEarlier(Support(t), o, root, k) && |o| == |mem.bufs| <= |mem'.bufs|
    requires mem'.args == mem.args && mem'.sym == mem.sym
    requires forall b :: 0 <= b < |mem.bufs| && o[b] != Some(root + [k]) ==> mem'.bufs[b] == mem.bufs[b]
    ensures Read(sem, t, mem') == Read(sem, t, mem)
  {
    forall b | b in Support(t) ensures b < |mem.bufs| && mem'.bufs[b] == mem.bufs[b] {
      assert Earlier(o[b], root, k);
      assert (root + [k])[|root|] == k && (root + [k])[..|root|] == root;
    }
    ReadStable(sem, t, mem, mem');
  }

  /** After a captured segment, with only its needed outputs bound. */
  lemma SegmentEnd(sem: Sem, blobs: seq<Bytes>, items: seq<Item>, k: nat, nodes: seq<Node>, constants: set<nat>,
      outs: seq<nat>, env: TensorEnv, vals0: Env, shapes: Shapes, mem: Memory, mem': Memory, o: seq<Option<Path>>,
      o': seq<Option<Path>>, root: Path, rs: seq<Tensor>, fuel: nat)
    requires PlanOk(items, nodes, constants, outs) && k < |items| && items[k].Segment?
    requires Begin(items, k) <= Begin(items, k + 1) <= |nodes|
    requires EvalNodes(sem, blobs, nodes, vals0, [], fuel).Ok? && TypedNodes(sem, nodes, shapes) && ShapeLaw(sem)
    requires Shaped(sem, vals0, shapes)
    requires AtItem(sem, blobs, nodes, Begin(items, k), k, outs, env, vals0, shapes, mem, o, root, fuel)
    requires |o| == |mem.bufs| <= |mem'.bufs| && o <= o' && mem'.args == mem.args && mem'.sym == mem.sym
    requires forall b :: 0 <= b < |mem.bufs| && o[b] != Some(root + [k]) ==> mem'.bufs[b] == mem.bufs[b]
    requires EvalNodes(sem, blobs, nodes[..Begin(items, k + 1)], vals0, [], fuel).Ok?
    requires var vals' := EvalNodes(sem, blobs, nodes[..Begin(items, k + 1)], vals0, [], fuel).value;
             Lookup(vals', items[k].outputIds).Ok? && |rs| == |items[k].outputIds| &&
             forall j :: 0 <= j < |rs| ==> SegmentResult(rs[j], vals'[items[k].outputIds[j]], mem', o', root + [k])
    ensures AtItem(sem, blobs, nodes, Begin(items, k + 1), k + 1, outs, BindResults(items[k].outputIds, rs, env), vals0,
        shapes, mem', o', root, fuel)
  {
    hide EvalNodes, Live, TypedNodes, Flatten, SplitOk, DefinedIn, BindResults, ReadsFrom;
    assert Flatten(items) == nodes by { SplitFlat(items, nodes); }
    var a, b := Begin(items, k), Begin(items, k + 1);
    FlattenSplit(items, k);
    TypedPart(sem, nodes, 0, b, shapes);
    NodesShaped(sem, blobs, nodes[..b], vals0, shapes, [], fuel);
    var vals, vals', env', ids := EvalNodes(sem, blobs, nodes[..a], vals0, [], fuel).value,
        EvalNodes(sem, blobs, nodes[..b], vals0, [], fuel).value,
                                  BindResults(items[k].outputIds, rs, env), items[k].outputIds;
    assert nodes[..b] == nodes[..a] + items[k].nodes;
    EvalNodesConcat(sem, blobs, nodes[..a], items[k].nodes, vals0, [], fuel);
    assert SegmentOk(items, k, constants, outs);
    forall id | id in vals' && Live(nodes, b, outs, id) ensures id in env'
        && Read(sem, env'[id], mem') == Ok(vals'[id]) {
      BoundResults(ids, rs, env, id);
      if id in ids {
        var j :| 0 <= j < |ids| && ids[j] == id;
        assert SegmentResult(rs[j], vals'[ids[j]], mem', o', root + [k]);
      } else {
        NodesOnly(sem, blobs, items[k].nodes, vals, [], fuel, id);
        LiveSplit(nodes, a, b, outs, id);
        assert AllEarlier(Support(env[id]), o, root, k);
        KeptByCall(sem, env[id], mem, mem', o, root, k);
      }
    }
    assert EnvEarlier(env', o', root, k + 1) by { ResultsEarlier(ids, rs, env, vals', mem', o, o', root, k); }
  }

  lemma ResultsEarlier(ids: seq<nat>, rs: seq<Tensor>, env: TensorEnv, vals: Env, mem: Memory, o: seq<Option<Path>>,
      o': seq<Option<Path>>, root: Path, k: nat)
    requires |ids| == |rs| && Ascending(ids) && o <= o' && EnvEarlier(env, o, root, k) && Lookup(vals, ids).Ok?
    requires forall j :: 0 <= j < |rs| ==> SegmentResult(rs[j], vals[ids[j]], mem, o', root + [k])
    ensures EnvEarlier(BindResults(ids, rs, env), o', root, k + 1)
  {
    var env' := BindResults(ids, rs, env);
    forall id | id in env' ensures Concrete(env'[id]) && AllEarlier(Support(env'[id]), o', root, k + 1) {
      BoundResults(ids, rs, env, id);
      if id in ids {
        var j :| 0 <= j < |ids| && ids[j] == id;
        assert SegmentResult(rs[j], vals[ids[j]], mem, o', root + [k]);
        assert (root + [k])[|root|] == k;
      } else {
        assert AllEarlier(Support(env[id]), o, root, k);
        forall b | b in Support(env[id]) ensures b < |o'| && Earlier(o'[b], root, k + 1) {
          assert Earlier(o[b], root, k);
        }
      }
    }
  }

  /** A segment that nothing needs is skipped. */
  lemma DeadSegment(sem: Sem, blobs: seq<Bytes>, items: seq<Item>, k: nat, nodes: seq<Node>, constants: set<nat>,
      outs: seq<nat>, env: TensorEnv, vals0: Env, shapes: Shapes, mem: Memory, o: seq<Option<Path>>, root: Path,
      fuel: nat)
    requires PlanOk(items, nodes, constants, outs) && k < |items| && items[k].Segment? && items[k].outputIds == []
    requires Begin(items, k) <= Begin(items, k + 1) <= |nodes| && |o| == |mem.bufs|
    requires EvalNodes(sem, blobs, nodes, vals0, [], fuel).Ok? && TypedNodes(sem, nodes, shapes) && ShapeLaw(sem)
    requires Shaped(sem, vals0, shapes)
    requires AtItem(sem, blobs, nodes, Begin(items, k), k, outs, env, vals0, shapes, mem, o, root, fuel)
    ensures AtItem(sem, blobs, nodes, Begin(items, k + 1), k + 1, outs, env, vals0, shapes, mem, o, root, fuel)
  {
    hide EvalNodes, AtItem, PlanOk, ShapeLaw, TypedNodes, Shaped;
    EvalPrefix(sem, blobs, nodes, Begin(items, k + 1), vals0, [], fuel);
    SegmentEnd(sem, blobs, items, k, nodes, constants, outs, env, vals0, shapes, mem, mem, o, o, root, [], fuel);
  }
}
