/** A segment on its own computes what it computes in place: its declared inputs are there when it
    runs, and its trace, replayed on them, gives every output the rest of the graph needs. */
module SegmentSound {
  import opened Values
  import opened GraphIR
  import opened SymbolicPlan
  import opened SymbolicSound
  import opened LazyTensors
  import opened LazySound
  import opened Reentry
  import opened Capture
  import opened NodeRuns
  import opened Segments

  // -- values -------------------------------------------------------------------

  lemma {:induction false} DefinedPrefix(nodes: seq<Node>, k: nat)
    requires k <= |nodes|
    ensures DefinedIn(nodes[..k]) <= DefinedIn(nodes)
  {
    if k < |nodes| {
      assert nodes[..|nodes| - 1][..k] == nodes[..k];
      DefinedPrefix(nodes[..|nodes| - 1], k);
    } else {
      assert nodes[..k] == nodes;
    }
  }

  /** Nodes change only what they define. */
  lemma {:induction false} NodesOnly(sem: Sem, blobs: seq<Bytes>, nodes: seq<Node>, env: Env, sym: seq<int>, fuel: nat,
      id: nat)
    requires EvalNodes(sem, blobs, nodes, env, sym, fuel).Ok? && id !in DefinedIn(nodes)
    ensures var r := EvalNodes(sem, blobs, nodes, env, sym, fuel).value;
            (id in r <==> id in env) && (id in env ==> r[id] == env[id])
  {
    if nodes != [] {
      var last, init := nodes[|nodes| - 1], nodes[..|nodes| - 1];
      NodesOnly(sem, blobs, init, env, sym, fuel, id);
      var mid := EvalNodes(sem, blobs, init, env, sym, fuel).value;
      assert id !in DefinedIds(last) by { assert id !in SetOf(DefinedIds(last)); }
      BindOnly(DefinedIds(last), NodeResults(sem, blobs, last, Lookup(mid, last.inputs).value, sym, fuel).value, mid,
          id);
    }
  }

  lemma {:induction false} BindOnly(ids: seq<nat>, values: seq<Value>, env: Env, id: nat)
    requires id !in ids
    ensures (id in Bind(ids, values, env) <==> id in env) && (id in env ==> Bind(ids, values, env)[id] == env[id])
  {
    if ids != [] {
      assert id !in ids[..|ids| - 1];
      BindOnly(ids[..|ids| - 1], values, env, id);
    }
  }

  predicate Covered(nodes: seq<Node>, known: set<nat>) {
    forall k :: 0 <= k < |nodes| ==> forall id :: id in nodes[k].inputs ==> id in known || id in DefinedIn(nodes[..k])
  }

  /** From the ids it reads alone, a node list computes what it computes from everything. */
  lemma {:induction false} Restricted(sem: Sem, blobs: seq<Bytes>, nodes: seq<Node>, small: Env, vals: Env, fuel: nat)
    requires NoLoops(nodes) && Within(small, vals) && Covered(nodes, small.Keys)
    requires EvalNodes(sem, blobs, nodes, vals, [], fuel).Ok?
    ensures var r := EvalNodes(sem, blobs, nodes, small, [], fuel);
            && r.Ok? && Within(r.value, EvalNodes(sem, blobs, nodes, vals, [], fuel).value)
            && forall id :: id in small || id in DefinedIn(nodes) ==> id in r.value
  {
    if nodes != [] {
      var last, init := nodes[|nodes| - 1], nodes[..|nodes| - 1];
      assert Covered(init, small.Keys) by {
        forall k | 0 <= k < |init| ensures forall id :: id in init[k].inputs ==>
            id in small.Keys || id in DefinedIn(init[..k]) {
          assert init[k] == nodes[k] && init[..k] == nodes[..k];
        }
      }
      NodesStep(sem, blobs, nodes, vals, [], fuel);
      Restricted(sem, blobs, init, small, vals, fuel);
      var a, b := EvalNodes(sem, blobs, init, small, [], fuel).value, EvalNodes(sem, blobs, init, vals, [], fuel).value;
      assert Lookup(a, last.inputs).Ok? && Lookup(a, last.inputs).value == Lookup(b, last.inputs).value by {
        forall k | 0 <= k < |last.inputs| ensures last.inputs[k] in a && a[last.inputs[k]] == b[last.inputs[k]] {
          assert last.inputs[k] in nodes[|nodes| - 1].inputs;
        }
      }
      var rs := NodeResults(sem, blobs, last, Lookup(b, last.inputs).value, [], fuel).value;
      BindOne(DefinedIds(last), rs, a);
      assert SetOf(DefinedIds(last)) == {last.id};
    }
  }

  /** An id read at position i + j, and not defined since position i, was there at position i. */
  lemma ReadFirstThere(sem: Sem, blobs: seq<Bytes>, nodes: seq<Node>, i: nat, j: nat, env: Env, id: nat, fuel: nat)
    requires i + j < |nodes| && EvalNodes(sem, blobs, nodes, env, [], fuel).Ok?
    requires id in nodes[i + j].inputs && id !in DefinedIn(nodes[i..i + j])
    ensures EvalNodes(sem, blobs, nodes[..i], env, [], fuel).Ok?
    ensures id in EvalNodes(sem, blobs, nodes[..i], env, [], fuel).value
  {
    hide NodeResults, EvalNodes, DefinedIn, Bind;
    EvalPrefix(sem, blobs, nodes, i, env, [], fuel);
    EvalStep(sem, blobs, nodes, i + j, env, [], fuel);
    var part := nodes[i..i + j];
    assert nodes[..i + j] == nodes[..i] + part;
    EvalNodesConcat(sem, blobs, nodes[..i], part, env, [], fuel);
    NodesOnly(sem, blobs, part, EvalNodes(sem, blobs, nodes[..i], env, [], fuel).value, [], fuel, id);
  }

  /** Each of a segment's declared inputs is in the environment when the segment runs. */
  lemma InputsThere(sem: Sem, blobs: seq<Bytes>, items: seq<Item>, k: nat, nodes: seq<Node>, constants: set<nat>,
      outs: seq<nat>, env: Env, fuel: nat)
    requires PlanOk(items, nodes, constants, outs) && k < |items| && items[k].Segment?
    requires EvalNodes(sem, blobs, nodes, env, [], fuel).Ok?
    ensures Begin(items, k) <= |nodes| && EvalNodes(sem, blobs, nodes[..Begin(items, k)], env, [], fuel).Ok?
    ensures forall id :: id in items[k].inputIds ==>
              id in EvalNodes(sem, blobs, nodes[..Begin(items, k)], env, [], fuel).value
                  && Live(nodes, Begin(items, k), outs, id)
  {
    hide EvalNodes, Flatten, SplitOk, DefinedIn, ItemOk;
    assert Flatten(items) == nodes by { SplitFlat(items, nodes); }
    var i, part := Begin(items, k), items[k].nodes;
    FlattenSplit(items, k);
    EvalPrefix(sem, blobs, nodes, i, env, [], fuel);
    var vals := EvalNodes(sem, blobs, nodes[..i], env, [], fuel).value;
    assert SegmentOk(items, k, constants, outs);
    forall id | id in items[k].inputIds ensures id in vals && Live(nodes, i, outs, id) {
      assert ReadFirst(part, id);
      var j :| 0 <= j < |part| && id in part[j].inputs && id !in DefinedIn(part[..j]);
      assert nodes[i + j] == nodes[i..i + |part|][j];
      assert part[..j] == nodes[i..i + j];
      ReadFirstThere(sem, blobs, nodes, i, j, env, id, fuel);
    }
  }

  lemma SplitFlat(items: seq<Item>, nodes: seq<Node>)
    requires SplitOk(items, nodes)
    ensures Flatten(items) == nodes
  {
  }

  // -- the trace ------------------------------------------------------------------

  /** The traced arguments, by id. */
  function ArgEnv(ids: seq<nat>, n: nat, env: TensorEnv): TensorEnv
    requires n <= |ids|
  {
    if n == 0 then env else ArgEnv(ids, n - 1, env)[ids[n - 1] := Arg(n - 1)]
  }

  function FixedAll(sem: Sem, ts: seq<Tensor>): (r: seq<Tensor>)
    ensures |r| == |ts| && forall j :: 0 <= j < |r| ==> r[j] == Fixed(sem, ts[j]) && !Realized(sem, r[j])
  {
    seq(|ts|, j requires 0 <= j < |ts| => Fixed(sem, ts[j]))
  }

  /** What capturing a segment records. */
  function SegmentTrace(sem: Sem, blobs: seq<Bytes>, constants: seq<Constant>, item: Item): (r: Outcome<seq<Tensor>>)
    requires item.Segment?
    ensures r.Ok? ==> forall j :: 0 <= j < |r.value| ==> !Realized(sem, r.value[j])
  {
    var lits :- LiteralTensors(sem, blobs, constants);
    var env :- LazyNodes(sem, blobs, item.nodes, ArgEnv(item.inputIds, |item.inputIds|, lits), Memory([], [], []));
    var outs :- Tensors(env, item.outputIds);
    Ok(FixedAll(sem, outs))
  }

  lemma FixedAllReads(sem: Sem, ts: seq<Tensor>, mem: Memory)
    requires ReadAll(sem, ts, mem).Ok?
    ensures ReadAll(sem, FixedAll(sem, ts), mem) == ReadAll(sem, ts, mem)
  {
    hide Read, Fixed, ReadAll;
    var vs := ReadAll(sem, ts, mem).value;
    ReadAllAt(sem, ts, mem);
    var r := FixedAll(sem, ts);
    ReadAllAt(sem, r, mem);
    forall j | 0 <= j < |r| ensures Read(sem, r[j], mem) == Ok(vs[j]) {
      FixedRead(sem, ts[j], mem);
    }
    assert ReadAll(sem, r, mem).value == vs;
  }

  /** The values a segment's trace is given. */
  function Given(ids: seq<nat>, n: nat, vs: seq<Value>, env: Env): Env
    requires n <= |ids| && n <= |vs|
  {
    if n == 0 then env else Given(ids, n - 1, vs, env)[ids[n - 1] := vs[n - 1]]
  }

  lemma {:induction false} ArgsDenote(sem: Sem, ids: seq<nat>, n: nat, vs: seq<Value>, env: TensorEnv, vals: Env,
      mem: Memory)
    requires n <= |ids| == |vs| && mem.args == vs && Denotes(sem, env, mem, vals)
    ensures Denotes(sem, ArgEnv(ids, n, env), mem, Given(ids, n, vs, vals))
  {
    if n > 0 {
      ArgsDenote(sem, ids, n - 1, vs, env, vals, mem);
    }
  }

  lemma {:induction false} GivenWithin(ids: seq<nat>, n: nat, vs: seq<Value>, env: Env, vals: Env)
    requires n <= |ids| == |vs| && Within(env, vals) && Lookup(vals, ids) == Ok(vs)
    ensures Within(Given(ids, n, vs, env), vals)
    ensures forall id :: id in env || id in ids[..n] ==> id in Given(ids, n, vs, env)
  {
    if n > 0 {
      GivenWithin(ids, n - 1, vs, env, vals);
      assert ids[..n] == ids[..n - 1] + [ids[n - 1]];
    }
  }

  lemma {:induction false} SafeStatic(node: Node)
    requires JitSafe(node) && NodeWf(node)
    ensures !node.While? && Simple(node) && StaticNode(node)
  {
    hide Simple, StaticNode, NodeWf, Loops;
    assert !NodeRequiresEager(node);
    if Loops(node) {
      LoopsEager(node);
    }
    WfSimple(node);
    WfStatic(node);
  }

  /** Replayed on its inputs' values, the trace gives the values that the segment's outputs have in
      the whole graph. */
  lemma SegmentTraceSound(sem: Sem, blobs: seq<Bytes>, constants: seq<Constant>, item: Item, vals: Env, vs: seq<Value>,
      fuel: nat)
    requires item.Segment? && AllWf(item.nodes) && (forall j :: 0 <= j < |item.nodes| ==> JitSafe(item.nodes[j]))
    requires BindConstants(sem, blobs, constants).Ok? && Within(BindConstants(sem, blobs, constants).value, vals)
    requires ReadsFrom(item.nodes, item.inputIds, BindConstants(sem, blobs, constants).value.Keys)
    requires Lookup(vals, item.inputIds) == Ok(vs)
    requires EvalNodes(sem, blobs, item.nodes, vals, [], fuel).Ok? && forall id :: id in item.outputIds ==>
        id in DefinedIn(item.nodes)
    ensures var r := SegmentTrace(sem, blobs, constants, item);
            && r.Ok? && Lookup(EvalNodes(sem, blobs, item.nodes, vals, [], fuel).value, item.outputIds).Ok?
            && ReadAll(sem, r.value, Memory([], vs, [])) ==
                Lookup(EvalNodes(sem, blobs, item.nodes, vals, [], fuel).value, item.outputIds)
  {
    var nodes, ids, n := item.nodes, item.inputIds, |item.inputIds|;
    forall j | 0 <= j < |nodes| ensures !nodes[j].While? && Simple(nodes[j]) && StaticNode(nodes[j]) {
      SafeStatic(nodes[j]);
    }
    SimpleFoldable(nodes);
    var consts := BindConstants(sem, blobs, constants).value;
    var mem, mem' := Memory([], [], []), Memory([], vs, []);
    LiteralsDenote(sem, blobs, constants, mem');
    var lits := LiteralTensors(sem, blobs, constants).value;
    var small := Given(ids, n, vs, consts);
    ArgsDenote(sem, ids, n, vs, lits, consts, mem');
    GivenWithin(ids, n, vs, consts, vals);
    assert ids[..n] == ids;
    CoveredBy(nodes, ids, consts.Keys, small.Keys);
    Restricted(sem, blobs, nodes, small, vals, fuel);
    var env := ArgEnv(ids, n, lits);
    LazyNodesSound(sem, blobs, nodes, env, mem, mem', small, [], fuel);
    var a, b := EvalNodes(sem, blobs, nodes, small, [], fuel).value, EvalNodes(sem, blobs, nodes, vals, [], fuel).value;
    assert Lookup(a, item.outputIds).Ok? && Lookup(a, item.outputIds).value == Lookup(b, item.outputIds).value by {
      forall k | 0 <= k < |item.outputIds| ensures item.outputIds[k] in a
          && a[item.outputIds[k]] == b[item.outputIds[k]] {
        assert item.outputIds[k] in item.outputIds;
      }
    }
    TensorsDenote(sem, LazyNodes(sem, blobs, nodes, env, mem).value, a, item.outputIds, mem');
    FixedAllReads(sem, Tensors(LazyNodes(sem, blobs, nodes, env, mem).value, item.outputIds).value, mem');
  }

  lemma CoveredBy(nodes: seq<Node>, ids: seq<nat>, constants: set<nat>, known: set<nat>)
    requires ReadsFrom(nodes, ids, constants) && constants <= known && forall id :: id in ids ==> id in known
    ensures Covered(nodes, known)
  {
  }
}
