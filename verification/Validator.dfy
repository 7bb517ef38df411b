/** The worker's check of a graph it is sent, and what it means for a lowered one. */
module Validator {
  import opened Values
  import opened GraphIR
  import opened GraphForm
  import opened Typing
  import opened SymbolicSound
  import opened Lowering
  import opened LoweringForm
  import opened RowMajor

  /** The operations and dtypes the worker knows, and its limits. */
  datatype Config = Config(ops: set<string>, dtypes: set<string>, itemsize: string -> nat, maxNodes: nat, maxRank: nat)

  predicate SpecOk(cfg: Config, spec: Spec) {
    |spec.shape| <= cfg.maxRank && spec.dtype in cfg.dtypes
  }

  function OpName(node: Node): string {
    match node
    case Compute(_, Op(op, _, _, _), _) => op
    case Compute(_, Window(wop, _, _, _, _), _) => if wop.Slice? then "slice" else "put_slice"
    case Compute(_, _, _) => ""
    case Fold(_, op, _, _, _, _, _) => op
    case While(_, _, _, _) => "while"
  }

  // -- what one entity must satisfy ---------------------------------------------------

  /** A sub-graph is only checked for known operations and for having an output. */
  predicate SubKnown(cfg: Config, sub: Sub)
    decreases sub
  {
    && sub.outputs != []
    && forall k :: 0 <= k < |sub.nodes| ==>
         && OpName(sub.nodes[k]) in cfg.ops
         && (sub.nodes[k].While? ==> SubKnown(cfg, sub.nodes[k].cond) && SubKnown(cfg, sub.nodes[k].body))
  }

  predicate InputKnown(cfg: Config, inp: GraphInput) {
    SpecOk(cfg, inp.spec)
  }

  predicate ConstantKnown(cfg: Config, c: Constant, blobs: seq<Bytes>) {
    SpecOk(cfg, c.spec) && (c.source.Data? ==>
        c.source.index < |blobs| && |blobs[c.source.index]| == Product(c.spec.shape) * cfg.itemsize(c.spec.dtype))
  }

  predicate NodeKnown(cfg: Config, node: Node) {
    && OpName(node) in cfg.ops
    && match node
       case While(_, cond, body, outputs) =>
         outputs != [] && (forall k :: 0 <= k < |outputs| ==> SpecOk(cfg, outputs[k].spec)) && SubKnown(cfg, cond)
             && SubKnown(cfg, body)
       case Compute(_, _, _) => SpecOk(cfg, NodeSpec(node))
       case Fold(_, _, _, _, _, fn, spec) => SpecOk(cfg, spec) && SubKnown(cfg, fn)
  }

  /** The spec each id is declared with. */
  function InputSpecs(inputs: seq<GraphInput>): map<nat, Spec> {
    if inputs == [] then map[] else InputSpecs(inputs[..|inputs| - 1])[inputs[|inputs| - 1].id :=
        inputs[|inputs| - 1].spec]
  }

  function ConstantSpecs(constants: seq<Constant>, specs: map<nat, Spec>): map<nat, Spec> {
    if constants == [] then specs
    else ConstantSpecs(constants[..|constants| - 1], specs)[constants[|constants| - 1].id :=
        constants[|constants| - 1].spec]
  }

  function OutSpecs(outs: seq<Out>, specs: map<nat, Spec>): map<nat, Spec> {
    if outs == [] then specs else OutSpecs(outs[..|outs| - 1], specs)[outs[|outs| - 1].id := outs[|outs| - 1].spec]
  }

  function NodeSpecs(nodes: seq<Node>, specs: map<nat, Spec>): map<nat, Spec> {
    if nodes == [] then specs
    else
      var last, before := nodes[|nodes| - 1], NodeSpecs(nodes[..|nodes| - 1], specs);
      if last.While? then OutSpecs(last.outputs, before) else before[last.id := NodeSpec(last)]
  }

  function Specs(g: Sub): map<nat, Spec> {
    NodeSpecs(g.nodes, ConstantSpecs(g.constants, InputSpecs(g.inputs)))
  }

  // -- the whole graph ------------------------------------------------------------------

  /** Each entity by itself is fine, and so are sizes, input indices and output specs. */
  predicate LocallyOk(cfg: Config, g: Sub, blobs: seq<Bytes>) {
    && |g.nodes| <= cfg.maxNodes && g.outputs != []
    && (forall k :: 0 <= k < |g.inputs| ==> InputKnown(cfg, g.inputs[k]))
    && (forall i, j :: 0 <= i < j < |g.inputs| ==> g.inputs[i].index != g.inputs[j].index)
    && (forall k :: 0 <= k < |g.constants| ==> ConstantKnown(cfg, g.constants[k], blobs))
    && (forall k :: 0 <= k < |g.nodes| ==> NodeKnown(cfg, g.nodes[k]))
    && forall k :: 0 <= k < |g.outputs| ==> OutputKnown(cfg, g.outputs[k], Specs(g))
  }

  predicate OutputKnown(cfg: Config, out: Out, specs: map<nat, Spec>) {
    SpecOk(cfg, out.spec) && (out.id in specs ==> specs[out.id] == out.spec)
  }

  /** No id is defined twice, and none is used before its definition. */
  ghost predicate IdsOk(g: Sub) {
    && Unique(AllIds(g.inputs, g.constants, g.nodes))
    && RefsDefined(g.nodes, InputIds(g.inputs) + ConstantIds(g.constants))
    && forall k :: 0 <= k < |g.outputs| ==> g.outputs[k].id in AllIds(g.inputs, g.constants, g.nodes)
  }

  ghost predicate RefsDefined(nodes: seq<Node>, known: multiset<nat>) {
    forall k :: 0 <= k < |nodes| ==> RefsIn(nodes[k].inputs, known + NodeIds(nodes[..k]))
  }

  predicate RefsIn(ids: seq<nat>, known: multiset<nat>) {
    forall j :: 0 <= j < |ids| ==> ids[j] in known
  }

  ghost predicate Accepted(cfg: Config, g: Sub, blobs: seq<Bytes>) {
    LocallyOk(cfg, g, blobs) && IdsOk(g)
  }

  /** The version of the graph's meaning that the worker knows. */
  const GRAPH_VERSION := 1

  /** Accepted, and sent with the version that the worker knows. */
  ghost predicate Passes(cfg: Config, version: nat, g: Sub, blobs: seq<Bytes>) {
    version == GRAPH_VERSION && Accepted(cfg, g, blobs)
  }

  // -- the check itself -------------------------------------------------------------------

  lemma NotUnique(m: multiset<nat>, whole: multiset<nat>, id: nat)
    requires m + multiset{id} <= whole && id in m
    ensures !Unique(whole)
  {
    assert (m + multiset{id})[id] >= 2;
    assert whole[id] >= 2;
  }

  lemma {:induction false} InputIdsPrefix(inputs: seq<GraphInput>, n: nat)
    requires n <= |inputs|
    ensures InputIds(inputs[..n]) <= InputIds(inputs)
  {
    if n < |inputs| {
      assert inputs[..|inputs| - 1][..n] == inputs[..n];
      InputIdsPrefix(inputs[..|inputs| - 1], n);
    } else {
      assert inputs[..n] == inputs;
    }
  }

  lemma {:induction false} ConstantIdsPrefix(constants: seq<Constant>, n: nat)
    requires n <= |constants|
    ensures ConstantIds(constants[..n]) <= ConstantIds(constants)
  {
    if n < |constants| {
      assert constants[..|constants| - 1][..n] == constants[..n];
      ConstantIdsPrefix(constants[..|constants| - 1], n);
    } else {
      assert constants[..n] == constants;
    }
  }

  /** The ids met so far: each once, and exactly these. */
  ghost predicate Met(defined: set<nat>, m: multiset<nat>) {
    Unique(m) && forall id: nat :: id in defined <==> id in m
  }

  lemma MeetOne(defined: set<nat>, m: multiset<nat>, id: nat)
    requires Met(defined, m) && id !in defined
    ensures Met(defined + {id}, m + multiset{id})
  {
  }

  lemma InputStep(inputs: seq<GraphInput>, k: nat)
    requires k < |inputs|
    ensures InputIds(inputs[..k + 1]) == InputIds(inputs[..k]) + multiset{inputs[k].id}
    ensures InputSpecs(inputs[..k + 1]) == InputSpecs(inputs[..k])[inputs[k].id := inputs[k].spec]
    ensures InputIds(inputs[..k + 1]) <= InputIds(inputs)
  {
    assert inputs[..k + 1][..k] == inputs[..k];
    InputIdsPrefix(inputs, k + 1);
  }

  lemma ConstantStep(constants: seq<Constant>, specs: map<nat, Spec>, k: nat)
    requires k < |constants|
    ensures ConstantIds(constants[..k + 1]) == ConstantIds(constants[..k]) + multiset{constants[k].id}
    ensures ConstantSpecs(constants[..k + 1], specs) == ConstantSpecs(constants[..k], specs)[constants[k].id :=
        constants[k].spec]
    ensures ConstantIds(constants[..k + 1]) <= ConstantIds(constants)
  {
    assert constants[..k + 1][..k] == constants[..k];
    ConstantIdsPrefix(constants, k + 1);
  }

  method CheckInputs(cfg: Config, g: Sub) returns (ok: bool, defined: set<nat>, specs: map<nat, Spec>)
    ensures ok ==> Met(defined, InputIds(g.inputs)) && specs == InputSpecs(g.inputs)
    ensures ok ==> forall k :: 0 <= k < |g.inputs| ==> InputKnown(cfg, g.inputs[k])
    ensures !ok ==> !Unique(InputIds(g.inputs)) || exists k :: 0 <= k < |g.inputs| && !InputKnown(cfg, g.inputs[k])
  {
    hide Met, Unique, InputKnown, InputIds, InputSpecs;
    ok, defined, specs := true, {}, map[];
    NoInputs(g.inputs);
    for k := 0 to |g.inputs|
      invariant Met(defined, InputIds(g.inputs[..k])) && specs == InputSpecs(g.inputs[..k]) && ok
      invariant forall i :: 0 <= i < k ==> InputKnown(cfg, g.inputs[i])
    {
      var inp := g.inputs[k];
      InputStep(g.inputs, k);
      if inp.id in defined {
        Repeated(defined, InputIds(g.inputs[..k]), InputIds(g.inputs), inp.id);
        ok := false;
        return;
      }
      MeetOne(defined, InputIds(g.inputs[..k]), inp.id);
      defined := defined + {inp.id};
      if !InputKnown(cfg, inp) {
        ok := false;
        return;
      }
      specs := specs[inp.id := inp.spec];
    }
    assert g.inputs[..|g.inputs|] == g.inputs;
  }

  lemma NoInputs(inputs: seq<GraphInput>)
    ensures Met({}, InputIds(inputs[..0])) && InputSpecs(inputs[..0]) == map[]
  {
  }

  lemma Repeated(defined: set<nat>, m: multiset<nat>, whole: multiset<nat>, id: nat)
    requires Met(defined, m) && id in defined && m + multiset{id} <= whole
    ensures !Unique(whole)
  {
    NotUnique(m, whole, id);
  }

  /** No two inputs at one position. */
  method DistinctIndices(inputs: seq<GraphInput>) returns (ok: bool)
    ensures ok <==> forall i, j :: 0 <= i < j < |inputs| ==> inputs[i].index != inputs[j].index
  {
    var seen: set<nat> := {};
    ok := true;
    for k := 0 to |inputs|
      invariant forall x :: x in seen <==> exists i :: 0 <= i < k && inputs[i].index == x
      invariant ok <==> forall i, j :: 0 <= i < j < k ==> inputs[i].index != inputs[j].index
    {
      ok := ok && inputs[k].index !in seen;
      seen := seen + {inputs[k].index};
    }
  }

  method CheckConstants(cfg: Config, g: Sub, blobs: seq<Bytes>, defined0: set<nat>, specs0: map<nat, Spec>)
      returns (ok: bool, defined: set<nat>, specs: map<nat, Spec>)
    requires Met(defined0, InputIds(g.inputs))
    ensures ok ==> Met(defined, InputIds(g.inputs) + ConstantIds(g.constants))
    ensures ok ==> specs == ConstantSpecs(g.constants, specs0)
    ensures ok ==> forall k :: 0 <= k < |g.constants| ==> ConstantKnown(cfg, g.constants[k], blobs)
    ensures !ok ==> !Unique(InputIds(g.inputs) + ConstantIds(g.constants)) || exists k ::
        0 <= k < |g.constants| && !ConstantKnown(cfg, g.constants[k], blobs)
  {
    hide Met, Unique, ConstantKnown, InputIds, ConstantIds, ConstantSpecs;
    ok, defined, specs := true, defined0, specs0;
    ghost var base := InputIds(g.inputs);
    NoConstants(g.constants, base, specs0);
    for k := 0 to |g.constants|
      invariant Met(defined, base + ConstantIds(g.constants[..k])) && specs == ConstantSpecs(g.constants[..k], specs0)
      invariant ok
      invariant forall i :: 0 <= i < k ==> ConstantKnown(cfg, g.constants[i], blobs)
    {
      var c := g.constants[k];
      ConstantStep(g.constants, specs0, k);
      assert base + ConstantIds(g.constants[..k + 1]) == (base + ConstantIds(g.constants[..k])) + multiset{c.id};
      if c.id in defined {
        Repeated(defined, base + ConstantIds(g.constants[..k]), base + ConstantIds(g.constants), c.id);
        ok := false;
        return;
      }
      MeetOne(defined, base + ConstantIds(g.constants[..k]), c.id);
      defined := defined + {c.id};
      if !ConstantKnown(cfg, c, blobs) {
        ok := false;
        return;
      }
      specs := specs[c.id := c.spec];
    }
    assert g.constants[..|g.constants|] == g.constants;
  }

  lemma NoConstants(constants: seq<Constant>, base: multiset<nat>, specs: map<nat, Spec>)
    ensures base + ConstantIds(constants[..0]) == base && ConstantSpecs(constants[..0], specs) == specs
  {
  }

  /** The outputs of a loop, each defined once. */
  method DefineOutputs(outs: seq<Out>, defined0: set<nat>, specs0: map<nat, Spec>, ghost m: multiset<nat>)
      returns (ok: bool, defined: set<nat>, specs: map<nat, Spec>)
    requires Met(defined0, m)
    ensures ok ==> Met(defined, m + multiset(OutIds(outs))) && specs == OutSpecs(outs, specs0)
    ensures !ok ==> !Unique(m + multiset(OutIds(outs)))
  {
    hide Met, Unique, OutSpecs;
    ok, defined, specs := true, defined0, specs0;
    ghost var ids := OutIds(outs);
    NoOutputs(outs, m, specs0);
    for k := 0 to |outs|
      invariant Met(defined, m + multiset(ids[..k])) && specs == OutSpecs(outs[..k], specs0) && ok
    {
      OutputStep(outs, m, specs0, k);
      if outs[k].id in defined {
        Repeated(defined, m + multiset(ids[..k]), m + multiset(ids), outs[k].id);
        ok := false;
        return;
      }
      MeetOne(defined, m + multiset(ids[..k]), outs[k].id);
      defined := defined + {outs[k].id};
      specs := specs[outs[k].id := outs[k].spec];
    }
    assert ids[..|outs|] == ids && outs[..|outs|] == outs;
  }

  lemma NoOutputs(outs: seq<Out>, m: multiset<nat>, specs: map<nat, Spec>)
    ensures m + multiset(OutIds(outs)[..0]) == m && OutSpecs(outs[..0], specs) == specs
  {
  }

  lemma OutputStep(outs: seq<Out>, m: multiset<nat>, specs: map<nat, Spec>, k: nat)
    requires k < |outs|
    ensures m + multiset(OutIds(outs)[..k + 1]) == (m + multiset(OutIds(outs)[..k])) + multiset{outs[k].id}
    ensures m + multiset(OutIds(outs)[..k + 1]) <= m + multiset(OutIds(outs))
    ensures OutSpecs(outs[..k + 1], specs) == OutSpecs(outs[..k], specs)[outs[k].id := outs[k].spec]
  {
    var ids := OutIds(outs);
    assert ids[..k + 1] == ids[..k] + [ids[k]];
    assert ids == ids[..k + 1] + ids[k + 1..];
    assert multiset(ids) == multiset(ids[..k + 1]) + multiset(ids[k + 1..]);
    assert outs[..k + 1][..k] == outs[..k];
  }

  lemma NodeStep(nodes: seq<Node>, base: multiset<nat>, specs: map<nat, Spec>, k: nat)
    requires k < |nodes|
    ensures base + NodeIds(nodes[..k + 1]) == (base + NodeIds(nodes[..k])) + multiset(DefinedIds(nodes[k]))
    ensures base + NodeIds(nodes[..k + 1]) <= base + NodeIds(nodes)
    ensures NodeSpecs(nodes[..k + 1], specs) ==
            if nodes[k].While? then OutSpecs(nodes[k].outputs, NodeSpecs(nodes[..k], specs))
                else NodeSpecs(nodes[..k], specs)[nodes[k].id := NodeSpec(nodes[k])]
  {
    assert nodes[..k + 1][..k] == nodes[..k];
    NodeIdsPrefix(nodes, k + 1);
  }

  lemma NoNodes(nodes: seq<Node>, base: multiset<nat>, specs: map<nat, Spec>)
    ensures base + NodeIds(nodes[..0]) == base && NodeSpecs(nodes[..0], specs) == specs
  {
  }

  lemma UniquePart(m: multiset<nat>, whole: multiset<nat>)
    requires m <= whole && !Unique(m)
    ensures !Unique(whole)
  {
    var id: nat :| m[id] > 1;
    assert whole[id] > 1;
  }

  /** The nodes in order: operands first, then what the node defines. */
  method CheckNodes(cfg: Config, g: Sub, defined0: set<nat>, specs0: map<nat, Spec>)
      returns (ok: bool, defined: set<nat>, specs: map<nat, Spec>)
    requires Met(defined0, InputIds(g.inputs) + ConstantIds(g.constants))
    ensures ok ==> Met(defined, AllIds(g.inputs, g.constants, g.nodes)) && specs == NodeSpecs(g.nodes, specs0)
    ensures ok ==> forall k :: 0 <= k < |g.nodes| ==> NodeKnown(cfg, g.nodes[k])
    ensures ok ==> RefsDefined(g.nodes, InputIds(g.inputs) + ConstantIds(g.constants))
    ensures !ok ==>
              || !Unique(AllIds(g.inputs, g.constants, g.nodes))
              || !RefsDefined(g.nodes, InputIds(g.inputs) + ConstantIds(g.constants))
              || exists k :: 0 <= k < |g.nodes| && !NodeKnown(cfg, g.nodes[k])
  {
    hide Met, Unique, NodeKnown, NodeSpecs, NodeIds, InputIds, ConstantIds, RefsIn, OutSpecs;
    ok, defined, specs := true, defined0, specs0;
    ghost var base := InputIds(g.inputs) + ConstantIds(g.constants);
    NoNodes(g.nodes, base, specs0);
    for k := 0 to |g.nodes|
      invariant Met(defined, base + NodeIds(g.nodes[..k])) && specs == NodeSpecs(g.nodes[..k], specs0) && ok
      invariant forall i :: 0 <= i < k ==> NodeKnown(cfg, g.nodes[i])
      invariant forall i :: 0 <= i < k ==> RefsIn(g.nodes[i].inputs, base + NodeIds(g.nodes[..i]))
    {
      ghost var m := base + NodeIds(g.nodes[..k]);
      NodeStep(g.nodes, base, specs0, k);
      RefsMet(defined, m, g.nodes[k].inputs);
      if !NodeKnown(cfg, g.nodes[k]) || exists j :: 0 <= j < |g.nodes[k].inputs| && g.nodes[k].inputs[j] !in defined {
        ok := false;
        return;
      }
      ok, defined, specs := DefineNode(g.nodes[k], defined, specs, m);
      if !ok {
        UniquePart(m + multiset(DefinedIds(g.nodes[k])), base + NodeIds(g.nodes));
        return;
      }
    }
    assert g.nodes[..|g.nodes|] == g.nodes;
  }

  lemma RefsMet(defined: set<nat>, m: multiset<nat>, ids: seq<nat>)
    requires Met(defined, m)
    ensures RefsIn(ids, m) <==> forall j :: 0 <= j < |ids| ==> ids[j] in defined
  {
  }

  method DefineNode(node: Node, defined0: set<nat>, specs0: map<nat, Spec>, ghost m: multiset<nat>)
      returns (ok: bool, defined: set<nat>, specs: map<nat, Spec>)
    requires Met(defined0, m)
    ensures ok ==> Met(defined, m + multiset(DefinedIds(node)))
    ensures ok ==> specs == if node.While? then OutSpecs(node.outputs, specs0) else specs0[node.id := NodeSpec(node)]
    ensures !ok ==> !Unique(m + multiset(DefinedIds(node)))
  {
    hide Met, Unique, OutSpecs;
    if node.While? {
      ok, defined, specs := DefineOutputs(node.outputs, defined0, specs0, m);
    } else {
      assert multiset(DefinedIds(node)) == multiset{node.id};
      if node.id in defined0 {
        Repeated(defined0, m, m + multiset{node.id}, node.id);
        return false, defined0, specs0;
      }
      MeetOne(defined0, m, node.id);
      ok, defined, specs := true, defined0 + {node.id}, specs0[node.id := NodeSpec(node)];
    }
  }

  lemma IdPrefixes(g: Sub)
    ensures InputIds(g.inputs) <= AllIds(g.inputs, g.constants, g.nodes)
    ensures InputIds(g.inputs) + ConstantIds(g.constants) <= AllIds(g.inputs, g.constants, g.nodes)
  {
  }

  /** Accepts exactly the graphs of the known version in which every id is defined once and before its
      uses, and every entity is known by itself. */
  method Validate(cfg: Config, version: nat, g: Sub, blobs: seq<Bytes>) returns (ok: bool)
    ensures ok <==> Passes(cfg, version, g, blobs)
  {
    hide Met, InputKnown, ConstantKnown, NodeKnown, InputIds, ConstantIds, NodeIds, AllIds, RefsDefined, InputSpecs,
        ConstantSpecs, NodeSpecs, Unique;
    IdPrefixes(g);
    if version != GRAPH_VERSION || |g.nodes| > cfg.maxNodes {
      return false;
    }
    var defined, specs;
    ok, defined, specs := CheckInputs(cfg, g);
    if !ok {
      NotAccepted(g, InputIds(g.inputs));
      return;
    }
    ok := DistinctIndices(g.inputs);
    if !ok {
      return;
    }
    ok, defined, specs := CheckConstants(cfg, g, blobs, defined, specs);
    if !ok {
      NotAccepted(g, InputIds(g.inputs) + ConstantIds(g.constants));
      return;
    }
    ok, defined, specs := CheckNodes(cfg, g, defined, specs);
    if !ok || g.outputs == [] {
      return false;
    }
    OutputsMet(g, defined);
    ok := forall k :: 0 <= k < |g.outputs| ==> g.outputs[k].id in defined && OutputKnown(cfg, g.outputs[k], specs);
  }

  lemma NotAccepted(g: Sub, m: multiset<nat>)
    requires m <= AllIds(g.inputs, g.constants, g.nodes)
    ensures !Unique(m) ==> !IdsOk(g)
  {
    if !Unique(m) {
      UniquePart(m, AllIds(g.inputs, g.constants, g.nodes));
    }
  }

  lemma OutputsMet(g: Sub, defined: set<nat>)
    requires Met(defined, AllIds(g.inputs, g.constants, g.nodes))
    ensures Unique(AllIds(g.inputs, g.constants, g.nodes))
    ensures forall k :: 0 <= k < |g.outputs| ==>
        (g.outputs[k].id in defined <==> g.outputs[k].id in AllIds(g.inputs, g.constants, g.nodes))
  {
  }

  // -- lowered graphs -----------------------------------------------------------------------

  lemma {:induction false} FirstBelow(nodes: seq<Node>, bound: nat, k: nat)
    requires NodesOk(nodes, bound) && k < |nodes|
    ensures DefinedIds(nodes[k]) != [] && DefinedIds(nodes[k])[0] < bound && NodeSubsOk(nodes[k])
    ensures AllBelow(nodes[k].inputs, DefinedIds(nodes[k])[0])
    decreases |nodes|
  {
    if k < |nodes| - 1 {
      FirstBelow(nodes[..|nodes| - 1], DefinedIds(nodes[|nodes| - 1])[0], k);
    }
  }

  /** An id below a node's own is not defined by that node or a later one. */
  lemma {:induction false} DefinedBefore(nodes: seq<Node>, bound: nat, k: nat, id: nat)
    requires NodesOk(nodes, bound) && k < |nodes| && DefinedIds(nodes[k]) != [] && id < DefinedIds(nodes[k])[0]
    ensures NodeIds(nodes)[id] == NodeIds(nodes[..k])[id]
    decreases |nodes|
  {
    hide NodesOk, NodeIds;
    var init, ids := nodes[..|nodes| - 1], DefinedIds(nodes[|nodes| - 1]);
    LastDefined(nodes, bound);
    if k < |nodes| - 1 {
      FirstBelow(init, ids[0], k);
      DefinedBefore(init, ids[0], k, id);
      assert init[..k] == nodes[..k];
    } else {
      assert nodes[..k] == init;
    }
    ConsecutiveOnce(ids[0], ids, id);
    assert NodeIds(nodes)[id] == NodeIds(init)[id] + multiset(ids)[id];
  }

  lemma LastDefined(nodes: seq<Node>, bound: nat)
    requires NodesOk(nodes, bound) && nodes != []
    ensures var init, ids := nodes[..|nodes| - 1], DefinedIds(nodes[|nodes| - 1]);
            && ids != [] && NodesOk(init, ids[0]) && (forall k :: 0 <= k < |ids| ==> ids[k] == ids[0] + k)
            && NodeIds(nodes) == NodeIds(init) + multiset(ids)
  {
  }

  /** Well-formed graphs never define an id twice or use one too early, so the check of ids passes. */
  lemma WellFormedIds(g: Sub)
    requires SubOk(g)
    ensures IdsOk(g)
  {
    hide NodesOk, NodeSubsOk;
    var ids := AllIds(g.inputs, g.constants, g.nodes);
    RangeSize(|ids|);
    assert Unique(ids) by {
      forall id: nat ensures ids[id] <= 1 { assert Range(|ids|)[id] <= 1; }
    }
    forall k | 0 <= k < |g.nodes| ensures RefsIn(g.nodes[k].inputs,
        InputIds(g.inputs) + ConstantIds(g.constants) + NodeIds(g.nodes[..k])) {
      FirstBelow(g.nodes, |ids|, k);
      forall j | 0 <= j < |g.nodes[k].inputs| ensures g.nodes[k].inputs[j] in InputIds(g.inputs)
          + ConstantIds(g.constants) + NodeIds(g.nodes[..k]) {
        var id := g.nodes[k].inputs[j];
        DefinedBefore(g.nodes, |ids|, k, id);
        assert ids[id] == Range(|ids|)[id] == 1;
      }
    }
    forall k | 0 <= k < |g.outputs| ensures g.outputs[k].id in ids {
      assert OutIds(g.outputs)[k] < |ids|;
      assert Range(|ids|)[g.outputs[k].id] == 1;
    }
  }

  /** A lowered graph passes exactly when its entities are known one by one: what the check finds wrong
      with versions or ids never happens. */
  lemma LoweredAccepted(cfg: Config, outputs: seq<Expr>)
    requires ToGraph(outputs).Success?
    ensures var g := ToGraph(outputs).value;
        Passes(cfg, g.version, g.main, g.blobs) <==> LocallyOk(cfg, g.main, g.blobs)
  {
    LoweredGraphOk(outputs);
    WellFormedIds(ToGraph(outputs).value.main);
  }

  // -- what the check lets through --------------------------------------------------------------

  const BARE := Spec([], "f32")

  /** A loop whose condition returns an id that nothing defines. */
  const DANGLING := Sub([GraphInput(0, 0, BARE)], [],
                        [While([0], Sub([], [], [], [Out(7, BARE)]),
                            Sub([GraphInput(0, 0, BARE)], [], [], [Out(0, BARE)]), [Out(1, BARE)])],
                        [Out(1, BARE)])

  lemma DanglingAccepted(cfg: Config)
    requires "while" in cfg.ops && "f32" in cfg.dtypes && cfg.maxNodes >= 1
    ensures Accepted(cfg, DANGLING, [])
  {
    hide SubOk;
    var g := DANGLING;
    var loop := g.nodes[0];
    assert g.nodes[..0] == [] && g.inputs[..0] == [] && loop.outputs[..0] == [];
    assert InputSpecs(g.inputs) == map[0 := BARE];
    var specs := map[0 := BARE];
    assert OutSpecs(loop.outputs[..0], specs) == specs;
    assert NodeSpecs(g.nodes[..0], specs) == specs;
    assert Specs(g) == specs[1 := BARE];
    assert InputIds(g.inputs) == multiset{0};
    assert NodeIds(g.nodes) == multiset([1]);
    assert RefsIn(loop.inputs, InputIds(g.inputs) + ConstantIds(g.constants) + NodeIds(g.nodes[..0]));
  }

  lemma DanglingBad()
    ensures !SubOk(DANGLING)
  {
    var g := DANGLING;
    assert !SubOk(g.nodes[0].cond) by { assert OutIds(g.nodes[0].cond.outputs)[0] == 7; }
    if SubOk(g) {
      FirstBelow(g.nodes, |AllIds(g.inputs, g.constants, g.nodes)|, 0);
    }
  }

  lemma DanglingStuck(sem: Sem, v: Value, fuel: nat)
    ensures EvalSub(sem, [], DANGLING, [v], [], fuel) == Stuck
  {
    var g := DANGLING;
    var loop := g.nodes[0];
    assert g.nodes[..0] == [] && g.inputs[..0] == [];
    var env: Env := map[0 := v];
    assert BindInputs(g.inputs[..0], [v], map[]) == Ok(map[]);
    assert InitialEnv(sem, [], g, [v]) == Ok(env);
    var state := Lookup(env, [0]).value;
    assert InitialEnv(sem, [], loop.cond, state) == Ok(map[]);
    assert OutIds(loop.cond.outputs)[0] == 7;
    assert EvalSub(sem, [], loop.cond, state, [], fuel) == Stuck;
    assert EvalNodes(sem, [], g.nodes[..0], env, [], fuel) == Ok(env);
    assert EvalLoop(sem, [], loop, state, fuel, fuel) == Stuck;
    assert NodeResults(sem, [], loop, state, [], fuel) == Stuck;
    assert g.nodes[|g.nodes| - 1] == loop && g.nodes[..|g.nodes| - 1] == g.nodes[..0];
    assert EvalNodes(sem, [], g.nodes, env, [], fuel) == Stuck;
  }

  /** Sub-graphs are checked only lightly: a graph can be accepted, and then meet an undefined id
      when it runs.  Lowering never makes one. */
  lemma AcceptedButStuck(cfg: Config, sem: Sem, v: Value, fuel: nat)
    requires "while" in cfg.ops && "f32" in cfg.dtypes && cfg.maxNodes >= 1
    ensures Accepted(cfg, DANGLING, []) && !SubOk(DANGLING) && EvalSub(sem, [], DANGLING, [v], [], fuel) == Stuck
  {
    DanglingAccepted(cfg);
    DanglingBad();
    DanglingStuck(sem, v, fuel);
  }
}
