/** What the worker's check lets through, said of the graph as a whole. */
module Acceptance {
  import opened Values
  import opened GraphIR
  import opened GraphForm
  import opened Typing
  import opened SymbolicSound
  import opened RowMajor
  import opened Validator

  // -- what a graph declares ---------------------------------------------------------

  predicate InputsDeclare(inputs: seq<GraphInput>, id: nat, spec: Spec) {
    exists k :: 0 <= k < |inputs| && inputs[k].id == id && inputs[k].spec == spec
  }

  predicate ConstantsDeclare(constants: seq<Constant>, id: nat, spec: Spec) {
    exists k :: 0 <= k < |constants| && constants[k].id == id && constants[k].spec == spec
  }

  predicate OutsDeclare(outs: seq<Out>, id: nat, spec: Spec) {
    exists k :: 0 <= k < |outs| && outs[k] == Out(id, spec)
  }

  predicate NodeDeclares(node: Node, id: nat, spec: Spec) {
    if node.While? then OutsDeclare(node.outputs, id, spec) else node.id == id && NodeSpec(node) == spec
  }

  predicate NodesDeclare(nodes: seq<Node>, id: nat, spec: Spec) {
    exists k :: 0 <= k < |nodes| && NodeDeclares(nodes[k], id, spec)
  }

  /** An input, constant, node or loop variable with this id and spec. */
  predicate Declares(g: Sub, id: nat, spec: Spec) {
    InputsDeclare(g.inputs, id, spec) || ConstantsDeclare(g.constants, id, spec) || NodesDeclare(g.nodes, id, spec)
  }

  predicate Has(specs: map<nat, Spec>, id: nat, spec: Spec) {
    id in specs && specs[id] == spec
  }

  lemma {:induction false} InputsHave(inputs: seq<GraphInput>, id: nat, spec: Spec)
    requires Unique(InputIds(inputs))
    ensures id in InputSpecs(inputs) <==> id in InputIds(inputs)
    ensures Has(InputSpecs(inputs), id, spec) <==> InputsDeclare(inputs, id, spec)
    ensures InputsDeclare(inputs, id, spec) ==> id in InputIds(inputs)
  {
    if inputs != [] {
      var init, last := inputs[..|inputs| - 1], inputs[|inputs| - 1];
      Fewer(InputIds(init), multiset{last.id});
      InputsHave(init, id, spec);
      assert InputsDeclare(inputs, id, spec) <==>
          InputsDeclare(init, id, spec) || (last.id == id && last.spec == spec) by {
        if InputsDeclare(init, id, spec) {
          var k :| 0 <= k < |init| && init[k].id == id && init[k].spec == spec;
          assert inputs[k] == init[k];
        }
      }
    }
  }

  /** Of two parts that are unique together, each is unique and they are apart. */
  lemma Fewer(a: multiset<nat>, b: multiset<nat>)
    requires Unique(a + b)
    ensures Unique(a) && Unique(b) && forall id: nat :: id in b ==> id !in a
  {
    forall id: nat ensures a[id] <= 1 && b[id] <= 1 && (id in b ==> id !in a) {
      assert (a + b)[id] <= 1;
    }
  }

  lemma {:induction false} ConstantsHave(constants: seq<Constant>, specs: map<nat, Spec>, base: multiset<nat>, id: nat,
      spec: Spec)
    requires Unique(base + ConstantIds(constants)) && (id in specs <==> id in base)
    ensures id in ConstantSpecs(constants, specs) <==> id in base + ConstantIds(constants)
    ensures Has(ConstantSpecs(constants, specs), id, spec) <==>
        Has(specs, id, spec) || ConstantsDeclare(constants, id, spec)
    ensures ConstantsDeclare(constants, id, spec) ==> id in ConstantIds(constants)
  {
    if constants != [] {
      var init, last := constants[..|constants| - 1], constants[|constants| - 1];
      assert base + ConstantIds(constants) == base + ConstantIds(init) + multiset{last.id};
      Fewer(base + ConstantIds(init), multiset{last.id});
      ConstantsHave(init, specs, base, id, spec);
      assert ConstantsDeclare(constants, id, spec) <==>
          ConstantsDeclare(init, id, spec) || (last.id == id && last.spec == spec) by {
        if ConstantsDeclare(init, id, spec) {
          var k :| 0 <= k < |init| && init[k].id == id && init[k].spec == spec;
          assert constants[k] == init[k];
        }
      }
    }
  }

  lemma {:induction false} OutsHave(outs: seq<Out>, specs: map<nat, Spec>, base: multiset<nat>, id: nat, spec: Spec)
    requires Unique(base + multiset(OutIds(outs))) && (id in specs <==> id in base)
    ensures id in OutSpecs(outs, specs) <==> id in base + multiset(OutIds(outs))
    ensures Has(OutSpecs(outs, specs), id, spec) <==> Has(specs, id, spec) || OutsDeclare(outs, id, spec)
    ensures OutsDeclare(outs, id, spec) ==> id in multiset(OutIds(outs))
  {
    if outs != [] {
      var init, last := outs[..|outs| - 1], outs[|outs| - 1];
      assert OutIds(outs) == OutIds(init) + [last.id];
      assert base + multiset(OutIds(outs)) == base + multiset(OutIds(init)) + multiset{last.id};
      Fewer(base + multiset(OutIds(init)), multiset{last.id});
      OutsHave(init, specs, base, id, spec);
      assert OutsDeclare(outs, id, spec) <==> OutsDeclare(init, id, spec) || last == Out(id, spec) by {
        if OutsDeclare(init, id, spec) {
          var k :| 0 <= k < |init| && init[k] == Out(id, spec);
          assert outs[k] == init[k];
        }
      }
    }
  }

  lemma NodeHas(node: Node, specs: map<nat, Spec>, base: multiset<nat>, id: nat, spec: Spec)
    requires Unique(base + multiset(DefinedIds(node))) && (id in specs <==> id in base)
    ensures var r := if node.While? then OutSpecs(node.outputs, specs) else specs[node.id := NodeSpec(node)];
            && (id in r <==> id in base + multiset(DefinedIds(node)))
            && (Has(r, id, spec) <==> Has(specs, id, spec) || NodeDeclares(node, id, spec))
    ensures NodeDeclares(node, id, spec) ==> id in multiset(DefinedIds(node))
  {
    if node.While? {
      OutsHave(node.outputs, specs, base, id, spec);
    } else {
      Fewer(base, multiset{node.id});
    }
  }

  lemma NodesDeclareMore(nodes: seq<Node>, id: nat, spec: Spec)
    requires nodes != []
    ensures NodesDeclare(nodes, id, spec) <==>
        NodesDeclare(nodes[..|nodes| - 1], id, spec) || NodeDeclares(nodes[|nodes| - 1], id, spec)
  {
    hide NodeDeclares;
    var init := nodes[..|nodes| - 1];
    if NodesDeclare(init, id, spec) {
      var k :| 0 <= k < |init| && NodeDeclares(init[k], id, spec);
      assert nodes[k] == init[k];
    }
    if NodesDeclare(nodes, id, spec) {
      var k :| 0 <= k < |nodes| && NodeDeclares(nodes[k], id, spec);
      assert k < |init| ==> nodes[k] == init[k];
    }
  }

  lemma {:induction false} NodesHave(nodes: seq<Node>, specs: map<nat, Spec>, base: multiset<nat>, id: nat, spec: Spec)
    requires Unique(base + NodeIds(nodes)) && (id in specs <==> id in base)
    ensures id in NodeSpecs(nodes, specs) <==> id in base + NodeIds(nodes)
    ensures Has(NodeSpecs(nodes, specs), id, spec) <==> Has(specs, id, spec) || NodesDeclare(nodes, id, spec)
    ensures NodesDeclare(nodes, id, spec) ==> id in NodeIds(nodes)
  {
    hide NodeDeclares, OutSpecs, Unique, DefinedIds, Has;
    if nodes == [] {
      assert !NodesDeclare(nodes, id, spec);
    } else {
      hide NodesDeclare;
      var init, last := nodes[..|nodes| - 1], nodes[|nodes| - 1];
      var ids := multiset(DefinedIds(last));
      assert base + NodeIds(nodes) == base + NodeIds(init) + ids;
      Fewer(base + NodeIds(init), ids);
      NodesHave(init, specs, base, id, spec);
      NodeHas(last, NodeSpecs(init, specs), base + NodeIds(init), id, spec);
      NodesDeclareMore(nodes, id, spec);
    }
  }

  /** The specs the check collects are those that the graph declares. */
  lemma SpecsDeclared(g: Sub, id: nat, spec: Spec)
    requires Unique(AllIds(g.inputs, g.constants, g.nodes))
    ensures Has(Specs(g), id, spec) <==> Declares(g, id, spec)
    ensures Declares(g, id, spec) ==> id in AllIds(g.inputs, g.constants, g.nodes)
    ensures id in Specs(g) <==> id in AllIds(g.inputs, g.constants, g.nodes)
  {
    hide InputSpecs, ConstantSpecs, NodeSpecs, InputIds, ConstantIds, NodeIds, InputsDeclare, ConstantsDeclare,
        NodesDeclare, Unique;
    Fewer(InputIds(g.inputs) + ConstantIds(g.constants), NodeIds(g.nodes));
    Fewer(InputIds(g.inputs), ConstantIds(g.constants));
    InputsHave(g.inputs, id, spec);
    var specs := InputSpecs(g.inputs);
    ConstantsHave(g.constants, specs, InputIds(g.inputs), id, spec);
    NodesHave(g.nodes, ConstantSpecs(g.constants, specs), InputIds(g.inputs) + ConstantIds(g.constants), id, spec);
  }

  // -- the regions that are looked into ---------------------------------------------------

  /** A region, or one of a loop in it at any depth; the functions of folds in it are not looked into. */
  predicate Inside(from: Sub, sub: Sub)
    decreases from
  {
    || from == sub
    || exists k :: 0 <= k < |from.nodes| && from.nodes[k].While? &&
         (Inside(from.nodes[k].cond, sub) || Inside(from.nodes[k].body, sub))
  }

  /** A region that the check enters from a node of the graph. */
  predicate Entered(node: Node, sub: Sub) {
    match node
    case Compute(_, _, _) => false
    case Fold(_, _, _, _, _, fn, _) => Inside(fn, sub)
    case While(_, cond, body, _) => Inside(cond, sub) || Inside(body, sub)
  }

  /** It gives something, and every operation in it has a known name. */
  predicate Named(cfg: Config, sub: Sub) {
    sub.outputs != [] && forall k :: 0 <= k < |sub.nodes| ==> OpName(sub.nodes[k]) in cfg.ops
  }

  lemma {:induction false} InsideKnown(cfg: Config, sub: Sub)
    ensures SubKnown(cfg, sub) <==> forall s :: Inside(sub, s) ==> Named(cfg, s)
    decreases sub
  {
    forall k | 0 <= k < |sub.nodes| && sub.nodes[k].While?
      ensures SubKnown(cfg, sub.nodes[k].cond) <==> forall s :: Inside(sub.nodes[k].cond, s) ==> Named(cfg, s)
      ensures SubKnown(cfg, sub.nodes[k].body) <==> forall s :: Inside(sub.nodes[k].body, s) ==> Named(cfg, s)
    {
      InsideKnown(cfg, sub.nodes[k].cond);
      InsideKnown(cfg, sub.nodes[k].body);
    }
    hide Named;
    if forall s :: Inside(sub, s) ==> Named(cfg, s) {
      assert Inside(sub, sub);
      forall k | 0 <= k < |sub.nodes| && sub.nodes[k].While?
        ensures SubKnown(cfg, sub.nodes[k].cond) && SubKnown(cfg, sub.nodes[k].body)
      {
        forall s | Inside(sub.nodes[k].cond, s) ensures Named(cfg, s) {
          assert Inside(sub, s);
        }
        forall s | Inside(sub.nodes[k].body, s) ensures Named(cfg, s) {
          assert Inside(sub, s);
        }
      }
      NamedHere(cfg, sub);
    }
    if SubKnown(cfg, sub) {
      NamedHere(cfg, sub);
    }
  }

  lemma NamedHere(cfg: Config, sub: Sub)
    ensures Named(cfg, sub) <==>
        sub.outputs != [] && forall k :: 0 <= k < |sub.nodes| ==> OpName(sub.nodes[k]) in cfg.ops
  {
  }

  // -- what is accepted --------------------------------------------------------------------

  /** The specs that a graph declares have a known dtype and a rank within the limit. */
  ghost predicate SpecsKnown(cfg: Config, g: Sub) {
    forall id, spec :: Declares(g, id, spec) ==> |spec.shape| <= cfg.maxRank && spec.dtype in cfg.dtypes
  }

  /** Every name that is looked at is known, and loops, their regions and the functions of folds give
      something. */
  ghost predicate NamesKnown(cfg: Config, g: Sub) {
    && Named(cfg, g)
    && (forall k :: 0 <= k < |g.nodes| && g.nodes[k].While? ==> g.nodes[k].outputs != [])
    && forall k, s :: 0 <= k < |g.nodes| && Entered(g.nodes[k], s) ==> Named(cfg, s)
  }

  /** Every literal's bytes are there, as many as its shape and dtype ask for. */
  predicate BytesThere(cfg: Config, g: Sub, blobs: seq<Bytes>) {
    forall k :: 0 <= k < |g.constants| && g.constants[k].source.Data? ==>
      var c := g.constants[k];
      c.source.index < |blobs| && |blobs[c.source.index]| == Product(c.spec.shape) * cfg.itemsize(c.spec.dtype)
  }

  lemma NodeKnownWhen(cfg: Config, node: Node)
    ensures NodeKnown(cfg, node) <==>
              && OpName(node) in cfg.ops
              && (forall id, spec :: NodeDeclares(node, id, spec) ==> SpecOk(cfg, spec))
              && (node.While? ==> node.outputs != [])
              && (forall s :: Entered(node, s) ==> Named(cfg, s))
  {
    hide Inside, Named, SubKnown;
    match node
    case Compute(id, _, _) =>
      assert NodeDeclares(node, id, NodeSpec(node));
    case Fold(id, _, _, _, _, fn, _) =>
      assert NodeDeclares(node, id, NodeSpec(node));
      InsideKnown(cfg, fn);
    case While(_, cond, body, outputs) =>
      assert forall k :: 0 <= k < |outputs| ==> outputs[k] == Out(outputs[k].id, outputs[k].spec);
      assert forall k :: 0 <= k < |outputs| ==> NodeDeclares(node, outputs[k].id, outputs[k].spec);
      InsideKnown(cfg, cond);
      InsideKnown(cfg, body);
  }

  lemma NodesKnownWhen(cfg: Config, nodes: seq<Node>)
    ensures (forall k :: 0 <= k < |nodes| ==> NodeKnown(cfg, nodes[k])) <==>
              && (forall k :: 0 <= k < |nodes| ==> OpName(nodes[k]) in cfg.ops)
              && (forall id, spec :: NodesDeclare(nodes, id, spec) ==> SpecOk(cfg, spec))
              && (forall k :: 0 <= k < |nodes| && nodes[k].While? ==> nodes[k].outputs != [])
              && (forall k, s :: 0 <= k < |nodes| && Entered(nodes[k], s) ==> Named(cfg, s))
  {
    hide NodeKnown, NodeDeclares, Entered, Named, OpName, SpecOk;
    forall k | 0 <= k < |nodes|
      ensures NodeKnown(cfg, nodes[k]) <==>
                && OpName(nodes[k]) in cfg.ops
                && (forall id, spec :: NodeDeclares(nodes[k], id, spec) ==> SpecOk(cfg, spec))
                && (nodes[k].While? ==> nodes[k].outputs != [])
                && (forall s :: Entered(nodes[k], s) ==> Named(cfg, s))
    {
      NodeKnownWhen(cfg, nodes[k]);
    }
    if forall id, spec :: NodesDeclare(nodes, id, spec) ==> SpecOk(cfg, spec) {
      forall k, id, spec | 0 <= k < |nodes| && NodeDeclares(nodes[k], id, spec) ensures SpecOk(cfg, spec) {
        assert NodesDeclare(nodes, id, spec);
      }
    }
  }

  lemma InputsKnownWhen(cfg: Config, g: Sub)
    ensures (forall k :: 0 <= k < |g.inputs| ==> InputKnown(cfg, g.inputs[k])) <==>
              forall id, spec :: InputsDeclare(g.inputs, id, spec) ==> SpecOk(cfg, spec)
  {
    if forall id, spec :: InputsDeclare(g.inputs, id, spec) ==> SpecOk(cfg, spec) {
      forall k | 0 <= k < |g.inputs| ensures InputKnown(cfg, g.inputs[k]) {
        assert InputsDeclare(g.inputs, g.inputs[k].id, g.inputs[k].spec);
      }
    }
  }

  lemma ConstantsKnownWhen(cfg: Config, g: Sub, blobs: seq<Bytes>)
    ensures (forall k :: 0 <= k < |g.constants| ==> ConstantKnown(cfg, g.constants[k], blobs)) <==>
              && BytesThere(cfg, g, blobs)
              && forall id, spec :: ConstantsDeclare(g.constants, id, spec) ==> SpecOk(cfg, spec)
  {
    if forall id, spec :: ConstantsDeclare(g.constants, id, spec) ==> SpecOk(cfg, spec) {
      forall k | 0 <= k < |g.constants| ensures SpecOk(cfg, g.constants[k].spec) {
        assert ConstantsDeclare(g.constants, g.constants[k].id, g.constants[k].spec);
      }
    }
  }

  lemma PartsKnownWhen(cfg: Config, g: Sub, blobs: seq<Bytes>)
    ensures g.outputs != []
            && (forall k :: 0 <= k < |g.inputs| ==> InputKnown(cfg, g.inputs[k]))
            && (forall k :: 0 <= k < |g.constants| ==> ConstantKnown(cfg, g.constants[k], blobs))
            && (forall k :: 0 <= k < |g.nodes| ==> NodeKnown(cfg, g.nodes[k]))
        <==> SpecsKnown(cfg, g) && NamesKnown(cfg, g) && BytesThere(cfg, g, blobs)
  {
    hide Entered, InputKnown, ConstantKnown, NodeKnown, BytesThere, InputsDeclare, ConstantsDeclare, NodesDeclare;
    InputsKnownWhen(cfg, g);
    ConstantsKnownWhen(cfg, g, blobs);
    NodesKnownWhen(cfg, g.nodes);
    if SpecsKnown(cfg, g) {
      forall id, spec | Declares(g, id, spec) ensures SpecOk(cfg, spec) {
      }
      assert forall id, spec :: InputsDeclare(g.inputs, id, spec) ==> Declares(g, id, spec);
      assert forall id, spec :: ConstantsDeclare(g.constants, id, spec) ==> Declares(g, id, spec);
      assert forall id, spec :: NodesDeclare(g.nodes, id, spec) ==> Declares(g, id, spec);
    }
  }

  lemma OutputKnownWhen(cfg: Config, g: Sub, out: Out)
    requires IdsOk(g) && SpecsKnown(cfg, g) && out.id in AllIds(g.inputs, g.constants, g.nodes)
    ensures OutputKnown(cfg, out, Specs(g)) <==> Declares(g, out.id, out.spec)
  {
    hide Specs, Declares, AllIds, RefsDefined;
    SpecsDeclared(g, out.id, out.spec);
  }

  /** Ids aside, the check passes exactly the graphs of known parts, not too many nodes, one input for each
      position, and outputs that are what they say. */
  lemma AcceptedWhen(cfg: Config, g: Sub, blobs: seq<Bytes>)
    ensures Accepted(cfg, g, blobs) <==>
              && IdsOk(g) && SpecsKnown(cfg, g) && NamesKnown(cfg, g) && BytesThere(cfg, g, blobs)
              && |g.nodes| <= cfg.maxNodes
              && (forall i, j :: 0 <= i < j < |g.inputs| ==> g.inputs[i].index != g.inputs[j].index)
              && (forall k :: 0 <= k < |g.outputs| ==> Declares(g, g.outputs[k].id, g.outputs[k].spec))
  {
    hide Specs, SpecsKnown, NamesKnown, InputKnown, ConstantKnown, NodeKnown, BytesThere, Declares, AllIds, RefsDefined,
        Unique, OutputKnown;
    PartsKnownWhen(cfg, g, blobs);
    if IdsOk(g) && SpecsKnown(cfg, g) {
      forall k | 0 <= k < |g.outputs|
        ensures OutputKnown(cfg, g.outputs[k], Specs(g)) <==> Declares(g, g.outputs[k].id, g.outputs[k].spec)
      {
        OutputKnownWhen(cfg, g, g.outputs[k]);
      }
    }
  }
}
