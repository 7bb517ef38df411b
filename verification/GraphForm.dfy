/** Well-formed graphs: one sequential id space, and no reference before its definition. */
module GraphForm {
  import opened GraphIR

  function Range(n: nat): multiset<nat> {
    if n == 0 then multiset{} else Range(n - 1) + multiset{n - 1}
  }

  function NodeIds(nodes: seq<Node>): multiset<nat> {
    if nodes == [] then multiset{} else NodeIds(nodes[..|nodes| - 1]) + multiset(DefinedIds(nodes[|nodes| - 1]))
  }

  function ConstantIds(constants: seq<Constant>): multiset<nat> {
    if constants == [] then multiset{}
    else ConstantIds(constants[..|constants| - 1]) + multiset{constants[|constants| - 1].id}
  }

  function InputIds(inputs: seq<GraphInput>): multiset<nat> {
    if inputs == [] then multiset{} else InputIds(inputs[..|inputs| - 1]) + multiset{inputs[|inputs| - 1].id}
  }

  /** Every id a graph defines, as often as it is defined. */
  function AllIds(inputs: seq<GraphInput>, constants: seq<Constant>, nodes: seq<Node>): multiset<nat> {
    InputIds(inputs) + ConstantIds(constants) + NodeIds(nodes)
  }

  predicate AllBelow(ids: seq<nat>, bound: nat) {
    forall k :: 0 <= k < |ids| ==> ids[k] < bound
  }

  /** Node ids ascend, stay below the bound, and exceed the ids of the node's operands; sub-graphs
      are well formed in their own id space. */
  predicate NodesOk(nodes: seq<Node>, bound: nat)
    decreases nodes, 0
  {
    nodes == [] ||
    var node := nodes[|nodes| - 1];
    var ids := DefinedIds(node);
    && ids != []
    && ids[0] + |ids| <= bound
    && (forall k :: 0 <= k < |ids| ==> ids[k] == ids[0] + k)
    && AllBelow(node.inputs, ids[0])
    && NodeSubsOk(node)
    && NodesOk(nodes[..|nodes| - 1], ids[0])
  }

  predicate NodeSubsOk(node: Node)
    decreases node, 0
  {
    match node
    case Compute(_, _, _) => true
    case Fold(_, _, _, _, _, fn, _) => SubOk(fn)
    case While(_, cond, body, _) => SubOk(cond) && SubOk(body)
  }

  /** Ids are one duplicate-free sequential space from 0, and every reference comes after the
      definition it names, here and in every sub-graph. */
  predicate SubOk(sub: Sub)
    decreases sub, 0
  {
    var ids := AllIds(sub.inputs, sub.constants, sub.nodes);
    && ids == Range(|ids|)
    && NodesOk(sub.nodes, |ids|)
    && AllBelow(OutIds(sub.outputs), |ids|)
  }

  // -- id arithmetic ----------------------------------------------------------

  lemma {:induction false} RangeSize(n: nat)
    ensures |Range(n)| == n
    ensures forall k: nat :: Range(n)[k] == if k < n then 1 else 0
  {
    if n > 0 {
      RangeSize(n - 1);
    }
  }

  lemma {:induction false} ConsecutiveOnce(n: nat, ids: seq<nat>, id: nat)
    requires forall k :: 0 <= k < |ids| ==> ids[k] == n + k
    ensures multiset(ids)[id] == if n <= id < n + |ids| then 1 else 0
  {
    if ids != [] {
      var last := |ids| - 1;
      ConsecutiveOnce(n, ids[..last], id);
      assert ids == ids[..last] + [ids[last]];
    }
  }

  lemma RangeSplit(n: nat, ids: seq<nat>)
    requires forall k :: 0 <= k < |ids| ==> ids[k] == n + k
    ensures Range(n + |ids|) == Range(n) + multiset(ids)
  {
    hide Range;
    RangeSize(n);
    RangeSize(n + |ids|);
    forall id: nat ensures Range(n + |ids|)[id] == (Range(n) + multiset(ids))[id] {
      ConsecutiveOnce(n, ids, id);
    }
  }
}
