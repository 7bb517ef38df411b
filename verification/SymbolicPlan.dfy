/** The rewriting of a loop body that makes dynamic window starts symbolic, so that the whole body
    can be captured. */
module SymbolicPlan {
  import opened Values
  import opened GraphIR
  import opened Typing

  /** One symbolic variable: the start operand it stands for, and its largest value. */
  datatype Use = Use(id: nat, hi: int)

  /** A node reads a runtime scalar for a window start. */
  predicate HasDynamicStarts(node: Node) {
    node.Compute? && node.kernel.Window? && |node.inputs| > FirstStart(node.kernel.wop)
  }

  /** A loop body that cannot be captured even with symbolic starts: it holds another loop, or a
      fold whose function reads a runtime scalar. */
  predicate RequiresEager(sub: Sub) {
    exists k :: 0 <= k < |sub.nodes| && NodeRequiresEager(sub.nodes[k])
  }

  predicate NodeRequiresEager(node: Node)
    decreases node
  {
    match node
    case Compute(_, _, _) => false
    case Fold(_, _, _, _, _, fn, _) =>
      exists k :: 0 <= k < |fn.nodes| && (NodeRequiresEager(fn.nodes[k]) || HasDynamicStarts(fn.nodes[k]))
    case While(_, _, _, _) => true
  }

  // -- the rewriting ----------------------------------------------------------

  /** The largest start of a dynamic window on one axis, from the declared shapes. */
  function DeclaredRoom(node: Node, shapes: Shapes, axis: nat): int
    requires HasDynamicStarts(node) && AllIn(node.inputs, shapes)
  {
    var dims := shapes[node.inputs[0]];
    var spans := if node.kernel.wop.Slice? then node.kernel.lengths else shapes[node.inputs[1]];
    if axis < |dims| && axis < |spans| then dims[axis] as int - spans[axis] as int else 0
  }

  /** One start, and the variable it introduces.  A window that fills its axis is pinned at 0. */
  function RewriteStart(node: Node, shapes: Shapes, axis: nat, before: nat): (Start, seq<Use>)
    requires HasDynamicStarts(node) && AllIn(node.inputs, shapes) && axis < |node.kernel.starts|
  {
    var first := FirstStart(node.kernel.wop);
    match node.kernel.starts[axis]
    case Input(k) =>
      var hi := DeclaredRoom(node, shapes, axis);
      if hi <= 0 then (Static(0), [])
      else if first + k < |node.inputs| then (Symbolic(before), [Use(node.inputs[first + k], hi)])
      else (Input(k), [])
    case s => (s, [])
  }

  function RewriteStarts(node: Node, shapes: Shapes, n: nat, before: nat): (r: (seq<Start>, seq<Use>))
    requires HasDynamicStarts(node) && AllIn(node.inputs, shapes) && n <= |node.kernel.starts|
    ensures |r.0| == n
  {
    if n == 0 then ([], [])
    else
      var (starts, uses) := RewriteStarts(node, shapes, n - 1, before);
      var (s, u) := RewriteStart(node, shapes, n - 1, before + |uses|);
      (starts + [s], uses + u)
  }

  predicate InputsDeclared(nodes: seq<Node>, shapes: Shapes) {
    forall k :: 0 <= k < |nodes| ==> AllIn(nodes[k].inputs, shapes)
  }

  function RewriteNode(node: Node, shapes: Shapes, before: nat): (Node, seq<Use>)
    requires AllIn(node.inputs, shapes)
  {
    if HasDynamicStarts(node) then
      var (starts, uses) := RewriteStarts(node, shapes, |node.kernel.starts|, before);
      (node.(kernel := node.kernel.(starts := starts)), uses)
    else (node, [])
  }

  function RewriteNodes(nodes: seq<Node>, shapes: Shapes): (r: (seq<Node>, seq<Use>))
    requires InputsDeclared(nodes, shapes)
    ensures |r.0| == |nodes|
  {
    if nodes == [] then ([], [])
    else
      var (before, uses) := RewriteNodes(nodes[..|nodes| - 1], shapes);
      var (node, more) := RewriteNode(nodes[|nodes| - 1], shapes, |uses|);
      (before + [node], uses + more)
  }

  function UseIds(uses: seq<Use>): set<nat> {
    set k | 0 <= k < |uses| :: uses[k].id
  }

  /** The nodes that the needed ids depend on, and every id those nodes need, found backward. */
  function Ancestors(nodes: seq<Node>, needed: set<nat>): (seq<Node>, set<nat>) {
    if nodes == [] then ([], needed)
    else
      var last := nodes[|nodes| - 1];
      var init := nodes[..|nodes| - 1];
      if !last.While? && last.id in needed then
        var (anc, all) := Ancestors(init, needed + SetOf(last.inputs));
        (anc + [last], all)
      else Ancestors(init, needed)
  }

  /** Nothing else is computed: each collected node is needed itself, or is an operand of a later one, and
      each id is needed or such an operand. */
  lemma {:induction false} AncestorsNeeded(nodes: seq<Node>, needed: set<nat>)
    ensures forall node :: node in Ancestors(nodes, needed).0 ==> !node.While? && node in nodes
    ensures var (anc, all) := Ancestors(nodes, needed);
            forall i :: 0 <= i < |anc| && anc[i].id !in needed ==>
              exists j :: i < j < |anc| && anc[i].id in anc[j].inputs
    ensures var (anc, all) := Ancestors(nodes, needed);
            forall id :: id in all <==> id in needed || exists j :: 0 <= j < |anc| && id in anc[j].inputs
  {
    if nodes != [] {
      var last := nodes[|nodes| - 1];
      var init := nodes[..|nodes| - 1];
      if !last.While? && last.id in needed {
        AncestorsNeeded(init, needed + SetOf(last.inputs));
        var (before, all) := Ancestors(init, needed + SetOf(last.inputs));
        var anc := before + [last];
        assert anc[|before|] == last && forall j :: 0 <= j < |before| ==> anc[j] == before[j];
        forall i | 0 <= i < |anc|
          ensures anc[i].id in needed || exists j :: i < j < |anc| && anc[i].id in anc[j].inputs
        {
          if i < |before| && before[i].id !in needed {
            if before[i].id in SetOf(last.inputs) {
              assert before[i].id in anc[|before|].inputs;
            } else {
              var j :| i < j < |before| && before[i].id in before[j].inputs;
              assert anc[j] == before[j];
            }
          }
        }
        forall id: nat
          ensures id in all <==> id in needed || exists j :: 0 <= j < |anc| && id in anc[j].inputs
        {
          if id in all && id !in needed {
            if id in SetOf(last.inputs) {
              assert id in anc[|before|].inputs;
            } else {
              var j :| 0 <= j < |before| && id in before[j].inputs;
              assert anc[j] == before[j];
            }
          }
        }
      } else {
        AncestorsNeeded(init, needed);
      }
    }
  }

  function SetOf(ids: seq<nat>): set<nat> {
    set k | 0 <= k < |ids| :: ids[k]
  }

  function NeededConstants(constants: seq<Constant>, needed: set<nat>): seq<Constant> {
    if constants == [] then []
    else
      var last := constants[|constants| - 1];
      NeededConstants(constants[..|constants| - 1], needed) + if last.id in needed then [last] else []
  }

  /** The constants kept are exactly the needed ones. */
  lemma {:induction false} ConstantsNeeded(constants: seq<Constant>, needed: set<nat>, c: Constant)
    ensures c in NeededConstants(constants, needed) <==> c in constants && c.id in needed
  {
    if constants != [] {
      ConstantsNeeded(constants[..|constants| - 1], needed, c);
      assert c in constants <==> c in constants[..|constants| - 1] || c == constants[|constants| - 1];
    }
  }

  datatype Plan = Plan(body: Sub, uses: seq<Use>, ancestors: seq<Node>, constants: seq<Constant>)

  function PlanOf(body: Sub): Plan
    requires InputsDeclared(body.nodes, DeclaredShapes(body))
  {
    var (nodes, uses) := RewriteNodes(body.nodes, DeclaredShapes(body));
    var (anc, needed) := Ancestors(body.nodes, UseIds(uses));
    Plan(body.(nodes := nodes), uses, anc, NeededConstants(body.constants, needed))
  }

  // -- the planner itself -------------------------------------------------------

  /** One backward pass over the body, collecting ancestors. */
  method CollectAncestors(nodes: seq<Node>, start: set<nat>) returns (anc: seq<Node>, needed: set<nat>)
    ensures (anc, needed) == Ancestors(nodes, start)
  {
    anc, needed := [], start;
    var i := |nodes|;
    assert nodes[..i] == nodes && Ancestors(nodes, start).0 == Ancestors(nodes, start).0 + [];
    while i > 0
      invariant 0 <= i <= |nodes|
      invariant Ancestors(nodes, start).0 == Ancestors(nodes[..i], needed).0 + anc
      invariant Ancestors(nodes, start).1 == Ancestors(nodes[..i], needed).1
    {
      i := i - 1;
      assert nodes[..i + 1][..i] == nodes[..i];
      if !nodes[i].While? && nodes[i].id in needed {
        assert Ancestors(nodes[..i + 1], needed).0 + anc == Ancestors(nodes[..i], needed + SetOf(nodes[i].inputs)).0
            + ([nodes[i]] + anc);
        anc := [nodes[i]] + anc;
        needed := needed + SetOf(nodes[i].inputs);
      }
    }
    assert [] + anc == anc;
  }

  /** The starts of one dynamic window, axis by axis. */
  method RewriteWindow(node: Node, shapes: Shapes, uses: seq<Use>) returns (rewritten: Node, uses': seq<Use>)
    requires HasDynamicStarts(node) && AllIn(node.inputs, shapes)
    ensures rewritten == RewriteNode(node, shapes, |uses|).0 && uses' == uses + RewriteNode(node, shapes, |uses|).1
  {
    var starts: seq<Start> := [];
    uses' := uses;
    for axis := 0 to |node.kernel.starts|
      invariant starts == RewriteStarts(node, shapes, axis, |uses|).0
      invariant uses' == uses + RewriteStarts(node, shapes, axis, |uses|).1
    {
      var (s, u) := RewriteStart(node, shapes, axis, |uses'|);
      starts := starts + [s];
      uses' := uses' + u;
    }
    rewritten := node.(kernel := node.kernel.(starts := starts));
  }

  method MakePlan(body: Sub) returns (plan: Plan)
    requires InputsDeclared(body.nodes, DeclaredShapes(body))
    ensures plan == PlanOf(body)
  {
    var shapes := DeclaredShapes(body);
    var uses: seq<Use> := [];
    var nodes: seq<Node> := [];
    for i := 0 to |body.nodes|
      invariant (nodes, uses) == RewriteNodes(body.nodes[..i], shapes)
    {
      var node := body.nodes[i];
      assert body.nodes[..i + 1][..i] == body.nodes[..i];
      if HasDynamicStarts(node) {
        node, uses := RewriteWindow(node, shapes, uses);
      } else {
        assert uses + [] == uses;
      }
      nodes := nodes + [node];
    }
    assert body.nodes[..|body.nodes|] == body.nodes;
    var anc, needed := CollectAncestors(body.nodes, UseIds(uses));
    var constants: seq<Constant> := [];
    for i := 0 to |body.constants|
      invariant constants == NeededConstants(body.constants[..i], needed)
    {
      assert body.constants[..i + 1][..i] == body.constants[..i];
      if body.constants[i].id in needed {
        constants := constants + [body.constants[i]];
      }
    }
    assert body.constants[..|body.constants|] == body.constants;
    plan := Plan(body.(nodes := nodes), uses, anc, constants);
  }
}
