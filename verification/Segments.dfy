/** Splitting a graph that cannot be captured whole: maximal runs of capturable nodes, and between
    them single nodes that must be run eagerly. */
module Segments {
  import opened Values
  import opened GraphIR
  import opened SymbolicPlan
  import opened Reentry

  datatype Item = Segment(nodes: seq<Node>, inputIds: seq<nat>, outputIds: seq<nat>) | Eager(node: Node)

  /** A top-level node that can live inside a trace. */
  predicate JitSafe(node: Node) {
    && !HasDynamicStarts(node)
    && match node
       case Compute(_, _, _) => true
       case Fold(_, _, _, _, _, fn, _) => !RequiresEager(fn) && !AnyDynamic(fn.nodes)
       case While(_, _, _, _) => false
  }

  predicate AnyDynamic(nodes: seq<Node>) {
    exists k :: 0 <= k < |nodes| && HasDynamicStarts(nodes[k])
  }

  /** A node that reads no runtime scalar and holds no loop, at any depth: no slice in it has an operand
      after the first, and no put_slice one after the second. */
  predicate Still(node: Node)
    decreases node
  {
    match node
    case Compute(_, k, inputs) => k.Window? ==> |inputs| <= (match k.wop case Slice => 1 case PutSlice => 2)
    case Fold(_, _, _, _, _, fn, _) => forall k :: 0 <= k < |fn.nodes| ==> Still(fn.nodes[k])
    case While(_, _, _, _) => false
  }

  lemma {:induction false} StillReads(node: Node)
    ensures Still(node) <==> !NodeRequiresEager(node) && !HasDynamicStarts(node)
    decreases node
  {
    if node.Fold? {
      forall k | 0 <= k < |node.fn.nodes|
        ensures Still(node.fn.nodes[k]) <==>
            !NodeRequiresEager(node.fn.nodes[k]) && !HasDynamicStarts(node.fn.nodes[k])
      {
        StillReads(node.fn.nodes[k]);
      }
    }
  }

  /** A loop's body is interpreted exactly if it holds a loop, or a fold that is not still. */
  lemma EagerExactly(body: Sub)
    ensures RequiresEager(body) <==>
        exists k :: 0 <= k < |body.nodes| && !body.nodes[k].Compute? && !Still(body.nodes[k])
  {
    forall k | 0 <= k < |body.nodes|
      ensures NodeRequiresEager(body.nodes[k]) <==> !body.nodes[k].Compute? && !Still(body.nodes[k])
    {
      StillReads(body.nodes[k]);
    }
  }

  /** The nodes that can live in a trace are exactly the still ones. */
  lemma SafeExactly(node: Node)
    ensures JitSafe(node) <==> Still(node)
  {
    StillReads(node);
    if node.Fold? {
      forall k | 0 <= k < |node.fn.nodes|
        ensures Still(node.fn.nodes[k]) <==>
            !NodeRequiresEager(node.fn.nodes[k]) && !HasDynamicStarts(node.fn.nodes[k])
      {
        StillReads(node.fn.nodes[k]);
      }
    }
  }

  function NodesOf(item: Item): seq<Node> {
    if item.Segment? then item.nodes else [item.node]
  }

  function Flatten(items: seq<Item>): seq<Node> {
    if items == [] then [] else Flatten(items[..|items| - 1]) + NodesOf(items[|items| - 1])
  }

  /** Where item k starts in the node list. */
  function Begin(items: seq<Item>, k: nat): (n: nat)
    requires k <= |items|
    ensures n == |Flatten(items[..k])|
  {
    |Flatten(items[..k])|
  }

  /** The split is right: the nodes in order; capturable nodes in segments, the others alone; and no
      segment next to another. */
  predicate SplitOk(items: seq<Item>, nodes: seq<Node>) {
    && Flatten(items) == nodes
    && (forall k :: 0 <= k < |items| ==> ItemOk(items[k]))
    && forall k :: 0 <= k < |items| - 1 ==> items[k].Eager? || items[k + 1].Eager?
  }

  predicate ItemOk(item: Item) {
    match item
    case Eager(node) => !JitSafe(node)
    case Segment(nodes, _, _) => nodes != [] && forall j :: 0 <= j < |nodes| ==> JitSafe(nodes[j])
  }

  /** What one pass has gathered: finished items, and the open segment. */
  predicate Splitting(items: seq<Item>, current: seq<Node>, nodes: seq<Node>) {
    && Flatten(items) + current == nodes
    && (forall k :: 0 <= k < |items| ==> ItemOk(items[k]))
    && (forall k :: 0 <= k < |items| - 1 ==> items[k].Eager? || items[k + 1].Eager?)
    && (forall j :: 0 <= j < |current| ==> JitSafe(current[j]))
    && (items != [] ==> items[|items| - 1].Eager?)
  }

  lemma FlattenAppend(items: seq<Item>, item: Item)
    ensures Flatten(items + [item]) == Flatten(items) + NodesOf(item)
  {
    assert (items + [item])[..|items|] == items;
  }

  lemma OneMoreSafe(items: seq<Item>, current: seq<Node>, nodes: seq<Node>, node: Node)
    requires Splitting(items, current, nodes) && JitSafe(node)
    ensures Splitting(items, current + [node], nodes + [node])
  {
    assert Flatten(items) + (current + [node]) == (Flatten(items) + current) + [node];
  }

  /** The open segment, if any, becomes an item. */
  function Flushed(items: seq<Item>, current: seq<Node>): seq<Item> {
    if current == [] then items else items + [Segment(current, [], [])]
  }

  lemma CloseSegment(items: seq<Item>, current: seq<Node>, nodes: seq<Node>)
    requires Splitting(items, current, nodes)
    ensures SplitOk(Flushed(items, current), nodes)
  {
    hide JitSafe;
    if current != [] {
      FlattenAppend(items, Segment(current, [], []));
      assert ItemOk(Segment(current, [], []));
    } else {
      assert Flatten(items) + current == Flatten(items);
    }
  }

  lemma AddEager(items: seq<Item>, nodes: seq<Node>, node: Node)
    requires SplitOk(items, nodes) && !JitSafe(node)
    ensures Splitting(items + [Eager(node)], [], nodes + [node])
  {
    hide JitSafe;
    FlattenAppend(items, Eager(node));
    assert ItemOk(Eager(node)) by { assert !JitSafe(node); }
    assert Flatten(items + [Eager(node)]) + [] == nodes + [node];
  }

  method Split(nodes: seq<Node>) returns (items: seq<Item>)
    ensures SplitOk(items, nodes)
    ensures forall k :: 0 <= k < |items| && items[k].Segment? ==> items[k].inputIds == [] && items[k].outputIds == []
  {
    hide Splitting, SplitOk, JitSafe, Flatten;
    items := [];
    var current: seq<Node> := [];
    assert Splitting([], [], nodes[..0]) by { SplitNothing(nodes); }
    for i := 0 to |nodes|
      invariant Splitting(items, current, nodes[..i])
      invariant forall k :: 0 <= k < |items| && items[k].Segment? ==>
          items[k].inputIds == [] && items[k].outputIds == []
    {
      assert nodes[..i + 1] == nodes[..i] + [nodes[i]];
      if JitSafe(nodes[i]) {
        OneMoreSafe(items, current, nodes[..i], nodes[i]);
        current := current + [nodes[i]];
      } else {
        CloseSegment(items, current, nodes[..i]);
        if current != [] {
          items := items + [Segment(current, [], [])];
          current := [];
        }
        AddEager(items, nodes[..i], nodes[i]);
        items := items + [Eager(nodes[i])];
      }
    }
    assert nodes[..|nodes|] == nodes;
    CloseSegment(items, current, nodes);
    if current != [] {
      items := items + [Segment(current, [], [])];
    }
  }

  lemma SplitNothing(nodes: seq<Node>)
    ensures Splitting([], [], nodes[..0])
  {
  }

  // -- liveness -----------------------------------------------------------------

  /** A segment's inputs: what it reads and neither defines first nor finds among the constants. */
  ghost predicate ReadsFrom(nodes: seq<Node>, ids: seq<nat>, constants: set<nat>) {
    && (forall i, j :: 0 <= i < j < |ids| ==> ids[i] != ids[j])
    && (forall k :: 0 <= k < |nodes| ==> forall id :: id in nodes[k].inputs ==>
        id in constants || id in ids || id in DefinedIn(nodes[..k]))
    && forall id :: id in ids ==> ReadFirst(nodes, id)
  }

  /** Some node reads the id before any node of the list defines it. */
  ghost predicate ReadFirst(nodes: seq<Node>, id: nat) {
    exists k :: 0 <= k < |nodes| && id in nodes[k].inputs && id !in DefinedIn(nodes[..k])
  }

  function DefinedIn(nodes: seq<Node>): set<nat> {
    if nodes == [] then {} else DefinedIn(nodes[..|nodes| - 1]) + SetOf(DefinedIds(nodes[|nodes| - 1]))
  }

  lemma {:induction false} DefinedAt(nodes: seq<Node>, id: nat)
    ensures id in DefinedIn(nodes) <==> exists k :: 0 <= k < |nodes| && id in DefinedIds(nodes[k])
  {
    if nodes != [] {
      DefinedAt(nodes[..|nodes| - 1], id);
      if k :| 0 <= k < |nodes| && id in DefinedIds(nodes[k]) {
        assert k < |nodes| - 1 ==> id in DefinedIds(nodes[..|nodes| - 1][k]);
      }
    }
  }

  /** What is needed strictly after each position: exactly what is read from there on, or returned. */
  ghost predicate NeededAt(items: seq<Item>, k: nat, outs: seq<nat>, needed: set<nat>)
    requires k <= |items|
  {
    forall id :: id in needed <==> Live(Flatten(items), Begin(items, k), outs, id)
  }

  lemma {:induction false} FlattenSplit(items: seq<Item>, k: nat)
    requires k < |items|
    ensures Begin(items, k + 1) == Begin(items, k) + |NodesOf(items[k])| <= |Flatten(items)|
    ensures Flatten(items)[Begin(items, k)..Begin(items, k + 1)] == NodesOf(items[k])
    decreases |items|
  {
    var init, last := items[..|items| - 1], items[|items| - 1];
    assert items[..k + 1][..k] == items[..k];
    if k < |items| - 1 {
      assert init[..k] == items[..k] && init[..k + 1] == items[..k + 1];
      FlattenSplit(init, k);
    } else {
      assert items[..k + 1] == items;
    }
  }

  lemma LiveSplit(nodes: seq<Node>, a: nat, b: nat, outs: seq<nat>, id: nat)
    requires a <= b <= |nodes|
    ensures Live(nodes, a, outs, id) <==>
        Live(nodes, b, outs, id) || exists j :: 0 <= j < b - a && id in nodes[a..b][j].inputs
  {
    if Live(nodes, a, outs, id) && !Live(nodes, b, outs, id) {
      var j :| a <= j < |nodes| && id in nodes[j].inputs;
      assert nodes[a..b][j - a] == nodes[j];
    }
    if j :| 0 <= j < b - a && id in nodes[a..b][j].inputs {
      assert id in nodes[a + j].inputs;
    }
  }

  /** One step of the backward pass. */
  lemma NeededBack(items: seq<Item>, k: nat, outs: seq<nat>, needed: set<nat>, needed': set<nat>)
    requires k < |items| && NeededAt(items, k + 1, outs, needed)
    requires forall id :: id in needed' <==>
        id in needed || exists j :: 0 <= j < |NodesOf(items[k])| && id in NodesOf(items[k])[j].inputs
    ensures NeededAt(items, k, outs, needed')
  {
    hide Flatten, Live, NodesOf;
    FlattenSplit(items, k);
    var all, a, b := Flatten(items), Begin(items, k), Begin(items, k + 1);
    forall id ensures id in needed' <==> Live(all, a, outs, id) {
      LiveSplit(all, a, b, outs, id);
    }
  }

  method ReadBy(nodes: seq<Node>, needed: set<nat>) returns (r: set<nat>)
    ensures forall id :: id in r <==> id in needed || exists j :: 0 <= j < |nodes| && id in nodes[j].inputs
  {
    r := needed;
    for i := 0 to |nodes|
      invariant forall id :: id in r <==> id in needed || exists j :: 0 <= j < i && id in nodes[j].inputs
    {
      r := r + SetOf(nodes[i].inputs);
    }
  }

  method NeededAfter(items: seq<Item>, outs: seq<nat>) returns (after: seq<set<nat>>)
    ensures |after| == |items| && forall k :: 0 <= k < |items| ==> NeededAt(items, k + 1, outs, after[k])
  {
    after := seq(|items|, _ => {});
    var needed := SetOf(outs);
    var k := |items|;
    assert items[..k] == items;
    while k > 0
      invariant k <= |items| && |after| == |items| && NeededAt(items, k, outs, needed)
      invariant forall j :: k <= j < |items| ==> NeededAt(items, j + 1, outs, after[j])
    {
      k := k - 1;
      after := after[k := needed];
      ghost var before := needed;
      needed := ReadBy(NodesOf(items[k]), needed);
      NeededBack(items, k, outs, before, needed);
    }
  }

  // -- a segment's inputs and outputs ----------------------------------------------

  method SegmentInputs(nodes: seq<Node>, constants: set<nat>) returns (ids: seq<nat>)
    ensures ReadsFrom(nodes, ids, constants)
    ensures forall id :: id in ids ==> id !in constants
  {
    hide ReadFirst, DefinedIn;
    var defined: set<nat> := {};
    ids := [];
    assert DefinedIn(nodes[..0]) == {} by { NothingDefined(nodes); }
    for i := 0 to |nodes|
      invariant defined == DefinedIn(nodes[..i])
      invariant forall a, b :: 0 <= a < b < |ids| ==> ids[a] != ids[b]
      invariant forall k :: 0 <= k < i ==> forall id :: id in nodes[k].inputs ==>
          id in constants || id in ids || id in DefinedIn(nodes[..k])
      invariant forall id :: id in ids ==> ReadFirst(nodes, id) && id !in constants
    {
      assert nodes[..i + 1][..i] == nodes[..i];
      var refs := nodes[i].inputs;
      for r := 0 to |refs|
        invariant forall a, b :: 0 <= a < b < |ids| ==> ids[a] != ids[b]
        invariant forall k :: 0 <= k < i ==> forall id :: id in nodes[k].inputs ==>
            id in constants || id in ids || id in DefinedIn(nodes[..k])
        invariant forall id :: id in ids ==> ReadFirst(nodes, id) && id !in constants
        invariant forall id :: id in refs[..r] ==> id in constants || id in ids || id in DefinedIn(nodes[..i])
      {
        assert refs[..r + 1] == refs[..r] + [refs[r]];
        if refs[r] !in defined && refs[r] !in constants && refs[r] !in ids {
          ReadHere(nodes, i, refs[r]);
          ids := ids + [refs[r]];
        }
      }
      assert refs[..|refs|] == refs;
      DefinedMore(nodes, i);
      defined := defined + SetOf(DefinedIds(nodes[i]));
    }
    assert nodes[..|nodes|] == nodes;
  }

  lemma NothingDefined(nodes: seq<Node>)
    ensures DefinedIn(nodes[..0]) == {}
  {
  }

  lemma DefinedMore(nodes: seq<Node>, i: nat)
    requires i < |nodes|
    ensures DefinedIn(nodes[..i + 1]) == DefinedIn(nodes[..i]) + SetOf(DefinedIds(nodes[i]))
  {
    assert nodes[..i + 1][..i] == nodes[..i];
  }

  lemma ReadHere(nodes: seq<Node>, i: nat, id: nat)
    requires i < |nodes| && id in nodes[i].inputs && id !in DefinedIn(nodes[..i])
    ensures ReadFirst(nodes, id)
  {
  }

  predicate Ascending(ids: seq<nat>) {
    forall i, j :: 0 <= i < j < |ids| ==> ids[i] < ids[j]
  }

  function Insert(ids: seq<nat>, x: nat): (r: seq<nat>)
    requires Ascending(ids) && x !in ids
    ensures Ascending(r) && forall id :: id in r <==> id in ids || id == x
  {
    if ids == [] then [x]
    else if ids[0] < x then
      assert forall id :: id in ids <==> id == ids[0] || id in ids[1..];
      var rest := Insert(ids[1..], x);
      assert forall j :: 0 <= j < |rest| ==> rest[j] in rest;
      [ids[0]] + rest
    else [x] + ids
  }

  method Sorted(s: set<nat>) returns (ids: seq<nat>)
    ensures Ascending(ids) && forall id :: id in ids <==> id in s
  {
    var rest := s;
    ids := [];
    while rest != {}
      invariant Ascending(ids) && rest <= s && forall id :: id in ids <==> id in s - rest
      decreases |rest|
    {
      var x :| x in rest;
      ids := Insert(ids, x);
      rest := rest - {x};
    }
  }

  /** A segment reads only what its inputs and the constants give, and returns what is defined in it
      and needed after it. */
  ghost predicate SegmentOk(items: seq<Item>, k: nat, constants: set<nat>, outs: seq<nat>)
    requires k < |items| && items[k].Segment?
  {
    && ReadsFrom(items[k].nodes, items[k].inputIds, constants)
    && (forall id :: id in items[k].inputIds ==> id !in constants)
    && Ascending(items[k].outputIds)
    && forall id :: id in items[k].outputIds <==>
        id in DefinedIn(items[k].nodes) && Live(Flatten(items), Begin(items, k + 1), outs, id)
  }

  ghost predicate PlanOk(items: seq<Item>, nodes: seq<Node>, constants: set<nat>, outs: seq<nat>) {
    SplitOk(items, nodes) && forall k :: 0 <= k < |items| && items[k].Segment? ==> SegmentOk(items, k, constants, outs)
  }

  lemma {:induction false} FlattenSame(a: seq<Item>, b: seq<Item>)
    requires |a| == |b| && forall k :: 0 <= k < |a| ==> NodesOf(a[k]) == NodesOf(b[k])
    ensures Flatten(a) == Flatten(b)
  {
    if a != [] {
      FlattenSame(a[..|a| - 1], b[..|b| - 1]);
    }
  }

  /** The item with its inputs and outputs filled in. */
  method FillIn(item: Item, constants: set<nat>, after: set<nat>) returns (filled: Item)
    requires item.Segment?
    ensures filled.Segment? && filled.nodes == item.nodes && ReadsFrom(item.nodes, filled.inputIds, constants)
    ensures forall id :: id in filled.inputIds ==> id !in constants
    ensures Ascending(filled.outputIds) && forall id :: id in filled.outputIds <==>
        id in DefinedIn(item.nodes) && id in after
  {
    var inputIds := SegmentInputs(item.nodes, constants);
    var outputIds := Sorted(DefinedIn(item.nodes) * after);
    filled := Segment(item.nodes, inputIds, outputIds);
  }

  lemma PlanFilled(items: seq<Item>, plan: seq<Item>, after: seq<set<nat>>, nodes: seq<Node>, constants: set<nat>,
      outs: seq<nat>)
    requires SplitOk(items, nodes) && |plan| == |items| == |after| && forall k :: 0 <= k < |items| ==>
        NeededAt(items, k + 1, outs, after[k])
    requires forall k :: 0 <= k < |items| ==> Filled(items[k], plan[k], constants, after[k])
    ensures PlanOk(plan, nodes, constants, outs)
  {
    hide Flatten, JitSafe, ReadsFrom, Ascending, Live, DefinedIn;
    FlattenSame(items, plan);
    forall k | 0 <= k < |plan| ensures ItemOk(plan[k]) && (plan[k].Eager? <==> items[k].Eager?) {
      assert ItemOk(items[k]) && Filled(items[k], plan[k], constants, after[k]);
    }
    forall k | 0 <= k < |plan| && plan[k].Segment? ensures SegmentOk(plan, k, constants, outs) {
      assert Filled(items[k], plan[k], constants, after[k]);
      FlattenSame(items[..k + 1], plan[..k + 1]);
      assert NeededAt(items, k + 1, outs, after[k]);
    }
  }

  ghost predicate Filled(item: Item, filled: Item, constants: set<nat>, after: set<nat>) {
    && NodesOf(filled) == NodesOf(item) && (item.Eager? <==> filled.Eager?)
    && (item.Segment? ==>
          && ReadsFrom(item.nodes, filled.inputIds, constants)
          && (forall id :: id in filled.inputIds ==> id !in constants)
          && Ascending(filled.outputIds)
          && forall id :: id in filled.outputIds <==> id in DefinedIn(item.nodes) && id in after)
  }

  /** The plan of a graph, unless nothing in it can be captured. */
  method PlanSegments(nodes: seq<Node>, constants: set<nat>, outs: seq<nat>) returns (plan: Option<seq<Item>>)
    ensures plan.None? <==> forall k :: 0 <= k < |nodes| ==> !JitSafe(nodes[k])
    ensures plan.Some? ==> PlanOk(plan.value, nodes, constants, outs)
  {
    hide JitSafe, ReadsFrom, Ascending, SplitOk, NeededAt, DefinedIn;
    var items := Split(nodes);
    HasSegment(items, nodes);
    if forall k :: 0 <= k < |items| ==> !items[k].Segment? {
      return None;
    }
    var after := NeededAfter(items, outs);
    var filled: seq<Item> := [];
    for k := 0 to |items|
      invariant |filled| == k
      invariant forall j :: 0 <= j < k ==> Filled(items[j], filled[j], constants, after[j])
    {
      var item := items[k];
      if item.Segment? {
        item := FillIn(item, constants, after[k]);
      }
      assert Filled(items[k], item, constants, after[k]);
      filled := filled + [item];
    }
    PlanFilled(items, filled, after, nodes, constants, outs);
    plan := Some(filled);
  }

  lemma HasSegment(items: seq<Item>, nodes: seq<Node>)
    requires SplitOk(items, nodes)
    ensures (exists k :: 0 <= k < |items| && items[k].Segment?) <==> exists k :: 0 <= k < |nodes| && JitSafe(nodes[k])
  {
    hide JitSafe;
    if k :| 0 <= k < |items| && items[k].Segment? {
      assert ItemOk(items[k]);
      FlattenSplit(items, k);
      assert nodes[Begin(items, k)..Begin(items, k + 1)][0] == nodes[Begin(items, k)];
    }
    if j :| 0 <= j < |nodes| && JitSafe(nodes[j]) {
      var k := ItemAt(items, j);
      assert ItemOk(items[k]) && nodes[j] in NodesOf(items[k]);
      assert items[k].Segment?;
    }
  }

  lemma {:induction false} ItemAt(items: seq<Item>, j: nat) returns (k: nat)
    requires j < |Flatten(items)|
    ensures k < |items| && Begin(items, k) <= j < Begin(items, k + 1) == Begin(items, k) + |NodesOf(items[k])|
    ensures Flatten(items)[j] == NodesOf(items[k])[j - Begin(items, k)]
  {
    hide NodesOf;
    assert items != [];
    var init := items[..|items| - 1];
    if j < |Flatten(init)| {
      k := ItemAt(init, j);
      assert init[..k] == items[..k] && init[..k + 1] == items[..k + 1];
      assert init[k] == items[k];
    } else {
      k := |items| - 1;
      assert items[..k + 1] == items && items[..k] == init;
    }
  }
}
