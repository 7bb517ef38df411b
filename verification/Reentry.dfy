/** Loops inside loops, and loops inside folds.  A captured step writes the same buffers every time
    its loop is entered again, so nothing still needed may live in them.  This is the condition,
    stated on the graph alone: an account of the captured steps whose buffers each value may be in,
    kept through every node. */
module Reentry {
  import opened Values
  import opened GraphIR
  import opened LazyTensors
  import opened Devices
  import opened SymbolicPlan

  /** The last input with an index: the id a loop variable has in a sub-graph. */
  function InputIdAt(inputs: seq<GraphInput>, index: nat): Option<nat> {
    if inputs == [] then None
    else if inputs[|inputs| - 1].index == index then Some(inputs[|inputs| - 1].id)
    else InputIdAt(inputs[..|inputs| - 1], index)
  }

  /** Loop variable j is returned as it came. */
  predicate Invariant(body: Sub, j: nat) {
    j < |body.outputs| && InputIdAt(body.inputs, j) == Some(body.outputs[j].id)
  }

  lemma {:induction false} InputIdFound(inputs: seq<GraphInput>, index: nat)
    ensures InputIdAt(inputs, index).Some? <==> exists k :: 0 <= k < |inputs| && inputs[k].index == index
    ensures (forall i, k :: 0 <= i < k < |inputs| ==> inputs[i].index != inputs[k].index) ==>
        forall k :: 0 <= k < |inputs| && inputs[k].index == index ==> InputIdAt(inputs, index) == Some(inputs[k].id)
  {
    if inputs != [] {
      InputIdFound(inputs[..|inputs| - 1], index);
    }
  }

  /** A variable is passed through exactly if its output names the input at its own position. */
  lemma InvariantExactly(body: Sub, j: nat)
    requires j < |body.outputs|
    requires forall i, k :: 0 <= i < k < |body.inputs| ==> body.inputs[i].index != body.inputs[k].index
    ensures Invariant(body, j) <==>
        exists k :: 0 <= k < |body.inputs| && body.inputs[k] == body.inputs[k].(id := body.outputs[j].id, index := j)
  {
    InputIdFound(body.inputs, j);
    if Invariant(body, j) {
      var k :| 0 <= k < |body.inputs| && body.inputs[k].index == j;
      assert body.inputs[k] == body.inputs[k].(id := body.outputs[j].id, index := j);
    }
  }

  /** What holds a loop cannot be captured. */
  lemma {:induction false} LoopsEager(node: Node)
    requires Loops(node)
    ensures NodeRequiresEager(node)
    decreases node
  {
    if node.Fold? {
      var k :| 0 <= k < |node.fn.nodes| && Loops(node.fn.nodes[k]);
      LoopsEager(node.fn.nodes[k]);
    }
  }

  // -- where values may be ------------------------------------------------------------

  /** The captured steps, by path, whose buffers the base that a value is a view of may be in, and
      those whose buffers it may be read from. */
  datatype Taint = Taint(base: set<Path>, all: set<Path>)

  type Taints = map<nat, Taint>

  const CLEAN := Taint({}, {})

  function TaintAt(m: Taints, id: nat): Taint {
    if id in m then m[id] else CLEAN
  }

  predicate WithinTaint(x: Taint, y: Taint) {
    x.base <= y.base && x.all <= y.all
  }

  function AllOf(m: Taints, ids: seq<nat>): (s: set<Path>)
    ensures forall k :: 0 <= k < |ids| ==> TaintAt(m, ids[k]).all <= s
  {
    if ids == [] then {} else AllOf(m, ids[..|ids| - 1]) + TaintAt(m, ids[|ids| - 1]).all
  }

  /** The bases of some ids, one by one. */
  function BasesAt(m: Taints, ids: seq<nat>): (a: seq<set<Path>>)
    ensures |a| == |ids| && forall k :: 0 <= k < |ids| ==> a[k] == TaintAt(m, ids[k]).base
  {
    seq(|ids|, k requires 0 <= k < |ids| => TaintAt(m, ids[k]).base)
  }

  /** A value in a buffer is read from it alone. */
  function Held(t: seq<set<Path>>): (ts: seq<Taint>)
    ensures |ts| == |t| && forall j :: 0 <= j < |ts| ==> ts[j] == Taint(t[j], t[j])
  {
    seq(|t|, j requires 0 <= j < |t| => Taint(t[j], t[j]))
  }

  /** Nothing of what is captured below a path. */
  predicate Clean(s: set<Path>, k: Path) {
    forall r :: r in s ==> !(k <= r)
  }

  /** A window reads its start operands at once. */
  function Kept(node: Node): seq<nat> {
    if node.Compute? && node.kernel.Window? && |node.inputs| >= FirstStart(node.kernel.wop)
    then node.inputs[..FirstStart(node.kernel.wop)] else node.inputs
  }

  /** A result computed lazily: a view has its operand's base. */
  function Flow(sem: Sem, node: Node, m: Taints): Taint {
    if node.Compute? then
      Taint(if IsView(sem, node.kernel) && node.inputs != [] then TaintAt(m, node.inputs[0]).base
          else {}, AllOf(m, Kept(node)))
    else Taint({}, AllOf(m, node.inputs))
  }

  /** Bind taints, by position, to ids. */
  function BindTaints(ids: seq<nat>, ts: seq<Taint>, m: Taints): Taints {
    if ids == [] then m
    else
      var last := |ids| - 1;
      var m := BindTaints(ids[..last], ts, m);
      if last < |ts| then m[ids[last] := ts[last]] else m
  }

  function StartTaints(inputs: seq<GraphInput>, ts: seq<Taint>): Taints {
    if inputs == [] then map[]
    else
      var last := inputs[|inputs| - 1];
      var m := StartTaints(inputs[..|inputs| - 1], ts);
      if last.index < |ts| then m[last.id := ts[last.index]] else m
  }

  /** An id is read at position i or later, or is an output. */
  predicate Live(nodes: seq<Node>, i: nat, outs: seq<nat>, id: nat) {
    id in outs || exists j :: i <= j < |nodes| && id in nodes[j].inputs
  }

  // -- when it is safe ------------------------------------------------------------------

  /** Nothing needed after node i is where the loops in it write. */
  predicate LiveClean(nodes: seq<Node>, i: nat, outs: seq<nat>, p: Path, m: Taints) {
    forall id :: id in m && Live(nodes, i + 1, outs, id) ==> Clean(m[id].all, p + [i])
  }

  /** The taints before each node and after the last, with every node safe. */
  ghost predicate SafeChain(sem: Sem, nodes: seq<Node>, outs: seq<nat>, p: Path, ms: seq<Taints>)
    decreases nodes, 1
  {
    |ms| == |nodes| + 1 && forall i :: 0 <= i < |nodes| ==> SafeStep(sem, nodes, i, outs, p, ms[i], ms[i + 1])
  }

  ghost predicate SafeStep(sem: Sem, nodes: seq<Node>, i: nat, outs: seq<nat>, p: Path, m: Taints, m': Taints)
    requires i < |nodes|
    decreases nodes, 0
  {
    match nodes[i]
    case While(inputs, _, body, outputs) =>
      && LiveClean(nodes, i, outs, p, m)
      && exists t: seq<set<Path>> :: SafeLoop(sem, nodes[i], p + [i], BasesAt(m, inputs), t)
          && m' == BindTaints(OutIds(outputs), Held(t), m)
    case Fold(id, _, _, inputs, _, _, _) =>
      if !Loops(nodes[i]) then m' == m[id := Flow(sem, nodes[i], m)]
      else
        && LiveClean(nodes, i, outs, p, m) && |inputs| == 2
        && exists c: Taint ::
             SafeFold(sem, nodes[i], p + [i], TaintAt(m, inputs[0]), TaintAt(m, inputs[1]), c) &&
             m' == m[id := Taint({}, TaintAt(m, inputs[0]).all + c.all)]
    case Compute(id, _, _) => m' == m[id := Flow(sem, nodes[i], m)]
  }

  /** A loop at path k, given operands that may be in the buffers `a`, keeps its variables in `t`: one
      pass over the body stays within, and nothing needed in the condition or the body is
      overwritten there.  A captured step returns all but the invariant variables in its own
      buffers, and must not be given an invariant one from there. */
  ghost predicate SafeLoop(sem: Sem, node: Node, k: Path, a: seq<set<Path>>, t: seq<set<Path>>)
    requires node.While?
    decreases node, 2
  {
    && |t| == |a| == |node.body.outputs|
    && (forall j :: 0 <= j < |t| ==> a[j] <= t[j] && Clean(t[j], k + [0]))
    && (forall j, r :: 0 <= j < |t| && r in t[j] ==> k <= r || exists i :: 0 <= i < |a| && r in a[i])
    && (!RequiresEager(node.body) ==> forall j :: 0 <= j < |t| ==> (k in t[j] <==> !Invariant(node.body, j)))
    && (exists ms: seq<Taints> ::
          SafeChain(sem, node.cond.nodes, OutIds(node.cond.outputs), k + [0], ms)
              && ms[0] == StartTaints(node.cond.inputs, Held(t)))
    && exists ms: seq<Taints> ::
         && SafeChain(sem, node.body.nodes, OutIds(node.body.outputs), k + [1], ms)
             && ms[0] == StartTaints(node.body.inputs, Held(t))
         && forall j :: 0 <= j < |t| ==> TaintAt(ms[|node.body.nodes|], node.body.outputs[j].id).base <= t[j]
  }

  /** A fold at path k whose function holds loops, over a tensor and from an accumulator with these
      taints, keeps its accumulator in `c`. */
  ghost predicate SafeFold(sem: Sem, node: Node, k: Path, x: Taint, y: Taint, c: Taint)
    requires node.Fold?
    decreases node, 2
  {
    && WithinTaint(Taint({}, x.all + y.all), c) && c.base <= c.all && Clean(x.all, k) && node.fn.outputs != []
    && (forall r :: r in c.all ==> k <= r || r in x.all + y.all)
    && exists ms: seq<Taints> ::
         && SafeChain(sem, node.fn.nodes, OutIds(node.fn.outputs), k + [1], ms)
             && ms[0] == StartTaints(node.fn.inputs, [c, x])
         && WithinTaint(TaintAt(ms[|node.fn.nodes|], node.fn.outputs[0].id), c)
  }

  /** A node that can be entered, wherever it stands, with nothing of its own in its operands. */
  ghost predicate EntersSafely(sem: Sem, node: Node) {
    match node
    case While(_, _, body, _) =>
      forall k: Path, a: seq<set<Path>> :: |a| == |body.outputs| && (forall j :: 0 <= j < |a| ==> Clean(a[j], k)) ==>
          CanEnter(sem, node, k, a)
    case Fold(_, _, _, _, _, _, _) =>
      Loops(node) ==> forall k: Path, x: Taint, y: Taint :: Clean(x.all, k) && Clean(y.all, k) ==>
          CanFold(sem, node, k, x, y)
    case Compute(_, _, _) => true
  }

  ghost predicate CanEnter(sem: Sem, node: Node, k: Path, a: seq<set<Path>>)
    requires node.While?
  {
    exists t: seq<set<Path>> :: SafeLoop(sem, node, k, a, t)
  }

  ghost predicate CanFold(sem: Sem, node: Node, k: Path, x: Taint, y: Taint)
    requires node.Fold?
  {
    exists c: Taint :: SafeFold(sem, node, k, x, y, c)
  }

  ghost predicate AllEnter(sem: Sem, nodes: seq<Node>) {
    forall i :: 0 <= i < |nodes| ==> EntersSafely(sem, nodes[i])
  }

  // -- a list entered once ----------------------------------------------------------------

  /** Everything is in buffers of captured steps in the first n nodes. */
  ghost predicate TaintsBelow(m: Taints, p: Path, n: nat) {
    forall id, r :: id in m && r in m[id].base + m[id].all ==> BelowNode(r, p, n)
  }

  predicate BelowNode(r: Path, p: Path, n: nat) {
    p <= r && |r| > |p| && r[|p|] < n
  }

  lemma BelowClean(m: Taints, p: Path, n: nat, id: nat)
    requires TaintsBelow(m, p, n)
    ensures Clean(TaintAt(m, id).all, p + [n]) && Clean(TaintAt(m, id).base, p + [n])
  {
    if id in m {
      forall r | r in m[id].base + m[id].all ensures !(p + [n] <= r) {
        assert BelowNode(r, p, n);
        assert (p + [n])[|p|] == n;
      }
      forall r | r in m[id].all || r in m[id].base ensures !(p + [n] <= r) {
        assert r in m[id].base + m[id].all;
      }
    }
  }

  lemma {:induction false} AllOfBelow(m: Taints, ids: seq<nat>, p: Path, n: nat)
    requires TaintsBelow(m, p, n)
    ensures forall r :: r in AllOf(m, ids) ==> BelowNode(r, p, n)
  {
    if ids != [] {
      AllOfBelow(m, ids[..|ids| - 1], p, n);
    }
  }

  lemma {:induction false} BoundBelow(ids: seq<nat>, ts: seq<Taint>, m: Taints, p: Path, n: nat)
    requires TaintsBelow(m, p, n) && forall j, r :: 0 <= j < |ts| && r in ts[j].base + ts[j].all ==> BelowNode(r, p, n)
    ensures TaintsBelow(BindTaints(ids, ts, m), p, n)
  {
    if ids != [] {
      BoundBelow(ids[..|ids| - 1], ts, m, p, n);
    }
  }

  lemma BelowMore(m: Taints, p: Path, n: nat)
    requires TaintsBelow(m, p, n)
    ensures TaintsBelow(m, p, n + 1)
  {
    forall id, r | id in m && r in m[id].base + m[id].all ensures BelowNode(r, p, n + 1) {
      assert BelowNode(r, p, n);
    }
  }

  /** One more node, entered with nothing of its own. */
  lemma EnterNode(sem: Sem, nodes: seq<Node>, i: nat, outs: seq<nat>, p: Path, m: Taints) returns (m': Taints)
    requires i < |nodes| && EntersSafely(sem, nodes[i]) && TaintsBelow(m, p, i) && LoopsFit(nodes[i])
    ensures SafeStep(sem, nodes, i, outs, p, m, m') && TaintsBelow(m', p, i + 1)
  {
    hide SafeLoop, SafeFold, Live, Loops;
    var node, k := nodes[i], p + [i];
    BelowMore(m, p, i);
    AllOfBelow(m, node.inputs, p, i);
    forall id | id in m ensures Clean(m[id].all, k) {
      BelowClean(m, p, i, id);
    }
    if node.While? {
      var a := BasesAt(m, node.inputs);
      forall j | 0 <= j < |a| ensures Clean(a[j], k) {
        BelowClean(m, p, i, node.inputs[j]);
      }
      assert CanEnter(sem, node, k, a);
      var t :| SafeLoop(sem, node, k, a, t);
      m' := BindTaints(OutIds(node.outputs), Held(t), m);
      LoopBelow(sem, node, m, p, i, t);
      BoundBelow(OutIds(node.outputs), Held(t), m, p, i + 1);
    } else if node.Fold? && Loops(node) {
      var x, y := TaintAt(m, node.inputs[0]), TaintAt(m, node.inputs[1]);
      BelowClean(m, p, i, node.inputs[0]);
      BelowClean(m, p, i, node.inputs[1]);
      assert CanFold(sem, node, k, x, y);
      var c :| SafeFold(sem, node, k, x, y, c);
      m' := m[node.id := Taint({}, x.all + c.all)];
      FoldBelow(sem, node, m, p, i, c);
    } else {
      m' := m[node.id := Flow(sem, node, m)];
      AllOfBelow(m, Kept(node), p, i);
    }
  }

  /** A loop takes and returns as many values as its body; a fold takes two. */
  predicate LoopsFit(node: Node) {
    match node
    case While(inputs, _, body, _) => |inputs| == |body.outputs|
    case Fold(_, _, _, inputs, _, _, _) => |inputs| == 2
    case Compute(_, _, _) => true
  }

  lemma LoopBelow(sem: Sem, node: Node, m: Taints, p: Path, i: nat, t: seq<set<Path>>)
    requires node.While? && TaintsBelow(m, p, i) && SafeLoop(sem, node, p + [i], BasesAt(m, node.inputs), t)
    ensures forall j, r :: 0 <= j < |t| && r in t[j] ==> BelowNode(r, p, i + 1)
  {
    var a, k := BasesAt(m, node.inputs), p + [i];
    forall j, r | 0 <= j < |t| && r in t[j] ensures BelowNode(r, p, i + 1) {
      if k <= r {
        assert r[|p|] == k[|p|] == i && r[..|p|] == k[..|p|] == p;
      } else {
        var n :| 0 <= n < |a| && r in a[n];
        assert node.inputs[n] in m && r in m[node.inputs[n]].base;
        assert BelowNode(r, p, i);
      }
    }
  }

  lemma FoldBelow(sem: Sem, node: Node, m: Taints, p: Path, i: nat, c: Taint)
    requires node.Fold? && |node.inputs| == 2 && TaintsBelow(m, p, i)
    requires SafeFold(sem, node, p + [i], TaintAt(m, node.inputs[0]), TaintAt(m, node.inputs[1]), c)
    ensures TaintsBelow(m[node.id := Taint({}, TaintAt(m, node.inputs[0]).all + c.all)], p, i + 1)
  {
    var x, y, k := TaintAt(m, node.inputs[0]), TaintAt(m, node.inputs[1]), p + [i];
    BelowMore(m, p, i);
    forall r | r in x.all + y.all ensures BelowNode(r, p, i + 1) {
      assert BelowNode(r, p, i);
    }
    forall r | r in c.all ensures BelowNode(r, p, i + 1) {
      if k <= r {
        assert r[|p|] == k[|p|] == i && r[..|p|] == k[..|p|] == p;
      }
    }
  }

  /** A list whose nodes can be entered, run once with nothing of theirs around, is safe throughout. */
  lemma {:induction false} EnteredOnce(sem: Sem, nodes: seq<Node>, outs: seq<nat>, p: Path, n: nat)
      returns (ms: seq<Taints>)
    requires n <= |nodes| && AllEnter(sem, nodes) && forall i :: 0 <= i < |nodes| ==> LoopsFit(nodes[i])
    ensures |ms| == n + 1 && ms[0] == map[] && TaintsBelow(ms[n], p, n)
    ensures forall i :: 0 <= i < n ==> SafeStep(sem, nodes, i, outs, p, ms[i], ms[i + 1])
  {
    hide SafeStep, EntersSafely, LoopsFit;
    if n == 0 {
      ms := [map[]];
    } else {
      var before := EnteredOnce(sem, nodes, outs, p, n - 1);
      var m := EnterNode(sem, nodes, n - 1, outs, p, before[n - 1]);
      ms := before + [m];
      forall i | 0 <= i < n ensures SafeStep(sem, nodes, i, outs, p, ms[i], ms[i + 1]) {
        if i < n - 1 {
          assert ms[i] == before[i] && ms[i + 1] == before[i + 1];
        }
      }
    }
  }
}
