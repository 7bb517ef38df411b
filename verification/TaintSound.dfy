/** The static taints bound, buffer by buffer, where a run's tensors are. */
module TaintSound {
  import opened Values
  import opened GraphIR
  import opened LazyTensors
  import opened LazySound
  import opened Devices
  import opened Reentry

  /** Of the buffers that captured steps below a path own, only those of the steps in `s`. */
  predicate AllTainted(bs: set<nat>, owner: seq<Option<Path>>, top: Path, s: set<Path>) {
    forall b :: b in bs ==> b < |owner| && (Under(owner[b], top) ==> owner[b].value in s)
  }

  predicate TensorTainted(sem: Sem, t: Tensor, taint: Taint, owner: seq<Option<Path>>, top: Path) {
    && AllTainted(Support(t), owner, top, taint.all)
    && AllTainted(BaseBuf(sem, t), owner, top, taint.base)
  }

  ghost predicate AllTensorsTainted(sem: Sem, ts: seq<Tensor>, taints: seq<Taint>, owner: seq<Option<Path>>,
      top: Path)
  {
    |ts| == |taints| && forall j :: 0 <= j < |ts| ==> TensorTainted(sem, ts[j], taints[j], owner, top)
  }

  ghost predicate EnvTainted(sem: Sem, env: TensorEnv, m: Taints, owner: seq<Option<Path>>, top: Path) {
    forall id :: id in env ==> TensorTainted(sem, env[id], TaintAt(m, id), owner, top)
  }

  lemma TaintWider(sem: Sem, t: Tensor, x: Taint, y: Taint, owner: seq<Option<Path>>, top: Path)
    requires TensorTainted(sem, t, x, owner, top) && WithinTaint(x, y)
    ensures TensorTainted(sem, t, y, owner, top)
  {
  }

  lemma TaintLater(sem: Sem, t: Tensor, x: Taint, o0: seq<Option<Path>>, o1: seq<Option<Path>>, top: Path)
    requires TensorTainted(sem, t, x, o0, top) && o0 <= o1
    ensures TensorTainted(sem, t, x, o1, top)
  {
  }

  /** Owners never change. */
  lemma EnvTaintedLater(sem: Sem, env: TensorEnv, m: Taints, o0: seq<Option<Path>>, o1: seq<Option<Path>>, top: Path)
    requires EnvTainted(sem, env, m, o0, top) && o0 <= o1
    ensures EnvTainted(sem, env, m, o1, top)
  {
    forall id | id in env ensures TensorTainted(sem, env[id], TaintAt(m, id), o1, top) {
      TaintLater(sem, env[id], TaintAt(m, id), o0, o1, top);
    }
  }

  lemma {:induction false} OperandsTainted(sem: Sem, env: TensorEnv, m: Taints, ids: seq<nat>, args: seq<Tensor>,
      owner: seq<Option<Path>>, top: Path)
    requires EnvTainted(sem, env, m, owner, top) && Tensors(env, ids) == Ok(args)
    ensures AllTainted(SupportAll(args), owner, top, AllOf(m, ids))
  {
    forall b | b in SupportAll(args) ensures b < |owner| && (Under(owner[b], top) ==> owner[b].value in AllOf(m, ids)) {
      SupportAllAt(args, b);
      var k :| 0 <= k < |args| && b in Support(args[k]);
      assert TensorTainted(sem, env[ids[k]], TaintAt(m, ids[k]), owner, top);
      assert TaintAt(m, ids[k]).all <= AllOf(m, ids);
    }
  }

  /** A view's base is its operand's; nothing else has a base. */
  lemma LazyNodeBase(sem: Sem, blobs: seq<Bytes>, node: Node, args: seq<Tensor>, mem: Memory)
    requires !node.While? && (node.Compute? ==> node.kernel.Op? || node.kernel.Window?)
    requires LazyNode(sem, blobs, node, args, mem).Ok?
    ensures var t := LazyNode(sem, blobs, node, args, mem).value;
            BaseBuf(sem, t) <= if node.Compute? && IsView(sem, node.kernel)
                && args != [] then BaseBuf(sem, args[0]) else {}
  {
  }

  /** A window keeps none of its start operands. */
  lemma LazyNodeKept(sem: Sem, blobs: seq<Bytes>, node: Node, env: TensorEnv, args: seq<Tensor>, mem: Memory)
    requires !node.While? && Tensors(env, node.inputs) == Ok(args) && LazyNode(sem, blobs, node, args, mem).Ok?
    ensures Tensors(env, if node.Compute? then Kept(node) else node.inputs).Ok?
    ensures Support(LazyNode(sem, blobs, node, args, mem).value) <= SupportAll(Tensors(env, if node.Compute?
        then Kept(node) else node.inputs).value)
  {
    var ids := if node.Compute? then Kept(node) else node.inputs;
    if ids == node.inputs {
      LazyNodeMadeOf(sem, blobs, node, args, mem);
    } else {
      assert Tensors(env, ids).value == args[..|ids|];
    }
  }

  lemma LoopFreeTainted(sem: Sem, blobs: seq<Bytes>, node: Node, m: Taints, env: TensorEnv, args: seq<Tensor>,
      mem: Memory, owner: seq<Option<Path>>, top: Path)
    requires !node.While? && (node.Compute? ==> node.kernel.Op? || node.kernel.Window?)
    requires EnvTainted(sem, env, m, owner, top) && Tensors(env, node.inputs) == Ok(args)
    requires LazyNode(sem, blobs, node, args, mem).Ok?
    ensures EnvTainted(sem, env[node.id := LazyNode(sem, blobs, node, args, mem).value],
        m[node.id := Flow(sem, node, m)], owner, top)
  {
    hide LazyNode, Kept;
    var t := LazyNode(sem, blobs, node, args, mem).value;
    var m' := m[node.id := Flow(sem, node, m)];
    LazyNodeBase(sem, blobs, node, args, mem);
    LazyNodeKept(sem, blobs, node, env, args, mem);
    var ids := if node.Compute? then Kept(node) else node.inputs;
    OperandsTainted(sem, env, m, ids, Tensors(env, ids).value, owner, top);
    if args != [] {
      assert TensorTainted(sem, env[node.inputs[0]], TaintAt(m, node.inputs[0]), owner, top);
    }
    assert TensorTainted(sem, t, TaintAt(m', node.id), owner, top);
    forall id | id in env && id != node.id ensures TensorTainted(sem, env[id], TaintAt(m', id), owner, top) {
      assert TensorTainted(sem, env[id], TaintAt(m, id), owner, top);
    }
  }

  // -- loops --------------------------------------------------------------------

  /** Bind results, by position, to ids. */
  function BindResults(ids: seq<nat>, ts: seq<Tensor>, env: TensorEnv): TensorEnv {
    if ids == [] then env
    else
      var last := |ids| - 1;
      var env := BindResults(ids[..last], ts, env);
      if last < |ts| then env[ids[last] := ts[last]] else env
  }

  /** Results bring their taints to the ids they are bound to. */
  lemma {:induction false} ResultsTainted(sem: Sem, ids: seq<nat>, rs: seq<Tensor>, taints: seq<Taint>, env: TensorEnv,
      m: Taints, owner: seq<Option<Path>>, top: Path)
    requires EnvTainted(sem, env, m, owner, top) && AllTensorsTainted(sem, rs, taints, owner, top)
    ensures EnvTainted(sem, BindResults(ids, rs, env), BindTaints(ids, taints, m), owner, top)
  {
    if ids != [] {
      var last := |ids| - 1;
      ResultsTainted(sem, ids[..last], rs, taints, env, m, owner, top);
      var before, mb := BindResults(ids[..last], rs, env), BindTaints(ids[..last], taints, m);
      var after, ma := BindResults(ids, rs, env), BindTaints(ids, taints, m);
      forall id | id in after ensures TensorTainted(sem, after[id], TaintAt(ma, id), owner, top) {
        if last >= |rs| || id != ids[last] {
          assert TensorTainted(sem, before[id], TaintAt(mb, id), owner, top);
        }
      }
    }
  }

  /** One result of a node that is not a loop. */
  lemma ResultTainted(sem: Sem, id: nat, t: Tensor, x: Taint, env: TensorEnv, m: Taints, owner: seq<Option<Path>>,
      top: Path)
    requires EnvTainted(sem, env, m, owner, top) && TensorTainted(sem, t, x, owner, top)
    ensures EnvTainted(sem, env[id := t], m[id := x], owner, top)
  {
    var env', m' := env[id := t], m[id := x];
    forall i | i in env' ensures TensorTainted(sem, env'[i], TaintAt(m', i), owner, top) {
      if i != id {
        assert TensorTainted(sem, env[i], TaintAt(m, i), owner, top);
      }
    }
  }

  /** The bases of a node's operands. */
  lemma OperandBases(sem: Sem, env: TensorEnv, m: Taints, ids: seq<nat>, args: seq<Tensor>, owner: seq<Option<Path>>,
      top: Path)
    requires EnvTainted(sem, env, m, owner, top) && Tensors(env, ids) == Ok(args)
    ensures forall j :: 0 <= j < |args| ==> AllTainted(BaseBuf(sem, args[j]), owner, top, BasesAt(m, ids)[j])
  {
    forall j | 0 <= j < |args| ensures AllTainted(BaseBuf(sem, args[j]), owner, top, BasesAt(m, ids)[j]) {
      assert TensorTainted(sem, env[ids[j]], TaintAt(m, ids[j]), owner, top);
    }
  }

  // -- clear of a path ------------------------------------------------------------

  predicate Clear(bs: set<nat>, owner: seq<Option<Path>>, k: Path) {
    forall b :: b in bs ==> b < |owner| && !Under(owner[b], k)
  }

  lemma TaintClear(bs: set<nat>, owner: seq<Option<Path>>, top: Path, s: set<Path>, k: Path)
    requires AllTainted(bs, owner, top, s) && Clean(s, k) && top <= k
    ensures Clear(bs, owner, k)
  {
  }

  /** What is clear of a path reads the same after anything below the path has run. */
  lemma ClearReads(sem: Sem, t: Tensor, mem: Memory, mem': Memory, o: seq<Option<Path>>, o': seq<Option<Path>>, k: Path)
    requires Read(sem, t, mem).Ok? && Clear(Support(t), o, k) && Touched(mem.bufs, o, mem'.bufs, o', k)
    requires mem'.args == mem.args && mem'.sym == mem.sym
    ensures Read(sem, t, mem') == Read(sem, t, mem)
  {
    ReadBound(sem, t, mem);
    ReadStable(sem, t, mem, mem');
  }
}
