/** Device memory, and the contract of a captured function. */
module Devices {
  import opened Values
  import opened LazyTensors

  /** Where a captured function lives: the executable, then a place in its graph. */
  type Path = seq<nat>

  /** A function under capture: not yet called; called once; or captured, with its traced outputs,
      the buffers they are written to, and what the capturing call returned. */
  datatype Jit = Fresh | Warm | Captured(trace: seq<Tensor>, outs: seq<nat>, first: seq<Tensor>)

  predicate Under(owner: Option<Path>, p: Path) {
    owner.Some? && p <= owner.value
  }

  function OwnedBy(owner: seq<Option<Path>>, p: Path): set<nat> {
    set b | 0 <= b < |owner| && owner[b] == Some(p)
  }

  predicate Distinct(outs: seq<nat>) {
    forall i, j :: 0 <= i < j < |outs| ==> outs[i] != outs[j]
  }

  /** Its output buffers are its own. */
  predicate JitOk(jit: Jit, owner: seq<Option<Path>>, p: Path) {
    jit.Captured? ==>
      && |jit.outs| == |jit.trace| == |jit.first| && Distinct(jit.outs)
      && forall j :: 0 <= j < |jit.outs| ==> jit.outs[j] < |owner| && owner[jit.outs[j]] == Some(p)
  }

  lemma OutsInside(jit: Jit, owner: seq<Option<Path>>, p: Path)
    requires JitOk(jit, owner, p) && jit.Captured?
    ensures |jit.outs| == |jit.trace| == |jit.first| && Distinct(jit.outs)
    ensures forall j :: 0 <= j < |jit.outs| ==> jit.outs[j] < |owner| && owner[jit.outs[j]] == Some(p)
  {
  }

  /** Fresh buffers that a function owns are its outputs from then on. */
  lemma NewOuts(trace: seq<Tensor>, outs: seq<nat>, first: seq<Tensor>, owner: seq<Option<Path>>, p: Path, n: nat)
    requires |outs| == |trace| == |first| && |owner| == n + |outs|
    requires forall j :: 0 <= j < |outs| ==> outs[j] == n + j && owner[n + j] == Some(p)
    ensures JitOk(Captured(trace, outs, first), owner, p)
  {
  }

  lemma NoOuts(jit: Jit, owner: seq<Option<Path>>, p: Path)
    requires !jit.Captured?
    ensures JitOk(jit, owner, p)
  {
  }

  /** A call moves a function on: the second call captures it, and nothing changes it afterwards. */
  predicate Advanced(was: Jit, now: Jit) {
    && (was.Fresh? ==> now.Warm?) && (was.Warm? ==> now.Captured?)
    && (was.Captured? ==> now == was)
  }

  predicate DistinctBases(sem: Sem, inputs: seq<Tensor>) {
    && (forall i :: 0 <= i < |inputs| ==> Realized(sem, inputs[i]))
    && forall i, j :: 0 <= i < j < |inputs| ==> BaseOf(sem, inputs[i]) != BaseOf(sem, inputs[j])
  }

  /** Put the actual inputs in place of the traced ones. */
  function Subst(t: Tensor, inputs: seq<Tensor>): Tensor
    decreases t, 1
  {
    match t
    case Arg(i) => if i < |inputs| then inputs[i] else t
    case Lazy(k, args) => Lazy(k, SubstAll(args, inputs))
    case _ => t
  }

  function SubstAll(ts: seq<Tensor>, inputs: seq<Tensor>): seq<Tensor>
    decreases ts, 0
  {
    if ts == [] then [] else SubstAll(ts[..|ts| - 1], inputs) + [Subst(ts[|ts| - 1], inputs)]
  }

  /** A replay's writes: each traced kernel's value to its own buffer. */
  function WriteAll(sem: Sem, bufs: seq<Value>, trace: seq<Tensor>, outs: seq<nat>, vals: seq<Value>,
      n: nat): (r: seq<Value>)
    requires n <= |trace| == |outs| == |vals| && forall j :: 0 <= j < |outs| ==> outs[j] < |bufs|
    ensures |r| == |bufs|
  {
    if n == 0 then bufs
    else
      var before := WriteAll(sem, bufs, trace, outs, vals, n - 1);
      if Realized(sem, trace[n - 1]) then before else before[outs[n - 1] := vals[n - 1]]
  }

  lemma {:induction false} WriteAllAt(sem: Sem, bufs: seq<Value>, trace: seq<Tensor>, outs: seq<nat>, vals: seq<Value>,
      n: nat)
    requires n <= |trace| == |outs| == |vals| && Distinct(outs) && forall j :: 0 <= j < |outs| ==> outs[j] < |bufs|
    ensures var r := WriteAll(sem, bufs, trace, outs, vals, n);
            && (forall j :: 0 <= j < n && !Realized(sem, trace[j]) ==> r[outs[j]] == vals[j])
            && (forall b :: 0 <= b < |bufs| && b !in outs[..n] ==> r[b] == bufs[b])
  {
    if n > 0 {
      WriteAllAt(sem, bufs, trace, outs, vals, n - 1);
      var r, before := WriteAll(sem, bufs, trace, outs, vals, n), WriteAll(sem, bufs, trace, outs, vals, n - 1);
      forall b | 0 <= b < |bufs| && b !in outs[..n] ensures r[b] == bufs[b] {
        assert outs[n - 1] == outs[..n][n - 1];
        assert b !in outs[..n - 1] by { assert outs[..n][..n - 1] == outs[..n - 1]; }
      }
    }
  }

  /** Between two moments, only buffers that captured functions below a path own were written; what
      is new is plain or theirs. */
  ghost predicate Touched(b0: seq<Value>, o0: seq<Option<Path>>, b1: seq<Value>, o1: seq<Option<Path>>, p: Path) {
    && |o0| == |b0| && |o1| == |b1| && o0 <= o1
    && (forall b :: |b0| <= b < |b1| ==> o1[b].None? || Under(o1[b], p))
    && (forall b :: 0 <= b < |b0| && !Under(o0[b], p) ==> b1[b] == b0[b])
  }

  lemma TouchedTrans(b0: seq<Value>, o0: seq<Option<Path>>, b1: seq<Value>, o1: seq<Option<Path>>, b2: seq<Value>,
      o2: seq<Option<Path>>, p: Path)
    requires Touched(b0, o0, b1, o1, p) && Touched(b1, o1, b2, o2, p)
    ensures Touched(b0, o0, b2, o2, p)
  {
    forall b | |b0| <= b < |b2| ensures o2[b].None? || Under(o2[b], p) {
      if b < |b1| { assert o2[b] == o1[b]; }
    }
    forall b | 0 <= b < |b0| && !Under(o0[b], p) ensures b2[b] == b0[b] {
      assert o1[b] == o0[b];
    }
  }

  lemma TouchedWider(b0: seq<Value>, o0: seq<Option<Path>>, b1: seq<Value>, o1: seq<Option<Path>>, p: Path, q: Path)
    requires Touched(b0, o0, b1, o1, q) && p <= q
    ensures Touched(b0, o0, b1, o1, p)
  {
    forall b | |b0| <= b < |b1| ensures o1[b].None? || Under(o1[b], p) {
    }
    forall b | 0 <= b < |b0| && !Under(o0[b], p) ensures b1[b] == b0[b] {
      assert !Under(o0[b], q);
    }
  }

  lemma TouchedNothing(b: seq<Value>, o: seq<Option<Path>>, p: Path)
    requires |o| == |b|
    ensures Touched(b, o, b, o, p)
  {
  }

  lemma TouchedGrows(b0: seq<Value>, o0: seq<Option<Path>>, b1: seq<Value>, o1: seq<Option<Path>>, p: Path)
    requires Touched(b0, o0, b1, o1, p)
    ensures o0 <= o1 && |b0| <= |b1|
  {
  }

  lemma AddsTouch(b0: seq<Value>, o0: seq<Option<Path>>, b1: seq<Value>, o1: seq<Option<Path>>, p: Path)
    requires |o0| == |b0| && |o1| == |b1| && b0 <= b1 && o0 <= o1 && forall b :: |b0| <= b < |b1| ==> o1[b] == None
    ensures Touched(b0, o0, b1, o1, p)
  {
  }

  class Device {
    const sem: Sem
    /** Whether the n-th captured call breaks off inside tinygrad. */
    const breaks: nat -> bool
    var calls: nat
    var bufs: seq<Value>
    /** Which captured function, if any, a buffer is an output of.  Never changes once allocated. */
    ghost var owner: seq<Option<Path>>

    constructor (sem: Sem, breaks: nat -> bool)
      ensures Valid() && this.sem == sem && this.breaks == breaks && bufs == [] && owner == []
    {
      this.sem := sem;
      this.breaks := breaks;
      calls := 0;
      bufs := [];
      owner := [];
    }

    ghost predicate Valid()
      reads this
    {
      |owner| == |bufs|
    }

    function Mem(): Memory
      reads this
    {
      Memory(bufs, [], [])
    }

    /** Everything allocated so far keeps its contents and owner; what is new has one of these owners; and
        no captured function is called. */
    twostate predicate OnlyAdds(o: Option<Path>)
      reads this
    {
      && calls == old(calls) && old(bufs) <= bufs && old(owner) <= owner && Valid()
      && forall b :: old(|bufs|) <= b < |bufs| ==> owner[b] == o
    }

    /** A fresh buffer. */
    method Alloc(v: Value, ghost o: Option<Path>) returns (b: nat)
      requires Valid()
      modifies this
      ensures OnlyAdds(o) && b == old(|bufs|) && |bufs| == b + 1 && bufs[b] == v
    {
      b := |bufs|;
      bufs := bufs + [v];
      owner := owner + [o];
    }

    /** A realized copy in a buffer of its own. */
    method Clone(t: Tensor) returns (r: Tensor)
      requires Valid() && Read(sem, t, Mem()).Ok?
      modifies this
      ensures OnlyAdds(None) && r == Buf(old(|bufs|)) && |bufs| == old(|bufs|) + 1
      ensures bufs[old(|bufs|)] == old(Read(sem, t, Mem()).value)
      ensures Read(sem, r, Mem()) == old(Read(sem, t, Mem()))
    {
      var b := Alloc(Read(sem, t, Mem()).value, None);
      r := Buf(b);
    }

    /** Run what is pending.  A tensor that already has a buffer, or is folded to a constant, stays
        as it is. */
    method Realize(t: Tensor) returns (r: Tensor)
      requires Valid() && Read(sem, t, Mem()).Ok? && Concrete(t)
      modifies this
      ensures OnlyAdds(None) && Concrete(r)
      ensures Read(sem, r, Mem()) == old(Read(sem, t, Mem()))
      ensures r == t || (!Realized(sem, t) && r == Buf(old(|bufs|)) && |bufs| == old(|bufs|) + 1)
      ensures Realized(sem, r) || Support(r) == {}
    {
      if Realized(sem, t) {
        r := t;
      } else {
        var folded: bool := *;
        if Support(t) == {} && folded {
          r := t;
        } else {
          r := Clone(t);
        }
      }
    }

    /** A tensor in a buffer: realized, or failing that cloned. */
    method Materialize(t: Tensor) returns (r: Tensor)
      requires Valid() && Read(sem, t, Mem()).Ok? && Concrete(t)
      modifies this
      ensures OnlyAdds(None) && Concrete(r) && Realized(sem, r)
      ensures Read(sem, r, Mem()) == old(Read(sem, t, Mem()))
      ensures r == t || (exists b: nat :: r == Buf(b) && old(|bufs|) <= b < |bufs|)
    {
      r := Realize(t);
      if !Realized(sem, r) {
        r := Clone(r);
      }
    }

    /** A replay that breaks off, or that overwrites what it reads: anything may be in its buffers. */
    method Spoil(outs: seq<nat>, junk: seq<Value>, ghost p: Path)
      requires Valid() && forall j :: 0 <= j < |outs| ==> outs[j] < |bufs| && owner[outs[j]] == Some(p)
      modifies this`bufs
      ensures Valid() && Touched(old(bufs), owner, bufs, owner, p)
    {
      TouchedNothing(bufs, owner, p);
      for j := 0 to |outs|
        invariant Valid() && Touched(old(bufs), owner, bufs, owner, p)
      {
        if j < |junk| {
          bufs := bufs[outs[j] := junk[j]];
        }
      }
    }

    /** Call a function under capture.  It rejects inputs that share a buffer, and may break off,
        before it writes anything.  The first two calls run it: outputs get buffers, which on the second
        call are kept.  Every later call is a replay: each traced kernel runs on the new inputs and
        writes its kept buffer, and an output that no kernel produced is what it was at capture.
        The caller must not pass an input that is read from a buffer the call overwrites. */
    method CallJit(jit: Jit, trace: seq<Tensor>, inputs: seq<Tensor>, sym: seq<int>, ghost p: Path)
        returns (r: Option<seq<Tensor>>, jit': Jit)
      requires Valid() && JitOk(jit, owner, p) && (jit.Captured? ==> jit.trace == trace)
      requires ReadAll(sem, inputs, Mem()).Ok?
      requires ReadAll(sem, trace, Memory([], ReadAll(sem, inputs, Mem()).value, sym)).Ok?
      requires jit.Captured? ==> forall j :: 0 <= j < |jit.outs| ==> jit.outs[j] !in SupportAll(inputs)
      modifies this
      ensures Valid() && JitOk(jit', owner, p) && (jit'.Captured? ==> jit'.trace == trace)
      ensures old(owner) <= owner
      ensures forall b :: old(|bufs|) <= b < |bufs| ==> owner[b].None? || owner[b] == Some(p)
      ensures forall b :: 0 <= b < old(|bufs|) && old(owner)[b] != Some(p) ==> bufs[b] == old(bufs)[b]
      ensures old(|bufs|) <= |bufs|
      ensures calls == old(calls) + 1 && (r.Some? <==> DistinctBases(sem, inputs) && !breaks(old(calls)))
      ensures r.None? ==> bufs == old(bufs) && owner == old(owner) && jit' == jit
      ensures r.Some? ==> |r.value| == |trace|
      ensures jit.Captured? ==> jit' == jit
      ensures r.Some? && jit.Fresh? ==> jit'.Warm?
      ensures r.Some? && jit.Warm? ==> jit'.Captured?
      ensures r.Some? && jit.Captured? ==> forall j :: 0 <= j < |trace| && Realized(sem, trace[j]) ==>
          r.value[j] == jit.first[j]
      ensures r.Some? && jit'.Captured? ==> forall j :: 0 <= j < |trace| && !Realized(sem, trace[j]) ==>
          r.value[j] == Buf(jit'.outs[j])
      ensures r.Some? ==> forall j :: 0 <= j < |trace| && !Realized(sem, trace[j]) ==>
                && r.value[j].Buf? && r.value[j].b < |bufs|
                && (owner[r.value[j].b] == Some(p) || (owner[r.value[j].b].None? && r.value[j].b >= old(|bufs|)))
                && bufs[r.value[j].b] ==
                    old(ReadAll(sem, trace, Memory([], ReadAll(sem, inputs, Mem()).value, sym)).value)[j]
    {
      hide ReadAll, Read, DistinctBases, Realized, SupportAll, JitOk;
      calls := calls + 1;
      if !DistinctBases(sem, inputs) || breaks(calls - 1) {
        return None, jit;
      }
      var args := ReadAll(sem, inputs, Mem()).value;
      var vals := ReadAll(sem, trace, Memory([], args, sym)).value;
      var results;
      if jit.Captured? {
        results := Replay(jit, vals, p);
        jit' := jit;
      } else {
        results, jit' := FirstCalls(jit, trace, inputs, vals, p);
      }
      r := Some(results);
    }

    /** Each traced kernel writes its kept buffer. */
    method Replay(jit: Jit, vals: seq<Value>, ghost p: Path) returns (r: seq<Tensor>)
      requires Valid() && JitOk(jit, owner, p) && jit.Captured? && |vals| == |jit.trace|
      modifies this`bufs
      ensures Valid() && |r| == |jit.trace| == |jit.outs| == |jit.first|
      ensures forall b :: 0 <= b < |bufs| && owner[b] != Some(p) ==> bufs[b] == old(bufs)[b]
      ensures forall j :: 0 <= j < |r| ==>
          r[j] == if Realized(sem, jit.trace[j]) then jit.first[j] else Buf(jit.outs[j])
      ensures forall j :: 0 <= j < |r| && !Realized(sem, jit.trace[j]) ==>
          jit.outs[j] < |bufs| && owner[jit.outs[j]] == Some(p) && bufs[jit.outs[j]] == vals[j]
    {
      hide JitOk, Distinct, Realized, WriteAll;
      OutsInside(jit, owner, p);
      WriteAllAt(sem, bufs, jit.trace, jit.outs, vals, |jit.trace|);
      bufs := WriteAll(sem, bufs, jit.trace, jit.outs, vals, |jit.trace|);
      r := seq(|jit.trace|, j requires 0 <= j < |jit.trace| =>
        if Realized(sem, jit.trace[j]) then jit.first[j] else Buf(jit.outs[j]));
      assert jit.outs[..|jit.trace|] == jit.outs;
    }

    /** The first two calls: outputs in new buffers, which the second keeps. */
    method FirstCalls(jit: Jit, trace: seq<Tensor>, inputs: seq<Tensor>, vals: seq<Value>, ghost p: Path)
        returns (r: seq<Tensor>, jit': Jit)
      requires Valid() && !jit.Captured? && |vals| == |trace|
      modifies this`bufs, this`owner
      ensures Valid() && JitOk(jit', owner, p) && bufs == old(bufs) + vals
      ensures old(owner) <= owner && forall b :: old(|bufs|) <= b < |bufs| ==>
          owner[b] == if jit.Warm? then Some(p) else None
      ensures |r| == |trace| && forall j :: 0 <= j < |r| && !Realized(sem, trace[j]) ==> r[j] == Buf(old(|bufs|) + j)
      ensures if jit.Fresh? then jit' == Warm
              else jit'.Captured? && jit'.trace == trace && |jit'.outs| == |trace| && forall j :: 0 <= j < |trace| ==>
                jit'.outs[j] == old(|bufs|) + j
    {
      hide JitOk, Realized, Subst;
      ghost var o := if jit.Warm? then Some(p) else None;
      var n := |bufs|;
      bufs := bufs + vals;
      owner := owner + seq(|vals|, _ => o);
      var outs: seq<nat> := seq(|vals|, j => n + j);
      r := seq(|trace|, j requires 0 <= j < |trace| =>
        if Realized(sem, trace[j]) then Subst(trace[j], inputs) else Buf(outs[j]));
      if jit.Warm? {
        jit' := Captured(trace, outs, r);
        NewOuts(trace, outs, r, owner, p, n);
      } else {
        jit' := Warm;
        NoOuts(jit', owner, p);
      }
    }
  }
}
