/** The pieces the lifecycle is built from, as they keep their state: references and release queues
    in native code, the worker id table, and the generation counter. */
module References {
  import opened Values
  import opened Lifecycle

  /** Releases of dropped references, in order, until they are drained. */
  class ReleaseQueue {
    var entries: seq<Tag>

    constructor ()
      ensures entries == []
    {
      entries := [];
    }

    method Push(t: Tag)
      modifies this
      ensures entries == old(entries) + [t]
    {
      entries := entries + [t];
    }

    /** Take everything, leaving nothing. */
    method DrainAll() returns (all: seq<Tag>)
      modifies this
      ensures all == old(entries) && entries == []
    {
      all := entries;
      entries := [];
    }
  }

  class TensorRef {
    const tag: Tag
    var released: bool

    constructor (tag: Tag)
      ensures this.tag == tag && !released
    {
      this.tag := tag;
      released := false;
    }

    /** As the step system sees it. */
    ghost function View(gone: bool): Ref
      reads this
    {
      Ref(tag, released, gone)
    }

    /** The atomic swap: set, and say what it was. */
    method Swap() returns (was: bool)
      modifies this
      ensures was == old(released) && released
    {
      was := released;
      released := true;
    }

    /** The first claim gets the tag. */
    method TakeTag() returns (t: Option<Tag>)
      modifies this
      ensures View(false) == Claim(old(View(false))).0
      ensures (if t.Some? then [t.value] else []) == Claim(old(View(false))).1
    {
      var was := Swap();
      t := if was then None else Some(tag);
    }

    /** The collector's drop: queued, unless it was claimed. */
    method Collect(queue: ReleaseQueue)
      modifies this, queue
      ensures View(true) == Claim(old(View(false))).0.(gone := true)
      ensures queue.entries == old(queue.entries) + Claim(old(View(false))).1
    {
      var was := Swap();
      if !was {
        queue.Push(tag);
      } else {
        assert queue.entries == queue.entries + [];
      }
    }
  }

  /** A claimed reference is not queued when it is collected; an unclaimed one is, once. */
  method TakenThenCollected(r: TensorRef, queue: ReleaseQueue) returns (first: Option<Tag>, second: Option<Tag>)
    modifies r, queue
    ensures second == None && (first.Some? <==> !old(r.released)) && queue.entries == old(queue.entries)
  {
    first := r.TakeTag();
    second := r.TakeTag();
    r.Collect(queue);
  }

  // -- the reaper's batch ------------------------------------------------------------------

  /** The handles of one worker's entries that are of its current generation. */
  function Batch(entries: seq<Tag>, w: nat, gen: nat): (handles: seq<nat>)
  {
    HandlesOf(OfGeneration(OfWorker(entries, w), gen))
  }

  function HandlesOf(ts: seq<Tag>): seq<nat> {
    if ts == [] then [] else HandlesOf(ts[..|ts| - 1]) + [ts[|ts| - 1].handle]
  }

  lemma {:induction false} HandlesFrom(ts: seq<Tag>, h: nat)
    ensures h in HandlesOf(ts) <==> exists k :: 0 <= k < |ts| && ts[k].handle == h
  {
    if ts != [] {
      HandlesFrom(ts[..|ts| - 1], h);
    }
  }

  lemma {:induction false} WorkerOnly(ts: seq<Tag>, w: nat, t: Tag)
    ensures t in OfWorker(ts, w) <==> t in ts && t.worker == w
  {
    if ts != [] {
      WorkerOnly(ts[..|ts| - 1], w, t);
      assert ts == ts[..|ts| - 1] + [ts[|ts| - 1]];
    }
  }

  lemma {:induction false} GenerationOnly(ts: seq<Tag>, gen: nat, t: Tag)
    ensures t in OfGeneration(ts, gen) <==> t in ts && t.gen == gen
  {
    if ts != [] {
      GenerationOnly(ts[..|ts| - 1], gen, t);
      assert ts == ts[..|ts| - 1] + [ts[|ts| - 1]];
    }
  }

  /** Nothing of another worker or generation is in a batch, and nothing of these is left out. */
  lemma BatchExact(entries: seq<Tag>, w: nat, gen: nat, h: nat)
    ensures h in Batch(entries, w, gen) <==> Tag(w, gen, h) in entries
  {
    hide OfWorker, OfGeneration, HandlesOf;
    var mine := OfWorker(entries, w);
    var batch := OfGeneration(mine, gen);
    HandlesFrom(batch, h);
    WorkerOnly(entries, w, Tag(w, gen, h));
    GenerationOnly(mine, gen, Tag(w, gen, h));
    if k :| 0 <= k < |batch| && batch[k].handle == h {
      GenerationOnly(mine, gen, batch[k]);
      WorkerOnly(entries, w, batch[k]);
      assert batch[k] == Tag(w, gen, h);
    }
  }

  /** The reaper's pass over a worker's entries mails that worker exactly its batch. */
  lemma ReapSends(s: State, w: nat)
    requires w in s.workers
    ensures var sent, gen := Next(s, Reap(w)).sent, s.workers[w].gen;
            && s.sent <= sent && HandlesOf(sent[|s.sent|..]) == Batch(s.drained, w, gen)
            && forall k :: |s.sent| <= k < |sent| ==> sent[k] in s.drained && sent[k].worker == w && sent[k].gen == gen
  {
    hide OfWorker, OfGeneration, HandlesOf;
    var mine := OfWorker(s.drained, w);
    var more := OfGeneration(mine, s.workers[w].gen);
    var sent := Next(s, Reap(w)).sent;
    assert sent == s.sent + more && sent[|s.sent|..] == more;
    forall k | |s.sent| <= k < |sent|
      ensures sent[k] in s.drained && sent[k].worker == w && sent[k].gen == s.workers[w].gen
    {
      assert sent[k] == more[k - |s.sent|];
      GenerationOnly(mine, s.workers[w].gen, sent[k]);
      WorkerOnly(s.drained, w, sent[k]);
    }
  }

  // -- worker ids ----------------------------------------------------------------------------

  /** Names and small ids, each way. */
  class WorkerIds<Name(==)> {
    var ids: map<Name, nat>
    var names: map<nat, Name>
    var next: nat

    constructor ()
      ensures Valid() && ids == map[] && names == map[]
    {
      ids := map[];
      names := map[];
      next := 0;
    }

    /** The two tables are inverse. */
    ghost predicate Valid()
      reads this
    {
      && (forall n :: n in ids ==> ids[n] in names && names[ids[n]] == n)
      && (forall i :: i in names ==> i < next && names[i] in ids && ids[names[i]] == i)
    }

    /** Assigned once, and never changed after. */
    method IdFor(name: Name) returns (id: nat)
      requires Valid()
      modifies this
      ensures Valid() && name in ids && ids[name] == id && id in names && names[id] == name
      ensures forall n :: n in old(ids) ==> n in ids && ids[n] == old(ids[n])
      ensures forall i :: i in old(names) ==> i in names && names[i] == old(names[i])
      ensures forall n :: n in ids ==> n in old(ids) || n == name
    {
      if name in ids {
        return ids[name];
      }
      id := next;
      ids := ids[name := id];
      names := names[id := name];
      next := next + 1;
    }

    method NameFor(id: nat) returns (name: Option<Name>)
      ensures name == if id in names then Some(names[id]) else None
    {
      name := if id in names then Some(names[id]) else None;
    }
  }

  /** Different workers never share an id, so a release goes back to the worker that made the buffer. */
  method TwoWorkers<Name(==)>(t: WorkerIds<Name>, a: Name, b: Name) returns (i: nat, j: nat, back: Option<Name>)
    requires t.Valid()
    modifies t
    ensures t.Valid() && (i == j <==> a == b) && back == Some(a)
  {
    i := t.IdFor(a);
    j := t.IdFor(b);
    back := t.NameFor(i);
  }

  // -- generations ------------------------------------------------------------------------------

  /** The counter behind every worker start. */
  class Generation {
    var counter: nat

    constructor ()
      ensures counter == 0
    {
      counter := 0;
    }

    method NextGeneration() returns (g: nat)
      modifies this
      ensures g == counter == old(counter) + 1
    {
      counter := counter + 1;
      g := counter;
    }
  }
}
