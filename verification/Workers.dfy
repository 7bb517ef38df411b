/** The worker: resident tensors and executables on one device, and the commands over them. */
module Workers {
  import opened Values
  import opened GraphIR
  import opened LazyTensors
  import opened LazySound
  import opened Devices
  import opened LoopStates
  import opened Steps
  import opened Executables
  import opened SegmentRuns
  import opened Frozen
  import opened GraphRuns
  import opened AnyRuns

  datatype WorkerError = StaleReference(id: nat) | BadNode | WrongShape | CaptureFailed

  /** Entries by id.  Ids go up from 1 and none is used twice. */
  class Registry<T> {
    var items: map<nat, T>
    var nextId: nat

    constructor ()
      ensures items == map[] && nextId == 1
    {
      items := map[];
      nextId := 1;
    }

    ghost predicate Valid()
      reads this
    {
      forall id :: id in items ==> 1 <= id < nextId
    }

    method Allocate() returns (id: nat)
      requires Valid() && nextId >= 1
      modifies this`nextId
      ensures Valid() && id == old(nextId) && nextId == id + 1 && id !in items
    {
      id := nextId;
      nextId := nextId + 1;
    }

    method Put(item: T) returns (id: nat)
      requires Valid() && nextId >= 1
      modifies this
      ensures Valid() && id == old(nextId) && nextId == id + 1 && id !in old(items) && items == old(items)[id := item]
    {
      id := Allocate();
      items := items[id := item];
    }

    method Get(id: nat) returns (r: Result<T, WorkerError>)
      ensures r == if id in items then Success(items[id]) else Failure(StaleReference(id))
    {
      r := if id in items then Success(items[id]) else Failure(StaleReference(id));
    }

    /** Removes what is there; an id that is not, or no longer, is ignored. */
    method Release(ids: seq<nat>) returns (removed: nat)
      requires Valid()
      modifies this
      ensures Valid() && nextId == old(nextId)
      ensures items.Keys == old(items.Keys) - Ids(ids) && forall id :: id in items ==> items[id] == old(items[id])
      ensures removed == |old(items.Keys) * Ids(ids)|
    {
      hide Ids;
      removed := 0;
      assert Ids(ids[..0]) == {} by { NoIds(ids); }
      for i := 0 to |ids|
        invariant nextId == old(nextId) && items.Keys == old(items.Keys) - Ids(ids[..i])
        invariant forall id :: id in items ==> items[id] == old(items[id])
        invariant removed == |old(items.Keys) * Ids(ids[..i])|
      {
        OneMoreId(old(items.Keys), ids, i);
        if ids[i] in items {
          items := items - {ids[i]};
          removed := removed + 1;
        }
      }
      assert ids[..|ids|] == ids;
    }
  }

  function Ids(ids: seq<nat>): set<nat> {
    set id | id in ids
  }

  lemma NoIds(ids: seq<nat>)
    ensures Ids(ids[..0]) == {}
  {
  }

  /** What one more id removes from these keys. */
  lemma OneMoreId(keys: set<nat>, ids: seq<nat>, i: nat)
    requires i < |ids|
    ensures keys - Ids(ids[..i + 1]) == keys - Ids(ids[..i]) - {ids[i]}
    ensures |keys * Ids(ids[..i + 1])| == |keys * Ids(ids[..i])| + if ids[i] in keys - Ids(ids[..i]) then 1 else 0
  {
    assert ids[..i + 1] == ids[..i] + [ids[i]];
    assert Ids(ids[..i + 1]) == Ids(ids[..i]) + {ids[i]};
    if ids[i] in keys - Ids(ids[..i]) {
      assert keys * Ids(ids[..i + 1]) == keys * Ids(ids[..i]) + {ids[i]};
    } else {
      assert keys * Ids(ids[..i + 1]) == keys * Ids(ids[..i]);
    }
  }

  /** Releasing again what was just released removes nothing. */
  method ReleaseTwice<T>(r: Registry<T>, ids: seq<nat>) returns (again: nat)
    requires r.Valid()
    modifies r
    ensures again == 0 && r.items.Keys == old(r.items.Keys) - Ids(ids)
  {
    var first := r.Release(ids);
    again := r.Release(ids);
    assert (old(r.items.Keys) - Ids(ids)) * Ids(ids) == {};
  }

  // -- resident tensors -------------------------------------------------------------

  /** A registered tensor has a buffer, is readable, and is read from buffers that no captured
      function ever writes. */
  ghost predicate EntryOk(sem: Sem, t: Tensor, mem: Memory, owner: seq<Option<Path>>) {
    && Concrete(t) && Realized(sem, t) && Read(sem, t, mem).Ok?
    && forall b :: b in Support(t) ==> b < |owner| && owner[b].None?
  }

  lemma {:induction false} BaseSupports(sem: Sem, t: Tensor, b: nat)
    requires BaseOf(sem, t) == Some(OfBuf(b))
    ensures b in Support(t)
  {
    if t.Lazy? {
      BaseSupports(sem, t.args[0], b);
    }
  }

  lemma EntryBase(sem: Sem, t: Tensor, mem: Memory, o: seq<Option<Path>>)
    requires EntryOk(sem, t, mem, o)
    ensures BaseOf(sem, t).Some? && forall b: nat :: BaseOf(sem, t) == Some(OfBuf(b)) ==> b in Support(t)
  {
    forall b: nat | BaseOf(sem, t) == Some(OfBuf(b)) ensures b in Support(t) {
      BaseSupports(sem, t, b);
    }
  }

  lemma EntryKept(sem: Sem, t: Tensor, mem: Memory, o: seq<Option<Path>>, mem': Memory, o': seq<Option<Path>>, p: Path)
    requires EntryOk(sem, t, mem, o) && Touched(mem.bufs, o, mem'.bufs, o', p) && mem'.args == mem.args
    requires mem'.sym == mem.sym
    ensures EntryOk(sem, t, mem', o') && Read(sem, t, mem') == Read(sem, t, mem)
  {
    ReadStable(sem, t, mem, mem');
  }

  /** An argument: a resident tensor, or bytes sent along. */
  datatype Argument = ByHandle(id: nat) | ByBlob(v: Value)

  predicate Resident(a: Argument, values: map<nat, Value>) {
    a.ByHandle? ==> a.id in values
  }

  predicate AllResident(args: seq<Argument>, values: map<nat, Value>) {
    forall i :: 0 <= i < |args| ==> Resident(args[i], values)
  }

  function ArgValue(a: Argument, values: map<nat, Value>): Value
    requires Resident(a, values)
  {
    if a.ByHandle? then values[a.id] else a.v
  }

  function ArgValues(args: seq<Argument>, values: map<nat, Value>): (vs: seq<Value>)
    requires AllResident(args, values)
    ensures |vs| == |args| && forall i :: 0 <= i < |args| ==> vs[i] == ArgValue(args[i], values)
  {
    seq(|args|, i requires 0 <= i < |args| => ArgValue(args[i], values))
  }

  class Worker {
    const dev: Device
    const buffers: Registry<Tensor>
    const executables: Registry<CompiledGraph>

    constructor (sem: Sem, breaks: nat -> bool)
      ensures Valid() && fresh(dev) && fresh(buffers) && fresh(executables) && dev.sem == sem && dev.breaks == breaks
      ensures Values() == map[] && executables.items == map[]
    {
      dev := new Device(sem, breaks);
      buffers := new Registry<Tensor>();
      executables := new Registry<CompiledGraph>();
    }

    ghost function Graphs(): set<object>
      reads executables
    {
      (set id | id in executables.items :: executables.items[id] as object)
          + (set id | id in executables.items :: executables.items[id].exec)
    }

    ghost predicate BuffersOk()
      reads dev, buffers
    {
      buffers.Valid() && buffers.nextId >= 1 && dev.Valid() && forall id :: id in buffers.items ==>
          EntryOk(dev.sem, buffers.items[id], dev.Mem(), dev.owner)
    }

    ghost predicate Valid()
      reads dev, buffers, executables, Graphs()
    {
      && (buffers as object) != executables && BuffersOk()
      && executables.Valid() && executables.nextId >= 1
      && (forall id :: id in executables.items ==> GraphAt(id))
      && (forall i, j :: i in executables.items && j in executables.items && i != j ==> Separate(i, j))
    }

    /** An executable's captured functions own buffers under its own id only. */
    ghost predicate GraphAt(id: nat)
      requires id in executables.items
      reads dev, executables, Graphs()
    {
      var g := executables.items[id];
      assert (g as object) in Graphs() && (g.exec as object) in Graphs();
      g.exec.dev == dev && g.root == [id] && g.GraphOk()
    }

    ghost predicate Separate(i: nat, j: nat)
      requires i in executables.items && j in executables.items
      reads executables
    {
      executables.items[i] != executables.items[j] && executables.items[i].exec != executables.items[j].exec
    }

    /** What the handles refer to. */
    ghost function Values(): map<nat, Value>
      requires BuffersOk()
      reads dev, buffers
    {
      map id | id in buffers.items :: Read(dev.sem, buffers.items[id], dev.Mem()).value
    }

    /** After an executable runs, or buffers are added, every handle refers to what it did. */
    twostate lemma ValuesStay(p: Path)
      requires old(BuffersOk()) && dev.Valid() && Touched(old(dev.bufs), old(dev.owner), dev.bufs, dev.owner, p)
      requires unchanged(buffers)
      ensures BuffersOk() && Values() == old(Values())
    {
      forall id | id in buffers.items
        ensures EntryOk(dev.sem, buffers.items[id], dev.Mem(), dev.owner)
        ensures Read(dev.sem, buffers.items[id], dev.Mem()) == old(Read(dev.sem, buffers.items[id], dev.Mem()))
      {
        assert old(EntryOk(dev.sem, buffers.items[id], dev.Mem(), dev.owner));
        EntryKept(dev.sem, buffers.items[id], old(dev.Mem()), old(dev.owner), dev.Mem(), dev.owner, p);
      }
    }

    /** An executable that did not run is unaffected by what the device did. */
    twostate lemma GraphStays(id: nat)
      requires old(Valid()) && dev.Valid() && old(dev.owner) <= dev.owner && id in old(executables.items)
      requires unchanged(executables)
      requires unchanged(executables.items[id]) && unchanged(executables.items[id].exec)
      ensures GraphAt(id)
    {
      assert old(GraphAt(id));
      executables.items[id].exec.StepsLater();
      executables.items[id].GraphLater();
    }

    twostate lemma GraphsStay()
      requires old(Valid()) && dev.Valid() && old(dev.owner) <= dev.owner && unchanged(executables)
      requires unchanged(Graphs()) && BuffersOk()
      ensures Valid()
    {
      forall id | id in executables.items ensures GraphAt(id) {
        assert (executables.items[id] as object) in Graphs() && (executables.items[id].exec as object) in Graphs();
        GraphStays(id);
      }
      forall i, j | i in executables.items && j in executables.items && i != j ensures Separate(i, j) {
        assert old(Separate(i, j));
      }
    }

    /** A tensor clear of captured functions gets a handle. */
    method Register(t: Tensor) returns (id: nat)
      requires Valid() && EntryOk(dev.sem, t, dev.Mem(), dev.owner)
      modifies buffers
      ensures Valid() && id == old(buffers.nextId) && id !in old(Values())
      ensures Values() == old(Values())[id := Read(dev.sem, t, dev.Mem()).value]
      ensures buffers.nextId == id + 1
    {
      id := buffers.Put(t);
      assert BuffersOk();
      GraphsStay();
    }

    method Upload(v: Value) returns (id: nat)
      requires Valid()
      modifies dev, buffers
      ensures Valid() && id == old(buffers.nextId) && id !in old(Values()) && Values() == old(Values())[id := v]
      ensures buffers.nextId == id + 1
    {
      var b := dev.Alloc(v, None);
      AddsTouch(old(dev.bufs), old(dev.owner), dev.bufs, dev.owner, []);
      ValuesStay([]);
      GraphsStay();
      id := Register(Buf(b));
    }

    method Download(id: nat) returns (r: Result<Value, WorkerError>)
      requires Valid()
      ensures r == if id in Values() then Success(Values()[id]) else Failure(StaleReference(id))
    {
      var t :- buffers.Get(id);
      assert EntryOk(dev.sem, t, dev.Mem(), dev.owner);
      return Success(Read(dev.sem, t, dev.Mem()).value);
    }

    method Release(ids: seq<nat>) returns (removed: nat)
      requires Valid()
      modifies buffers
      ensures Valid() && buffers.nextId == old(buffers.nextId)
      ensures Values() == old(Values()) - Ids(ids) && removed == |old(Values()).Keys * Ids(ids)|
    {
      hide EntryOk, GraphAt, Separate, Read;
      assert old(Values()).Keys == buffers.items.Keys;
      removed := buffers.Release(ids);
      forall id | id in buffers.items ensures EntryOk(dev.sem, buffers.items[id], dev.Mem(), dev.owner) {
        assert old(EntryOk(dev.sem, buffers.items[id], dev.Mem(), dev.owner));
      }
      GraphsStay();
    }

    /** The arguments of a command: handles looked up, bytes uploaded to buffers without a handle. */
    method Fetch(args: seq<Argument>) returns (r: Result<seq<Handle>, WorkerError>)
      requires Valid()
      modifies dev
      ensures Valid() && Values() == old(Values()) && old(dev.bufs) <= dev.bufs && old(dev.owner) <= dev.owner
      ensures dev.calls == old(dev.calls)
      ensures r.Success? <==> AllResident(args, Values())
      ensures r.Failure? ==> r.error.StaleReference? && r.error.id !in Values()
      ensures r.Success? ==> Fetched(r.value, args, buffers.items, Values(), dev.sem, dev.Mem(), dev.owner)
      ensures r.Success? ==> Uploaded(r.value, args, old(|dev.bufs|), |dev.bufs|)
    {
      hide EntryOk, Uploaded;
      assert Uploaded([], args[..0], |dev.bufs|, |dev.bufs|) by { NothingUploaded(args[..0], |dev.bufs|); }
      var handles: seq<Handle> := [];
      ghost var values := Values();
      AddsTouch(dev.bufs, dev.owner, dev.bufs, dev.owner, []);
      for i := 0 to |args|
        invariant Valid() && Values() == values && old(dev.bufs) <= dev.bufs && old(dev.owner) <= dev.owner
        invariant dev.calls == old(dev.calls) && Uploaded(handles, args[..i], old(|dev.bufs|), |dev.bufs|)
        invariant |handles| == i && AllResident(args[..i], values)
        invariant Fetched(handles, args[..i], buffers.items, values, dev.sem, dev.Mem(), dev.owner)
      {
        assert args[..i + 1] == args[..i] + [args[i]];
        if args[i].ByHandle? {
          var t := buffers.Get(args[i].id);
          if t.Failure? {
            return Failure(t.error);
          }
          EntryValue(args[i].id);
          FetchedMore(handles, args[..i], buffers.items, values, args[i], Handle(2 * args[i].id, t.value), dev.sem,
              dev.Mem(), dev.owner);
          UploadedMore(handles, args[..i], old(|dev.bufs|), |dev.bufs|, |dev.bufs|, args[i], Handle(2 * args[i].id,
              t.value));
          handles := handles + [Handle(2 * args[i].id, t.value)];
        } else {
          ghost var b0, o0 := dev.bufs, dev.owner;
          var b := AddBuffer(args[i].v);
          FetchedLater(handles, args[..i], buffers.items, values, dev.sem, Memory(b0, [], []), o0, dev.Mem(),
              dev.owner);
          BufferOk(dev.sem, b, args[i].v, dev.Mem(), dev.owner);
          FetchedMore(handles, args[..i], buffers.items, values, args[i], Handle(2 * i + 1, Buf(b)), dev.sem, dev.Mem(),
              dev.owner);
          UploadedMore(handles, args[..i], old(|dev.bufs|), b, |dev.bufs|, args[i], Handle(2 * i + 1, Buf(b)));
          handles := handles + [Handle(2 * i + 1, Buf(b))];
        }
      }
      assert args[..|args|] == args;
      r := Success(handles);
    }

    lemma EntryValue(id: nat)
      requires BuffersOk() && id in buffers.items
      ensures EntryOk(dev.sem, buffers.items[id], dev.Mem(), dev.owner)
      ensures Read(dev.sem, buffers.items[id], dev.Mem()) == Ok(Values()[id])
    {
    }

    /** Bytes from the client, in a buffer. */
    method AddBuffer(v: Value) returns (b: nat)
      requires Valid()
      modifies dev
      ensures Valid() && Values() == old(Values()) && dev.OnlyAdds(None) && b == old(|dev.bufs|)
      ensures dev.bufs == old(dev.bufs) + [v]
    {
      b := dev.Alloc(v, None);
      AddsTouch(old(dev.bufs), old(dev.owner), dev.bufs, dev.owner, []);
      ValuesStay([]);
      GraphsStay();
    }

    /** One operation on resident tensors or bytes.  The result may be a view of an operand's buffer. */
    method RunNode(k: Kernel, args: seq<Argument>) returns (r: Result<nat, WorkerError>)
      requires Valid() && (k.Op? || k.Window?)
      modifies dev, buffers
      ensures Valid()
      ensures r.Success? <==>
                && AllResident(args, old(Values()))
                && ApplyKernel(dev.sem, k, ArgValues(args, old(Values())), []).Ok?
                && dev.sem.shape(ApplyKernel(dev.sem, k, ArgValues(args, old(Values())), []).value) == k.spec.shape
      ensures r.Success? ==> r.value == old(buffers.nextId) && r.value !in old(Values())
                             && Values() == old(Values())[r.value :=
                                 ApplyKernel(dev.sem, k, ArgValues(args, old(Values())), []).value]
      ensures r.Failure? ==> Values() == old(Values()) && (r.error.StaleReference? <==> !AllResident(args, Values()))
      ensures buffers.nextId == old(buffers.nextId) + if r.Success? then 1 else 0
    {
      var handles :- Fetch(args);
      ghost var vs := ArgValues(args, Values());
      FetchedInputs(handles, args, buffers.items, Values(), dev.sem, dev.Mem(), dev.owner, []);
      var ts := TensorsOf(handles);
      if !ApplyKernel(dev.sem, k, ReadAll(dev.sem, ts, dev.Mem()).value, []).Ok? {
        return Failure(BadNode);
      }
      NodeResult(dev.sem, k, handles, args, buffers.items, Values(), dev.Mem(), dev.owner);
      var t := LazyKernel(dev.sem, k, ts, dev.Mem()).value;
      t := Settle(t);
      if dev.sem.shape(Read(dev.sem, t, dev.Mem()).value) != k.spec.shape {
        return Failure(WrongShape);
      }
      var id := Register(t);
      r := Success(id);
    }

    /** A new handle's tensor: contiguous, in a buffer. */
    method Settle(t: Tensor) returns (r: Tensor)
      requires Valid() && Concrete(t) && Read(dev.sem, t, dev.Mem()).Ok? && forall b :: b in Support(t) ==>
          b < |dev.owner| && dev.owner[b].None?
      modifies dev
      ensures Valid() && Values() == old(Values()) && EntryOk(dev.sem, r, dev.Mem(), dev.owner)
      ensures Read(dev.sem, r, dev.Mem()) == old(Read(dev.sem, t, dev.Mem()))
    {
      var strided: bool := *;
      if strided {
        r := dev.Clone(t);
      } else {
        r := dev.Materialize(t);
      }
      AddsTouch(old(dev.bufs), old(dev.owner), dev.bufs, dev.owner, []);
      ValuesStay([]);
      GraphsStay();
    }

    /** A new executable.  A graph that does not compile still uses up an id. */
    method Compile(graph: Sub, blobs: seq<Bytes>, compiles: bool) returns (r: Result<nat, WorkerError>)
      requires Valid()
      modifies executables
      ensures Valid() && Values() == old(Values()) && executables.nextId == old(executables.nextId) + 1
      ensures r.Success? <==> compiles
      ensures r.Failure? ==> executables.items == old(executables.items)
      ensures r.Success? ==>
                && r.value == old(executables.nextId) && r.value !in old(executables.items)
                && executables.items.Keys == old(executables.items.Keys) + {r.value}
                && (forall id :: id in old(executables.items) ==> executables.items[id] == old(executables.items[id]))
                && executables.items[r.value].graph == graph && executables.items[r.value].exec.blobs == blobs
                && executables.items[r.value].whole == Fresh && executables.items[r.value].root == [r.value]
    {
      if !compiles {
        var unused := executables.Allocate();
        Recompiled();
        return Failure(BadNode);
      }
      var exec := new Executable(dev, blobs);
      var g := new CompiledGraph(graph, exec, [executables.nextId]);
      var id := executables.Put(g);
      forall i, j | i in executables.items && j in executables.items && i != j ensures Separate(i, j) {
        if i != id && j != id { assert old(Separate(i, j)); }
      }
      forall i | i in executables.items ensures GraphAt(i) {
        if i != id { assert old(GraphAt(i)); }
      }
      r := Success(id);
    }

    twostate lemma Recompiled()
      requires old(Valid()) && unchanged(dev) && unchanged(buffers) && executables.items == old(executables.items)
      requires executables.Valid() && executables.nextId >= 1 && unchanged(Graphs())
      ensures Valid() && Values() == old(Values())
    {
      forall id | id in executables.items ensures GraphAt(id) {
        assert old(GraphAt(id));
      }
      forall i, j | i in executables.items && j in executables.items && i != j ensures Separate(i, j) {
        assert old(Separate(i, j));
      }
    }

    /** What the reference semantics gives for a command that names what is there. */
    ghost predicate Expects(id: nat, args: seq<Argument>, next: seq<Value>, fuel: nat)
      requires Valid()
      reads dev, buffers, executables, Graphs()
    {
      id in executables.items && AllResident(args, Values()) ==>
        var g := executables.items[id];
        assert (g as object) in Graphs();
        && GraphReady(dev.sem, g.exec.blobs, g.graph, ArgValues(args, Values()), next, fuel)
        && (g.IsEager() || g.CanCapture(ArgValues(args, Values())))
    }

    /** What a command is answered with: the graph's values, or, for a graph captured whole, those of
        its captured function. */
    ghost function Gives(id: nat, args: seq<Argument>, next: seq<Value>): seq<Value>
      requires Valid()
      reads dev, buffers, executables, Graphs()
    {
      if id in executables.items && AllResident(args, Values()) then
        var g := executables.items[id];
        assert (g as object) in Graphs();
        g.Gives(ArgValues(args, Values()), next)
      else next
    }

    /** A sheltered graph can be run and gives its own values.  Any other gives them if the captured
        starts are those of these arguments and, where operations tell operands and starts apart, only
        then. */
    lemma GivesRight(id: nat, args: seq<Argument>, next: seq<Value>, fuel: nat)
      requires Valid() && id in executables.items && AllResident(args, Values())
      requires GraphReady(dev.sem, executables.items[id].exec.blobs, executables.items[id].graph,
          ArgValues(args, Values()), next, fuel)
      ensures Sheltered(executables.items[id].graph) ==>
                Expects(id, args, next, fuel) && Gives(id, args, next) == next
      ensures !executables.items[id].IsEager() && executables.items[id].CanCapture(ArgValues(args, Values()))
              && executables.items[id].whole.Captured? && Tells(dev.sem) ==>
                (Gives(id, args, next) == next <==> executables.items[id].StartsAgree(ArgValues(args, Values())))
    {
      hide GraphReady, Sheltered, Tells, CompiledGraph.StartsAgree, EntryOk, Separate,
          CompiledGraph.GraphOk, CompiledGraph.CanCapture, CompiledGraph.Gives;
      var g := executables.items[id];
      assert (g as object) in Graphs() && GraphAt(id);
      g.GivesRight(ArgValues(args, Values()), next, fuel);
    }

    /** Two different handles among the arguments whose tensors are in one buffer. */
    ghost predicate Shares(args: seq<Argument>)
      reads dev, buffers
    {
      exists i, j :: 0 <= i < j < |args| && args[i].ByHandle? && args[j].ByHandle? && args[i].id != args[j].id
          && args[i].id in buffers.items && args[j].id in buffers.items
          && BaseOf(dev.sem, buffers.items[args[i].id]) == BaseOf(dev.sem, buffers.items[args[j].id])
    }

    /** A run that gives results: of an executable that is there, on handles that are resident; and, if it
        is captured, on handles that share no buffer, with a call that does not break off. */
    ghost predicate Succeeds(id: nat, args: seq<Argument>)
      requires Valid()
      reads dev, buffers, executables, Graphs()
    {
      && id in executables.items && AllResident(args, Values())
      && (executables.items[id].IsEager() || (!Shares(args) && !dev.breaks(dev.calls)))
    }

    lemma EntriesBelow(first: nat)
      requires BuffersOk() && first == |dev.bufs|
      ensures forall id :: id in buffers.items ==> forall b :: b in Support(buffers.items[id]) ==> b < first
    {
    }

    /** The captured call sees a shared buffer exactly where two handles share one. */
    lemma SharesExactly(handles: seq<Handle>, args: seq<Argument>, first: nat)
      requires BuffersOk() && AllResident(args, Values()) && Uploaded(handles, args, first, |dev.bufs|)
      requires Fetched(handles, args, buffers.items, Values(), dev.sem, dev.Mem(), dev.owner)
      requires forall id :: id in buffers.items ==> forall b :: b in Support(buffers.items[id]) ==> b < first
      ensures Sharing(dev.sem, handles) <==> Shares(args)
    {
      hide EntryOk, Read;
      forall i | 0 <= i < |args|
        ensures if args[i].ByHandle? then handles[i].ref == 2 * args[i].id && args[i].id in buffers.items
            && handles[i].tensor == buffers.items[args[i].id] else handles[i].ref == 2 * i + 1
        ensures args[i].ByHandle? ==>
            forall b: nat :: BaseOf(dev.sem, handles[i].tensor) == Some(OfBuf(b)) ==> b < first
      {
        assert FetchedAt(handles, args, i, buffers.items, Values(), dev.sem, dev.Mem(), dev.owner);
        if args[i].ByHandle? {
          EntryBase(dev.sem, buffers.items[args[i].id], dev.Mem(), dev.owner);
        }
      }
      hide BaseOf;
    }

    /** Run an executable.  The results may be in buffers it will write again. */
    method RunOn(id: nat, args: seq<Argument>, ghost next: seq<Value>, ghost fuel: nat)
        returns (r: Result<seq<Tensor>, WorkerError>)
      requires Valid() && Expects(id, args, next, fuel)
      modifies dev, Graphs()
      ensures Valid() && Values() == old(Values())
      ensures r.Success? <==> old(Succeeds(id, args))
      ensures r.Failure? ==>
          (r.error.StaleReference? <==> !(id in executables.items && AllResident(args, Values())))
      ensures r.Success? ==> ResultsAre(r.value, old(Gives(id, args, next)), dev.Mem(), dev.owner, [id])
    {
      hide EntryOk, GraphReady, RunsEagerly, SegmentResult, Fetched, Separate, Read, BuffersOk, GraphAt, ResultsAre;
      var g :- executables.Get(id);
      assert (g as object) in Graphs() && (g.exec as object) in Graphs();
      ghost var first := |dev.bufs|;
      EntriesBelow(first);
      var handles :- Fetch(args);
      SharesExactly(handles, args, first);
      var outs := RunFetched(id, handles, args, next, fuel);
      r := if outs.Some? then Success(outs.value) else Failure(CaptureFailed);
    }

    method RunFetched(id: nat, handles: seq<Handle>, ghost args: seq<Argument>, ghost next: seq<Value>, ghost fuel: nat)
        returns (outs: Option<seq<Tensor>>)
      requires Valid() && id in executables.items && AllResident(args, Values()) && Expects(id, args, next, fuel)
      requires Fetched(handles, args, buffers.items, Values(), dev.sem, dev.Mem(), dev.owner)
      modifies dev, Graphs()
      ensures Valid() && Values() == old(Values())
      ensures outs.None? <==>
          !executables.items[id].IsEager() && (Sharing(dev.sem, handles) || dev.breaks(old(dev.calls)))
      ensures outs.Some? ==> ResultsAre(outs.value, old(Gives(id, args, next)), dev.Mem(), dev.owner, [id])
    {
      hide EntryOk, GraphReady, InputsOk, RunsEagerly, Touched, SegmentResult, Fetched, Separate, Read, ResultsAre;
      var g := executables.items[id];
      assert GraphAt(id) && (g as object) in Graphs() && (g.exec as object) in Graphs();
      FetchedInputs(handles, args, buffers.items, Values(), dev.sem, dev.Mem(), dev.owner, [id]);
      ghost var b0, o0 := dev.bufs, dev.owner;
      outs := g.Run(handles, ArgValues(args, Values()), next, fuel);
      TouchedGrows(b0, o0, dev.bufs, dev.owner, [id]);
      ValuesStay([id]);
      OneRan(id);
    }

    /** One executable ran; the others stand. */
    twostate lemma OneRan(id: nat)
      requires old(Valid()) && BuffersOk() && old(dev.owner) <= dev.owner && unchanged(executables)
      requires id in executables.items
      requires executables.items[id].GraphOk()
      requires forall o: object :: o in Graphs() && o != executables.items[id] && o != executables.items[id].exec ==>
          unchanged(o)
      ensures Valid()
    {
      forall i | i in executables.items ensures GraphAt(i) {
        assert old(GraphAt(i)) && old(GraphAt(id));
        assert (executables.items[i] as object) in Graphs() && (executables.items[i].exec as object) in Graphs();
        if i != id {
          assert old(Separate(i, id));
          GraphStays(i);
        }
      }
      forall i, j | i in executables.items && j in executables.items && i != j ensures Separate(i, j) {
        assert old(Separate(i, j));
      }
    }

    /** Run, and give every result a handle of its own: a copy that no later run can write. */
    method Execute(id: nat, args: seq<Argument>, ghost next: seq<Value>, ghost fuel: nat)
        returns (r: Result<seq<nat>, WorkerError>)
      requires Valid() && Expects(id, args, next, fuel)
      modifies dev, buffers, Graphs()
      ensures Valid()
      ensures r.Success? <==> old(Succeeds(id, args))
      ensures r.Failure? ==>
          (r.error.StaleReference? <==> !(id in executables.items && AllResident(args, old(Values()))))
      ensures r.Success? ==>
          var given := old(Gives(id, args, next));
          && |r.value| == |given| && (forall j :: 0 <= j < |given| ==> r.value[j] == old(buffers.nextId) + j)
          && Values() == Extended(old(Values()), old(buffers.nextId), given)
      ensures r.Failure? ==> Values() == old(Values())
      ensures buffers.nextId == old(buffers.nextId) + if r.Success? then |r.value| else 0
    {
      hide EntryOk, Expects, SegmentResult, GraphReady, GraphAt, Separate, Gives, ResultsAre;
      ghost var given := Gives(id, args, next);
      var outs :- RunOn(id, args, next, fuel);
      OutputsHold(outs, given, dev.sem, dev.Mem(), dev.owner, [id]);
      var ids := RegisterAll(outs, given);
      r := Success(ids);
    }

    /** A copy of each tensor, under consecutive new handles. */
    method RegisterAll(outs: seq<Tensor>, ghost next: seq<Value>) returns (ids: seq<nat>)
      requires Valid() && |outs| == |next| && forall j :: 0 <= j < |next| ==>
          Read(dev.sem, outs[j], dev.Mem()) == Ok(next[j])
      modifies dev, buffers
      ensures Valid() && |ids| == |next| && (forall j :: 0 <= j < |next| ==> ids[j] == old(buffers.nextId) + j)
      ensures Values() == Extended(old(Values()), old(buffers.nextId), next)
      ensures buffers.nextId == old(buffers.nextId) + |ids|
    {
      hide EntryOk, GraphAt, Separate, Read;
      ghost var values, first := Values(), buffers.nextId;
      ids := [];
      assert next[..0] == [];
      for j := 0 to |outs|
        invariant Valid() && |ids| == j && buffers.nextId == first + j
        invariant forall i :: 0 <= i < j ==> ids[i] == first + i
        invariant Values() == Extended(values, first, next[..j])
        invariant forall i :: 0 <= i < |outs| ==> Read(dev.sem, outs[i], dev.Mem()) == Ok(next[i])
      {
        var handle := RegisterOne(outs, j, next);
        assert next[..j + 1][..j] == next[..j];
        ids := ids + [handle];
      }
      assert next[..|outs|] == next;
    }

    method RegisterOne(outs: seq<Tensor>, j: nat, ghost next: seq<Value>) returns (id: nat)
      requires Valid() && j < |outs| == |next| && forall i :: 0 <= i < |outs| ==>
          Read(dev.sem, outs[i], dev.Mem()) == Ok(next[i])
      modifies dev, buffers
      ensures Valid() && id == old(buffers.nextId) && buffers.nextId == id + 1
      ensures Values() == old(Values())[id := next[j]]
      ensures forall i :: 0 <= i < |outs| ==> Read(dev.sem, outs[i], dev.Mem()) == Ok(next[i])
    {
      hide EntryOk, GraphAt, Separate;
      ghost var before := dev.Mem();
      var copy := ImmutableCopy(outs[j]);
      forall i | 0 <= i < |outs| ensures Read(dev.sem, outs[i], dev.Mem()) == Ok(next[i]) {
        ReadLater(dev.sem, outs[i], before, dev.Mem());
      }
      id := Register(copy);
    }

    /** Run, and send the results back as bytes. */
    method ExecuteHost(id: nat, args: seq<Argument>, ghost next: seq<Value>, ghost fuel: nat)
        returns (r: Result<seq<Value>, WorkerError>)
      requires Valid() && Expects(id, args, next, fuel)
      modifies dev, Graphs()
      ensures Valid() && Values() == old(Values())
      ensures r.Success? <==> old(Succeeds(id, args))
      ensures r.Failure? ==>
          (r.error.StaleReference? <==> !(id in executables.items && AllResident(args, Values())))
      ensures r.Success? ==> r.value == old(Gives(id, args, next))
    {
      hide EntryOk, Expects, SegmentResult, GraphReady, Gives, ResultsAre;
      ghost var given := Gives(id, args, next);
      var outs :- RunOn(id, args, next, fuel);
      OutputsHold(outs, given, dev.sem, dev.Mem(), dev.owner, [id]);
      ReadAllAt(dev.sem, outs, dev.Mem());
      r := Success(ReadAll(dev.sem, outs, dev.Mem()).value);
      assert r.value == given;
    }

    /** A run of any kind, with or without a result: it may meet an error, be cut short, or go wrong.
        Whatever it does, no registered tensor changes, and every later command finds what it needs. */
    method RunAny(id: nat, moves: seq<Move>)
      requires Valid() && id in executables.items && forall i :: 0 <= i < |moves| ==> MoveOk(moves[i], [id])
      modifies dev, Graphs()
      ensures Valid() && Values() == old(Values())
    {
      hide EntryOk, Touched, Separate, Read, MoveOk;
      var g := executables.items[id];
      assert GraphAt(id) && (g as object) in Graphs() && (g.exec as object) in Graphs();
      ghost var b0, o0 := dev.bufs, dev.owner;
      Wander(g, moves);
      TouchedGrows(b0, o0, dev.bufs, dev.owner, [id]);
      ValuesStay([id]);
      OneRan(id);
    }

    /** Such a run that ends with results: they are registered, whatever they are, as new handles, and
        the old ones hold what they held. */
    method ExecuteAny(id: nat, moves: seq<Move>, outs: seq<Tensor>) returns (ids: seq<nat>, ghost vs: seq<Value>)
      requires Valid() && id in executables.items && forall i :: 0 <= i < |moves| ==> MoveOk(moves[i], [id])
      modifies dev, buffers, Graphs()
      ensures Valid() && |ids| == |vs| && (forall j :: 0 <= j < |ids| ==> ids[j] == old(buffers.nextId) + j)
      ensures Values() == Extended(old(Values()), old(buffers.nextId), vs)
      ensures forall h :: h in old(Values()) ==> h in Values() && Values()[h] == old(Values())[h]
    {
      hide EntryOk, Separate, Read, MoveOk, GraphAt;
      assert buffers.Valid();
      RunAny(id, moves);
      var r := ReadAll(dev.sem, outs, dev.Mem());
      vs := [];
      ids := [];
      if r.Ok? {
        ReadAllAt(dev.sem, outs, dev.Mem());
        vs := r.value;
        ids := RegisterAll(outs, vs);
      }
      ExtendedKeeps(old(Values()), old(buffers.nextId), vs);
    }

    /** A fresh buffer with equal contents. */
    method ImmutableCopy(t: Tensor) returns (r: Tensor)
      requires Valid() && Read(dev.sem, t, dev.Mem()).Ok?
      modifies dev
      ensures Valid() && Values() == old(Values()) && dev.OnlyAdds(None) && EntryOk(dev.sem, r, dev.Mem(), dev.owner)
      ensures r == Buf(old(|dev.bufs|)) && Read(dev.sem, r, dev.Mem()) == old(Read(dev.sem, t, dev.Mem()))
    {
      r := dev.Clone(t);
      AddsTouch(old(dev.bufs), old(dev.owner), dev.bufs, dev.owner, []);
      ValuesStay([]);
      GraphsStay();
    }

    method ReleaseExecutables(ids: seq<nat>) returns (removed: nat)
      requires Valid()
      modifies executables
      ensures Valid() && Values() == old(Values()) && executables.nextId == old(executables.nextId)
      ensures executables.items.Keys == old(executables.items.Keys) - Ids(ids)
      ensures removed == |old(executables.items.Keys) * Ids(ids)|
    {
      removed := executables.Release(ids);
      forall id | id in executables.items ensures GraphAt(id) {
        assert old(GraphAt(id));
      }
      forall i, j | i in executables.items && j in executables.items && i != j ensures Separate(i, j) {
        assert old(Separate(i, j));
      }
    }
  }

  /** Tensors that hold a command's arguments, in buffers no captured function writes. */
  /** Bytes are in new buffers of their own. */
  predicate Uploaded(handles: seq<Handle>, args: seq<Argument>, first: nat, end: nat) {
    && |handles| == |args|
    && (forall i :: 0 <= i < |args| && args[i].ByBlob? ==>
          handles[i].tensor.Buf? && first <= handles[i].tensor.b < end)
    && forall i, j :: 0 <= i < j < |args| && args[i].ByBlob? && args[j].ByBlob? ==>
         handles[i].tensor != handles[j].tensor
  }

  lemma NothingUploaded(args: seq<Argument>, first: nat)
    requires args == []
    ensures Uploaded([], args, first, first)
  {
  }

  lemma UploadedMore(handles: seq<Handle>, args: seq<Argument>, first: nat, end: nat, end': nat, a: Argument, h: Handle)
    requires Uploaded(handles, args, first, end) && first <= end <= end'
    requires a.ByBlob? ==> h.tensor.Buf? && end <= h.tensor.b < end'
    ensures Uploaded(handles + [h], args + [a], first, end')
  {
  }

  ghost predicate Fetched(handles: seq<Handle>, args: seq<Argument>, items: map<nat, Tensor>, values: map<nat, Value>,
      sem: Sem, mem: Memory, o: seq<Option<Path>>)
    requires AllResident(args, values)
  {
    && |handles| == |args|
    && forall i :: 0 <= i < |args| ==> FetchedAt(handles, args, i, items, values, sem, mem, o)
  }

  ghost predicate FetchedAt(handles: seq<Handle>, args: seq<Argument>, i: nat, items: map<nat, Tensor>, values: map<nat,
      Value>, sem: Sem, mem: Memory, o: seq<Option<Path>>)
    requires i < |args| && i < |handles| && AllResident(args, values)
  {
    && EntryOk(sem, handles[i].tensor, mem, o) && Read(sem, handles[i].tensor, mem) == Ok(ArgValue(args[i], values))
    && if args[i].ByHandle? then handles[i].ref == 2 * args[i].id && args[i].id in items
        && handles[i].tensor == items[args[i].id]
       else handles[i].ref == 2 * i + 1
  }

  lemma FetchedMore(handles: seq<Handle>, args: seq<Argument>, items: map<nat, Tensor>, values: map<nat, Value>,
      a: Argument, h: Handle, sem: Sem, mem: Memory, o: seq<Option<Path>>)
    requires AllResident(args, values) && Resident(a, values) && Fetched(handles, args, items, values, sem, mem, o)
    requires EntryOk(sem, h.tensor, mem, o) && Read(sem, h.tensor, mem) == Ok(ArgValue(a, values))
    requires if a.ByHandle? then h.ref == 2 * a.id && a.id in items
        && h.tensor == items[a.id] else h.ref == 2 * |args| + 1
    ensures AllResident(args + [a], values) && Fetched(handles + [h], args + [a], items, values, sem, mem, o)
  {
    hide EntryOk;
    var hs, xs := handles + [h], args + [a];
    forall i | 0 <= i < |xs| ensures FetchedAt(hs, xs, i, items, values, sem, mem, o) {
      if i < |args| {
        assert FetchedAt(handles, args, i, items, values, sem, mem, o);
      }
    }
  }

  /** What a run asks of its inputs. */
  lemma FetchedInputs(handles: seq<Handle>, args: seq<Argument>, items: map<nat, Tensor>, values: map<nat, Value>,
      sem: Sem, mem: Memory, o: seq<Option<Path>>, root: Path)
    requires AllResident(args, values) && Fetched(handles, args, items, values, sem, mem, o)
    ensures InputsOk(sem, handles, ArgValues(args, values), mem, o, root)
  {
    var ts, vs := TensorsOf(handles), ArgValues(args, values);
    forall j | 0 <= j < |ts| ensures Read(sem, ts[j], mem) == Ok(vs[j]) && Concrete(ts[j])
        && Realized(sem, handles[j].tensor) {
      assert FetchedAt(handles, args, j, items, values, sem, mem, o);
    }
    HoldsAt(sem, ts, mem, vs);
    forall b | b in SupportAll(ts) ensures b < |o| && Earlier(o[b], root, 0) {
      SupportAllAt(ts, b);
      var j :| 0 <= j < |ts| && b in Support(ts[j]);
      assert FetchedAt(handles, args, j, items, values, sem, mem, o);
    }
    forall i, j | 0 <= i < |handles| && 0 <= j < |handles| && handles[i].ref == handles[j].ref
        ensures handles[i].tensor == handles[j].tensor {
      assert FetchedAt(handles, args, i, items, values, sem, mem, o)
          && FetchedAt(handles, args, j, items, values, sem, mem, o);
    }
  }

  /** An operation's result is read from what its operands are read from. */
  lemma NodeResult(sem: Sem, k: Kernel, handles: seq<Handle>, args: seq<Argument>, items: map<nat, Tensor>,
      values: map<nat, Value>, mem: Memory, o: seq<Option<Path>>)
    requires AllResident(args, values) && Fetched(handles, args, items, values, sem, mem, o) && mem.sym == []
    requires ApplyKernel(sem, k, ArgValues(args, values), []).Ok?
    ensures ReadAll(sem, TensorsOf(handles), mem) == Ok(ArgValues(args, values))
    ensures var r := LazyKernel(sem, k, TensorsOf(handles), mem);
            && r.Ok? && Concrete(r.value) && Read(sem, r.value, mem) == ApplyKernel(sem, k, ArgValues(args, values), [])
            && forall b :: b in Support(r.value) ==> b < |o| && o[b].None?
  {
    var ts := TensorsOf(handles);
    FetchedInputs(handles, args, items, values, sem, mem, o, []);
    KernelSound(sem, k, ts, mem, mem, ArgValues(args, values));
    var t := LazyKernel(sem, k, ts, mem).value;
    LazyNodeMadeOf(sem, [], Compute(0, k, []), ts, mem);
    forall b | b in Support(t) ensures b < |o| && o[b].None? {
      SupportAllAt(ts, b);
      var j :| 0 <= j < |ts| && b in Support(ts[j]);
      assert FetchedAt(handles, args, j, items, values, sem, mem, o);
    }
  }

  /** Values under consecutive new ids. */
  function Extended(values: map<nat, Value>, first: nat, vs: seq<Value>): map<nat, Value> {
    if vs == [] then values else Extended(values, first, vs[..|vs| - 1])[first + |vs| - 1 := vs[|vs| - 1]]
  }

  lemma {:induction false} ExtendedKeeps(values: map<nat, Value>, first: nat, vs: seq<Value>)
    requires forall h :: h in values ==> h < first
    ensures forall h :: h in values ==> h in Extended(values, first, vs) && Extended(values, first, vs)[h] == values[h]
  {
    if vs != [] {
      ExtendedKeeps(values, first, vs[..|vs| - 1]);
    }
  }

  lemma OutputsHold(outs: seq<Tensor>, next: seq<Value>, sem: Sem, mem: Memory, o: seq<Option<Path>>, p: Path)
    requires ResultsAre(outs, next, mem, o, p)
    ensures |outs| == |next| && forall j :: 0 <= j < |next| ==> Read(sem, outs[j], mem) == Ok(next[j])
  {
  }

  lemma BufferOk(sem: Sem, b: nat, v: Value, mem: Memory, o: seq<Option<Path>>)
    requires b < |mem.bufs| == |o| && mem.bufs[b] == v && o[b].None?
    ensures EntryOk(sem, Buf(b), mem, o) && Read(sem, Buf(b), mem) == Ok(v)
  {
  }

  lemma FetchedLater(handles: seq<Handle>, args: seq<Argument>, items: map<nat, Tensor>, values: map<nat, Value>,
      sem: Sem, mem: Memory, o: seq<Option<Path>>, mem': Memory, o': seq<Option<Path>>)
    requires AllResident(args, values) && Fetched(handles, args, items, values, sem, mem, o)
    requires mem.bufs <= mem'.bufs && mem'.args == mem.args && mem'.sym == mem.sym && o <= o' && |o| == |mem.bufs|
    requires |o'| == |mem'.bufs|
    ensures Fetched(handles, args, items, values, sem, mem', o')
  {
    forall i | 0 <= i < |args| ensures FetchedAt(handles, args, i, items, values, sem, mem', o') {
      assert FetchedAt(handles, args, i, items, values, sem, mem, o);
      ReadLater(sem, handles[i].tensor, mem, mem');
    }
  }
}
