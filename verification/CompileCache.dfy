/** Compiling once: the cache key, the bounded cache, and what a hit promises. */
module CompileCache {
  import opened Values
  import opened CanonicalJson
  import opened JsonText

  type Name = string

  /** Everything a compilation depends on. */
  datatype Source = Source(graph: Term, blobs: seq<Bytes>, commit: string, device: string, worker: Name)

  /** Printing and hashing, opaque but for the laws below. */
  datatype Hashing = Hashing(printer: Printer, digest: Bytes -> string, hash: string -> string, worker: Name -> string,
      options: string -> string, nx: string)

  /** Nothing printed into the key before the worker holds a line break, worker names print apart, and
      hashes have one length. */
  ghost predicate HashLaws(h: Hashing) {
    && Delimited(h.printer) && (forall k :: OneLine(h.printer.key(k))) && (forall v :: OneLine(h.printer.scalar(v)))
    && (forall a, b :: h.worker(a) == h.worker(b) ==> a == b) && OneLine(h.nx)
    && (forall b :: |h.digest(b)| == 32) && (forall t :: |h.hash(t)| == 64)
  }

  /** Of these two lists of blobs, different blobs have different digests. */
  ghost predicate BlobsApart(h: Hashing, a: seq<Bytes>, b: seq<Bytes>) {
    forall x, y :: x in a && y in b && h.digest(x) == h.digest(y) ==> x == y
  }

  /** Among these sources no two hashes collide.  No hash of one length keeps all sources apart, so
      this is asked only of the sources that are compared. */
  ghost predicate NoCollision(h: Hashing, sources: set<Source>) {
    forall s, t :: s in sources && t in sources ==>
        && BlobsApart(h, s.blobs, t.blobs)
        && (CacheKey(h, s) == CacheKey(h, t) ==> KeyText(h, s) == KeyText(h, t))
  }

  function BlobPrints(h: Hashing, blobs: seq<Bytes>): string {
    if blobs == [] then "" else ":" + (Decimal(|blobs[0]|) + (":" + (h.digest(blobs[0]) + BlobPrints(h, blobs[1..]))))
  }

  function KeyTail(h: Hashing, s: Source): string {
    "nx:" + h.nx + ("\n"
        + ("tg:" + s.commit + ("\n"
        + ("pv:1" + ("\n" + ("dev:" + s.device
        + ("\n" + ("worker:" + (h.worker(s.worker) + ("\ncc:" + h.options(s.device)))))))))))
  }

  function KeyText(h: Hashing, s: Source): string {
    "gsv:1" + ("\n" + ("graph:" + Text(h.printer, s.graph) + ("\n"
        + ("blobs:" + (Decimal(|s.blobs|) + (BlobPrints(h, s.blobs) + ("\n" + KeyTail(h, s))))))))
  }

  function CacheKey(h: Hashing, s: Source): string {
    h.hash(KeyText(h, s))
  }

  // -- reading a key back --------------------------------------------------------------------

  /** The first line of a text. */
  lemma LineOnce(a: string, b: string, r: string, s: string)
    requires OneLine(a) && OneLine(b) && a + ("\n" + r) == b + ("\n" + s)
    ensures a == b && r == s
  {
    MarkOnce('\n', a, b, r, s);
  }

  lemma PrintsStart(h: Hashing, blobs: seq<Bytes>, r: string)
    ensures BlobPrints(h, blobs) + ("\n" + r) != "" && (BlobPrints(h, blobs) + ("\n" + r))[0] == if blobs == []
        then '\n' else ':'
  {
  }

  /** Equal fingerprints, of equally many blobs: equal blobs. */
  lemma {:induction false} PrintsOnce(h: Hashing, a: seq<Bytes>, b: seq<Bytes>, r: string, s: string)
    requires HashLaws(h) && BlobsApart(h, a, b) && |a| == |b|
    requires BlobPrints(h, a) + ("\n" + r) == BlobPrints(h, b) + ("\n" + s)
    ensures a == b && r == s
  {
    if a == [] {
      assert BlobPrints(h, a) + ("\n" + r) == "\n" + r && BlobPrints(h, b) + ("\n" + s) == "\n" + s;
      SplitEqual("\n", "\n", r, s);
    } else {
      var da, db := Decimal(|a[0]|), Decimal(|b[0]|);
      var x, y := BlobPrints(h, a[1..]) + ("\n" + r), BlobPrints(h, b[1..]) + ("\n" + s);
      PrintsParts(h, a, r);
      PrintsParts(h, b, s);
      SplitEqual(":", ":", da + (":" + (h.digest(a[0]) + x)), db + (":" + (h.digest(b[0]) + y)));
      DigitsOnce(da, db, ":" + (h.digest(a[0]) + x), ":" + (h.digest(b[0]) + y));
      SplitEqual(":", ":", h.digest(a[0]) + x, h.digest(b[0]) + y);
      SplitEqual(h.digest(a[0]), h.digest(b[0]), x, y);
      PrintsOnce(h, a[1..], b[1..], r, s);
      assert a == [a[0]] + a[1..] && b == [b[0]] + b[1..];
    }
  }

  lemma PrintsParts(h: Hashing, a: seq<Bytes>, r: string)
    requires a != []
    ensures BlobPrints(h, a) + ("\n" + r) == ":" + (Decimal(|a[0]|)
        + (":" + (h.digest(a[0]) + (BlobPrints(h, a[1..]) + ("\n" + r)))))
  {
    var d, g, t := Decimal(|a[0]|), h.digest(a[0]), BlobPrints(h, a[1..]);
    assert (":" + (d + (":" + (g + t)))) + ("\n" + r) == ":" + (d + (":" + (g + (t + ("\n" + r)))));
  }

  // -- canonical text is one line ----------------------------------------------------------------

  lemma {:induction false} TextOneLine(p: Printer, t: Term)
    requires (forall k :: OneLine(p.key(k))) && forall v :: OneLine(p.scalar(v))
    ensures OneLine(Print(p, t))
    decreases t, 1
  {
    match t
    case Leaf(_) =>
    case List(ts) => ItemsOneLine(p, ts, true);
    case Object(es) => EntriesOneLine(p, es, true);
  }

  lemma {:induction false} ItemsOneLine(p: Printer, ts: seq<Term>, first: bool)
    requires (forall k :: OneLine(p.key(k))) && forall v :: OneLine(p.scalar(v))
    ensures OneLine(PrintItems(p, ts, first))
    decreases ts, 0
  {
    if ts != [] {
      TextOneLine(p, ts[0]);
      ItemsOneLine(p, ts[1..], false);
    }
  }

  lemma {:induction false} EntriesOneLine(p: Printer, es: seq<Entry>, first: bool)
    requires (forall k :: OneLine(p.key(k))) && forall v :: OneLine(p.scalar(v))
    ensures OneLine(PrintEntries(p, es, first))
    decreases es, 0
  {
    if es != [] {
      EntryOneLine(p, es[0]);
      EntriesOneLine(p, es[1..], false);
    }
  }

  lemma {:induction false} EntryOneLine(p: Printer, e: Entry)
    requires (forall k :: OneLine(p.key(k))) && forall v :: OneLine(p.scalar(v))
    ensures OneLine(PrintEntry(p, e))
    decreases e, 0
  {
    TextOneLine(p, e.value);
  }

  /** One key, one compilation: keys are equal exactly when the graphs are equal up to the order of map
      entries, the blobs are equal, and commit, device and worker are the same. */
  lemma KeyExact(h: Hashing, s: Source, t: Source)
    requires HashLaws(h) && NoCollision(h, {s, t})
    requires OneLine(s.commit) && OneLine(t.commit) && OneLine(s.device) && OneLine(t.device)
    ensures CacheKey(h, s) == CacheKey(h, t) <==>
        && Canon(h.printer, s.graph) == Canon(h.printer, t.graph)
        && s.blobs == t.blobs && s.commit == t.commit && s.device == t.device && s.worker == t.worker
  {
    if CacheKey(h, s) == CacheKey(h, t) { KeyReads(h, s, t); }
  }

  /** The key text can be read back. */
  lemma KeyReads(h: Hashing, s: Source, t: Source)
    requires HashLaws(h) && BlobsApart(h, s.blobs, t.blobs) && KeyText(h, s) == KeyText(h, t)
    requires OneLine(s.commit) && OneLine(t.commit) && OneLine(s.device) && OneLine(t.device)
    ensures Canon(h.printer, s.graph) == Canon(h.printer, t.graph)
    ensures s.blobs == t.blobs && s.commit == t.commit && s.device == t.device && s.worker == t.worker
  {
    hide Text, BlobPrints, HashLaws;
    var gs, gt := "graph:" + Text(h.printer, s.graph), "graph:" + Text(h.printer, t.graph);
    var bs, bt := "blobs:" + (Decimal(|s.blobs|) + (BlobPrints(h, s.blobs) + ("\n" + KeyTail(h, s)))),
                  "blobs:" + (Decimal(|t.blobs|) + (BlobPrints(h, t.blobs) + ("\n" + KeyTail(h, t))));
    SplitEqual("gsv:1", "gsv:1", "\n" + (gs + ("\n" + bs)), "\n" + (gt + ("\n" + bt)));
    SplitEqual("\n", "\n", gs + ("\n" + bs), gt + ("\n" + bt));
    GraphLine(h, s);
    GraphLine(h, t);
    LineOnce(gs, gt, bs, bt);
    SplitEqual("graph:", "graph:", Text(h.printer, s.graph), Text(h.printer, t.graph));
    SameGraph(h, s, t);
    BlobsOnce(h, s, t, bs, bt);
    TailOnce(h, s, t);
  }

  lemma GraphLine(h: Hashing, s: Source)
    requires HashLaws(h)
    ensures OneLine("graph:" + Text(h.printer, s.graph))
  {
    TextOneLine(h.printer, Canon(h.printer, s.graph));
  }

  lemma SameGraph(h: Hashing, s: Source, t: Source)
    requires HashLaws(h) && Text(h.printer, s.graph) == Text(h.printer, t.graph)
    ensures Canon(h.printer, s.graph) == Canon(h.printer, t.graph)
  {
    TextsEqual(h.printer, s.graph, t.graph);
  }

  lemma BlobsOnce(h: Hashing, s: Source, t: Source, bs: string, bt: string)
    requires HashLaws(h) && BlobsApart(h, s.blobs, t.blobs) && bs == bt
    requires bs == "blobs:" + (Decimal(|s.blobs|) + (BlobPrints(h, s.blobs) + ("\n" + KeyTail(h, s))))
    requires bt == "blobs:" + (Decimal(|t.blobs|) + (BlobPrints(h, t.blobs) + ("\n" + KeyTail(h, t))))
    ensures s.blobs == t.blobs && KeyTail(h, s) == KeyTail(h, t)
  {
    hide BlobPrints, KeyTail;
    var x, y := BlobPrints(h, s.blobs) + ("\n" + KeyTail(h, s)), BlobPrints(h, t.blobs) + ("\n" + KeyTail(h, t));
    SplitEqual("blobs:", "blobs:", Decimal(|s.blobs|) + x, Decimal(|t.blobs|) + y);
    PrintsStart(h, s.blobs, KeyTail(h, s));
    PrintsStart(h, t.blobs, KeyTail(h, t));
    DigitsOnce(Decimal(|s.blobs|), Decimal(|t.blobs|), x, y);
    DecimalOnce(|s.blobs|, |t.blobs|);
    PrintsOnce(h, s.blobs, t.blobs, KeyTail(h, s), KeyTail(h, t));
  }

  lemma TailOnce(h: Hashing, s: Source, t: Source)
    requires HashLaws(h) && KeyTail(h, s) == KeyTail(h, t)
    requires OneLine(s.commit) && OneLine(t.commit) && OneLine(s.device) && OneLine(t.device)
    ensures s.commit == t.commit && s.device == t.device && s.worker == t.worker
  {
    var ws, wt := "worker:" + (h.worker(s.worker) + ("\ncc:" + h.options(s.device))),
        "worker:" + (h.worker(t.worker) + ("\ncc:" + h.options(t.device)));
    var ds, dt := "dev:" + s.device, "dev:" + t.device;
    var cs, ct := "tg:" + s.commit, "tg:" + t.commit;
    LineOnce("nx:" + h.nx, "nx:" + h.nx, cs + ("\n" + ("pv:1" + ("\n" + (ds + ("\n" + ws))))),
        ct + ("\n" + ("pv:1" + ("\n" + (dt + ("\n" + wt))))));
    LineOnce(cs, ct, "pv:1" + ("\n" + (ds + ("\n" + ws))), "pv:1" + ("\n" + (dt + ("\n" + wt))));
    LineOnce("pv:1", "pv:1", ds + ("\n" + ws), dt + ("\n" + wt));
    LineOnce(ds, dt, ws, wt);
    SplitEqual("tg:", "tg:", s.commit, t.commit);
    SplitEqual("dev:", "dev:", s.device, t.device);
    SplitEqual("worker:", "worker:", h.worker(s.worker) + ("\ncc:" + h.options(s.device)),
        h.worker(t.worker) + ("\ncc:" + h.options(t.device)));
    var c := "\ncc:" + h.options(s.device);
    assert |h.worker(s.worker) + c| == |h.worker(t.worker) + c|;
    SplitEqual(h.worker(s.worker), h.worker(t.worker), c, c);
  }

  // -- the bounded table ---------------------------------------------------------------------------

  class Cache<V(==)> {
    var table: map<string, V>
    const limit: nat

    constructor (limit: nat)
      ensures this.limit == limit && table == map[]
    {
      this.limit := limit;
      table := map[];
    }

    method Get(key: string) returns (r: Option<V>)
      ensures r == if key in table then Some(table[key]) else None
    {
      r := if key in table then Some(table[key]) else None;
    }

    /** Store an entry, giving up any one other entry if the table is full and the key is new.  The
        limit is kept exactly when it is not 0: with 0, the one entry stays. */
    method Put(key: string, value: V)
      modifies this
      ensures key in table && table[key] == value
      ensures forall k :: k in table && k != key ==> k in old(table) && table[k] == old(table)[k]
      ensures |table| <= Max(|old(table)|, 1) || (|table| == |old(table)| + 1 && |old(table)| < limit)
      ensures |old(table)| <= limit ==> (|table| <= limit <==> limit > 0)
      ensures key in old(table) || |old(table)| < limit ==> table == old(table)[key := value]
      ensures key !in old(table) && |old(table)| >= limit && old(table) != map[] ==>
                exists k :: k in old(table) && table == (old(table) - {k})[key := value]
    {
      if key !in table && |table| >= limit {
        if table != map[] {
          var oldest :| oldest in table;
          OneLess(table, oldest);
          table := table - {oldest};
        }
      }
      OneMore(table, key, value);
      table := table[key := value];
    }

    method Delete(key: string)
      modifies this
      ensures table == old(table) - {key}
    {
      table := table - {key};
    }

    method Clear()
      modifies this
      ensures table == map[]
    {
      table := map[];
    }
  }

  lemma OneLess<V>(m: map<string, V>, k: string)
    requires k in m
    ensures |m - {k}| == |m| - 1
  {
    assert m.Keys == (m - {k}).Keys + {k};
    assert |m| == |m.Keys| && |m - {k}| == |(m - {k}).Keys|;
  }

  lemma OneMore<V>(m: map<string, V>, k: string, v: V)
    ensures |m[k := v]| == if k in m then |m| else |m| + 1
  {
    assert m[k := v].Keys == m.Keys + {k};
    assert |m| == |m.Keys| && |m[k := v]| == |m[k := v].Keys|;
    if k in m { assert m.Keys + {k} == m.Keys; }
  }

  // -- compiling through the cache -----------------------------------------------------------------------

  datatype CacheEntry = CacheEntry(generation: nat, id: nat)

  /** A worker process: its generation, its executables, and its next id. */
  datatype Process = Process(gen: nat, resident: set<nat>, next: nat)

  /** Which compilation an executable came from. */
  datatype Made = Made(worker: Name, gen: nat, id: nat)

  ghost predicate WorkersOk(workers: map<Name, Process>, counter: nat) {
    forall w :: w in workers ==> workers[w].gen <= counter && forall id :: id in workers[w].resident ==>
        id < workers[w].next
  }

  /** Executables of running generations have ids already given out. */
  ghost predicate OriginOk(origin: map<Made, Source>, workers: map<Name, Process>, counter: nat) {
    forall m :: m in origin ==>
        m.gen <= counter && (m.worker in workers && workers[m.worker].gen == m.gen ==> m.id < workers[m.worker].next)
  }

  /** An entry was compiled from a source with its key; and while its generation runs, its reference
      keeps the executable resident. */
  ghost predicate KeyedBy(h: Hashing, key: string, e: CacheEntry, s: Source, origin: map<Made, Source>,
      workers: map<Name, Process>)
  {
    var m := Made(s.worker, e.generation, e.id);
    && CacheKey(h, s) == key && OneLine(s.commit) && OneLine(s.device)
    && m in origin && origin[m] == s && StillThere(e, s.worker, workers)
  }

  predicate StillThere(e: CacheEntry, w: Name, workers: map<Name, Process>) {
    w in workers && workers[w].gen == e.generation ==> e.id in workers[w].resident
  }

  ghost predicate EntryRight(h: Hashing, key: string, e: CacheEntry, origin: map<Made, Source>, workers: map<Name,
      Process>)
  {
    exists s: Source :: KeyedBy(h, key, e, s, origin, workers)
  }

  ghost predicate TableRight(h: Hashing, table: map<string, CacheEntry>, origin: map<Made, Source>, workers: map<Name,
      Process>)
  {
    forall key :: key in table ==> EntryRight(h, key, table[key], origin, workers)
  }

  /** Entries stay right while what they point to stays. */
  lemma TableStays(h: Hashing, table: map<string, CacheEntry>, origin: map<Made, Source>, workers: map<Name, Process>,
      origin': map<Made, Source>, workers': map<Name, Process>)
    requires TableRight(h, table, origin, workers)
    requires forall m :: m in origin ==> m in origin' && origin'[m] == origin[m]
    requires forall key, s :: key in table && KeyedBy(h, key, table[key], s, origin, workers) ==>
        StillThere(table[key], s.worker, workers')
    ensures TableRight(h, table, origin', workers')
  {
    hide CacheKey, StillThere, OneLine;
    forall key | key in table ensures EntryRight(h, key, table[key], origin', workers') {
      assert EntryRight(h, key, table[key], origin, workers);
      var s :| KeyedBy(h, key, table[key], s, origin, workers);
      assert KeyedBy(h, key, table[key], s, origin', workers');
    }
  }

  /** A compilation takes nothing away. */
  lemma CompiledStays(h: Hashing, table: map<string, CacheEntry>, origin: map<Made, Source>, workers: map<Name,
      Process>, counter: nat, s: Source)
    requires TableRight(h, table, origin, workers) && s.worker in workers && WorkersOk(workers, counter)
    requires OriginOk(origin, workers, counter)
    ensures var p := workers[s.worker];
            TableRight(h, table, origin[Made(s.worker, p.gen, p.next) := s],
                workers[s.worker := Process(p.gen, p.resident + {p.next}, p.next + 1)])
  {
    hide CacheKey, OneLine;
    var p := workers[s.worker];
    var m := Made(s.worker, p.gen, p.next);
    assert m !in origin;
    TableStays(h, table, origin, workers, origin[m := s], workers[s.worker :=
        Process(p.gen, p.resident + {p.next}, p.next + 1)]);
  }

  /** A hit of the running generation is resident and was compiled from the same. */
  lemma HitRight(h: Hashing, table: map<string, CacheEntry>, origin: map<Made, Source>, workers: map<Name, Process>,
      s: Source)
    requires HashLaws(h) && NoCollision(h, origin.Values + {s}) && TableRight(h, table, origin, workers)
    requires OneLine(s.commit) && OneLine(s.device) && s.worker in workers && Hit(table, workers, h, s)
    ensures var e := table[CacheKey(h, s)];
            e.id in workers[s.worker].resident && CompiledFrom(h, origin, Made(s.worker, e.generation, e.id), s)
  {
    hide HashLaws, CacheKey, OneLine, NoCollision;
    var key := CacheKey(h, s);
    assert EntryRight(h, key, table[key], origin, workers);
    var t :| KeyedBy(h, key, table[key], t, origin, workers);
    assert t in origin.Values;
    FewerApart(h, origin.Values + {s}, {s, t});
    KeyExact(h, s, t);
  }

  /** A table that gains a new entry, and may lose others, stays right. */
  lemma Stored(h: Hashing, table: map<string, CacheEntry>, table': map<string, CacheEntry>, origin: map<Made, Source>,
      workers: map<Name, Process>, s: Source, e: CacheEntry)
    requires TableRight(h, table, origin, workers) && OneLine(s.commit) && OneLine(s.device) && s.worker in workers
    requires var key := CacheKey(h, s);
             && key in table' && table'[key] == e
             && forall k :: k in table' && k != key ==> k in table && table'[k] == table[k]
    requires var m := Made(s.worker, e.generation, e.id); m in origin && origin[m] == s
    requires e.id in workers[s.worker].resident && e.generation == workers[s.worker].gen
    ensures TableRight(h, table', origin, workers)
    ensures CompiledFrom(h, origin, Made(s.worker, e.generation, e.id), s)
  {
    hide CacheKey, OneLine, Canon;
    assert KeyedBy(h, CacheKey(h, s), e, s, origin, workers);
    forall k | k in table' ensures EntryRight(h, k, table'[k], origin, workers) {
      if k != CacheKey(h, s) { assert EntryRight(h, k, table[k], origin, workers); }
    }
  }

  lemma FewerApart(h: Hashing, sources: set<Source>, fewer: set<Source>)
    requires NoCollision(h, sources) && fewer <= sources
    ensures NoCollision(h, fewer)
  {
  }

  class Compiler {
    const h: Hashing
    const cache: Cache<CacheEntry>
    var workers: map<Name, Process>
    var counter: nat
    /** What every executable was compiled from. */
    ghost var origin: map<Made, Source>

    constructor (h: Hashing, limit: nat)
      requires HashLaws(h)
      ensures Valid() && this.h == h && fresh(cache) && cache.limit == limit
      ensures cache.table == map[] && workers == map[] && origin == map[]
    {
      this.h := h;
      cache := new Cache<CacheEntry>(limit);
      workers := map[];
      counter := 0;
      origin := map[];
    }

    /** What was compiled does not collide; and the cache never grows past its limit, as long as that is
        not 0. */
    ghost predicate Valid()
      reads this, cache
    {
      && HashLaws(h) && NoCollision(h, origin.Values) && |cache.table| <= Max(cache.limit, 1)
      && WorkersOk(workers, counter) && OriginOk(origin, workers, counter)
      && TableRight(h, cache.table, origin, workers)
    }

    /** A worker starts, or starts again: a new generation, nothing resident, ids from 1. */
    method Restart(w: Name)
      requires Valid()
      modifies this`workers, this`counter
      ensures Valid() && counter == old(counter) + 1 && workers == old(workers)[w := Process(counter, {}, 1)]
    {
      hide HashLaws, CacheKey, OneLine;
      counter := counter + 1;
      workers := workers[w := Process(counter, {}, 1)];
      TableStays(h, cache.table, origin, old(workers), origin, workers);
    }

    /** The reaper releases an executable that no reference holds: no cache entry, and no caller. */
    method ReleaseExecutable(w: Name, id: nat)
      requires Valid() && w in workers
      requires forall key, s ::
                 && key in cache.table && KeyedBy(h, key, cache.table[key], s, origin, workers)
                 && s.worker == w && cache.table[key].generation == workers[w].gen ==>
                 cache.table[key].id != id
      modifies this`workers
      ensures Valid() && workers == old(workers)[w := old(workers)[w].(resident := old(workers)[w].resident - {id})]
    {
      hide HashLaws, CacheKey, OneLine;
      workers := workers[w := workers[w].(resident := workers[w].resident - {id})];
      TableStays(h, cache.table, origin, old(workers), origin, workers);
    }

    /** Compile in the worker as it is now. */
    method CompileNow(s: Source) returns (e: CacheEntry)
      requires Valid() && s.worker in workers && NoCollision(h, origin.Values + {s})
      modifies this`workers, this`origin
      ensures Valid() && counter == old(counter)
      ensures var p := old(workers)[s.worker];
              && e == CacheEntry(p.gen, p.next)
              && workers == old(workers)[s.worker := Process(p.gen, p.resident + {p.next}, p.next + 1)]
      ensures var m := Made(s.worker, e.generation, e.id); m !in old(origin) && origin == old(origin)[m := s]
    {
      hide HashLaws, CacheKey, OneLine, TableRight, KeyedBy, NoCollision;
      var p := workers[s.worker];
      e := CacheEntry(p.gen, p.next);
      workers := workers[s.worker := Process(p.gen, p.resident + {p.next}, p.next + 1)];
      origin := origin[Made(s.worker, p.gen, p.next) := s];
      CompiledStays(h, cache.table, old(origin), old(workers), counter, s);
      FewerApart(h, old(origin).Values + {s}, origin.Values);
    }

    /** A hit or a new compilation: either way an executable of this worker as it is now, still
        resident, and compiled from an equal graph and equal blobs. */
    method EnsureCompiled(s: Source) returns (e: CacheEntry)
      requires Valid() && s.worker in workers && OneLine(s.commit) && OneLine(s.device)
      requires NoCollision(h, origin.Values + {s})
      modifies this`workers, this`origin, cache
      ensures Valid()
      ensures s.worker in workers && e.generation == workers[s.worker].gen == old(workers)[s.worker].gen
      ensures e.id in workers[s.worker].resident
      ensures CompiledFrom(h, origin, Made(s.worker, e.generation, e.id), s)
      ensures if Hit(old(cache.table), old(workers), h, s)
              then e == old(cache.table)[CacheKey(h, s)] && workers == old(workers) && origin == old(origin)
              else
                && workers == old(workers)[s.worker := Process(e.generation,
                     old(workers)[s.worker].resident + {e.id}, e.id + 1)]
                && e.id == old(workers)[s.worker].next
                && var m := Made(s.worker, e.generation, e.id); m !in old(origin) && origin == old(origin)[m := s]
      ensures Hit(cache.table, workers, h, s) && cache.table[CacheKey(h, s)] == e
      ensures Hit(old(cache.table), old(workers), h, s) || |old(cache.table)| < cache.limit ==>
                cache.table == old(cache.table)[CacheKey(h, s) := e]
    {
      hide HashLaws, CacheKey, OneLine, NoCollision, TableRight, CompiledFrom, OriginOk, WorkersOk, Canon;
      var key := CacheKey(h, s);
      var hit := cache.Get(key);
      if hit.Some? && hit.value.generation == workers[s.worker].gen {
        HitRight(h, cache.table, origin, workers, s);
        return hit.value;
      }
      e := CompileNow(s);
      ghost var before := cache.table;
      cache.Put(key, e);
      Stored(h, before, cache.table, origin, workers, s, e);
    }
  }

  /** The cache holds an entry of the worker's running generation under the source's key. */
  predicate Hit(table: map<string, CacheEntry>, workers: map<Name, Process>, h: Hashing, s: Source)
    requires s.worker in workers
  {
    var key := CacheKey(h, s);
    key in table && table[key].generation == workers[s.worker].gen
  }

  /** An executable came from this source: an equal graph, equal blobs, and the same commit, device and
      worker. */
  ghost predicate CompiledFrom(h: Hashing, origin: map<Made, Source>, m: Made, s: Source) {
    m in origin && Canon(h.printer, origin[m].graph) == Canon(h.printer, s.graph) && origin[m].blobs == s.blobs
    && origin[m].commit == s.commit && origin[m].device == s.device && origin[m].worker == s.worker
  }

  // -- the laws can be met -----------------------------------------------------------------------------

  /** The first characters of a text, filled up to a length. */
  function Front(t: string, n: nat): (f: string)
    ensures |f| == n
  {
    seq(n, i requires 0 <= i < n => if i < |t| then t[i] else '0')
  }

  /** A hashing for a few sources: JSON, and front parts for hashes. */
  function FrontHashing(): Hashing {
    Hashing(Json(), (b: Bytes) => Front(seq(|b|, i requires 0 <= i < |b| => b[i] as char), 32),
        (t: string) => Front(t, 64), (w: Name) => w, (d: string) => d, "1")
  }

  /** Two sources that differ in graph and blobs. */
  function Small(b: bool): Source {
    Source(Leaf(Truth(b)), [[if b then 1 else 2]], "c", "CPU", "w")
  }

  /** Where the texts of the two keys differ. */
  lemma KeyAt(b: bool)
    ensures var k := KeyText(FrontHashing(), Small(b)); |k| > 12 && k[12] == if b then 't' else 'f'
  {
    hide KeyTail, BlobPrints;
    var h := FrontHashing();
    var g := Text(h.printer, Small(b).graph);
    assert g == if b then "true" else "false";
    var rest := "blobs:" + (Decimal(1) + (BlobPrints(h, Small(b).blobs) + ("\n" + KeyTail(h, Small(b)))));
    var k := "gsv:1" + ("\n" + ("graph:" + g + ("\n" + rest)));
    assert k == KeyText(h, Small(b));
    assert k[12] == ("\n" + ("graph:" + g + ("\n" + rest)))[7] == g[0];
  }

  lemma FrontLaws()
    ensures HashLaws(FrontHashing())
  {
    JsonDelimited();
    JsonOneLine();
  }

  /** The laws hold of a hashing of one length, and no two of some sources with different blobs
      collide. */
  lemma LawsMet()
    ensures HashLaws(FrontHashing()) && NoCollision(FrontHashing(), {Small(true), Small(false)})
    ensures CacheKey(FrontHashing(), Small(true)) != CacheKey(FrontHashing(), Small(false))
    ensures Small(true).blobs != Small(false).blobs
  {
    hide KeyText, HashLaws;
    FrontLaws();
    var h := FrontHashing();
    forall b: bool ensures CacheKey(h, Small(b))[12] == if b then 't' else 'f' { KeyAt(b); }
    assert Small(true).blobs[0] != Small(false).blobs[0];
    forall b: bool ensures h.digest(Small(b).blobs[0])[0] == if b then 1 as char else 2 as char { }
    forall b, c: bool ensures BlobsApart(h, Small(b).blobs, Small(c).blobs) { BothApart(b, c); }
  }

  lemma BothApart(b: bool, c: bool)
    ensures BlobsApart(FrontHashing(), Small(b).blobs, Small(c).blobs)
  {
    var h := FrontHashing();
    forall x, y | x in Small(b).blobs && y in Small(c).blobs && h.digest(x) == h.digest(y) ensures x == y {
      assert h.digest(x)[0] == x[0] as char && h.digest(y)[0] == y[0] as char;
    }
  }

  /** A compiler that compiles two sources, and finds the first again. */
  method TwoSources() returns (a: CacheEntry, b: CacheEntry, again: CacheEntry)
    ensures a != b && again == a
  {
    hide FrontHashing, Small, HashLaws, CacheKey, CompiledFrom, NoCollision, OneLine, Compiler.Valid;
    LawsMet();
    SmallNames();
    var s, t := Small(true), Small(false);
    var c := new Compiler(FrontHashing(), 2);
    c.Restart("w");
    OursApart(c.h, {s, t}, c.origin, s);
    a := c.EnsureCompiled(s);
    OursApart(c.h, {s, t}, c.origin, t);
    b := c.EnsureCompiled(t);
    OursApart(c.h, {s, t}, c.origin, s);
    again := c.EnsureCompiled(s);
  }

  lemma OursApart(h: Hashing, sources: set<Source>, origin: map<Made, Source>, s: Source)
    requires NoCollision(h, sources) && s in sources && forall m :: m in origin ==> origin[m] in sources
    ensures NoCollision(h, origin.Values + {s})
  {
    FewerApart(h, sources, origin.Values + {s});
  }

  lemma SmallNames()
    ensures forall b :: Small(b).worker == "w" && OneLine(Small(b).commit) && OneLine(Small(b).device)
  {
  }
}
