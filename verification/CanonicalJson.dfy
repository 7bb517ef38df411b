/** The canonical text of a graph: object keys sorted at every level.  Equal texts mean equal graphs,
    and the order in which a map lists its entries does not matter. */
module CanonicalJson {
  type Key = string

  /** A scalar, as far as JSON tells scalars apart. */
  datatype Scalar = Null | Truth(b: bool) | Whole(n: int) | Float(mantissa: int, exponent: int) | Str(s: string)

  /** A term as it is listed: a map is a list of entries in any order. */
  datatype Term = Object(entries: seq<Entry>) | List(items: seq<Term>) | Leaf(value: Scalar)
  datatype Entry = Entry(key: Key, value: Term)

  /** How keys and scalars are written, and how keys compare. */
  datatype Printer = Printer(key: Key -> string, scalar: Scalar -> string, less: (Key, Key) -> bool)

  /** Ends a value inside a text. */
  predicate Ends(rest: string) {
    rest == "" || rest[0] == ',' || rest[0] == ']' || rest[0] == '}'
  }

  ghost predicate TotalOrder(p: Printer) {
    && (forall a, b :: a != b ==> (p.less(a, b) <==> !p.less(b, a)))
    && (forall a :: !p.less(a, a))
    && forall a, b, c :: p.less(a, b) && p.less(b, c) ==> p.less(a, c)
  }

  /** What JSON text guarantees: a key ends where its colon is, a scalar where a delimiter is, and
      neither starts like a bracket. */
  ghost predicate Delimited(p: Printer) {
    && (forall a, b, r, s :: p.key(a) + ":" + r == p.key(b) + ":" + s ==> a == b)
    && (forall a, b, r, s :: p.scalar(a) + r == p.scalar(b) + s && Ends(r) && Ends(s) ==> a == b)
    && (forall a :: p.scalar(a) != "" && p.scalar(a)[0] !in "{[]},")
    && (forall a :: p.key(a) != "" && p.key(a)[0] != '}')
  }

  // -- sorting entries -------------------------------------------------------------------

  function Insert(p: Printer, es: seq<Entry>, e: Entry): seq<Entry> {
    if es == [] then [e]
    else if p.less(es[0].key, e.key) then [es[0]] + Insert(p, es[1..], e)
    else [e] + es
  }

  function Sort(p: Printer, es: seq<Entry>): seq<Entry> {
    if es == [] then [] else Insert(p, Sort(p, es[1..]), es[0])
  }

  /** The same term with its keys sorted at every level. */
  function Canon(p: Printer, t: Term): Term
    decreases t, 1
  {
    match t
    case Object(es) => Object(Sort(p, CanonEntries(p, es)))
    case List(ts) => List(CanonAll(p, ts))
    case Leaf(v) => Leaf(v)
  }

  function CanonAll(p: Printer, ts: seq<Term>): seq<Term>
    decreases ts, 0
  {
    if ts == [] then [] else [Canon(p, ts[0])] + CanonAll(p, ts[1..])
  }

  function CanonEntries(p: Printer, es: seq<Entry>): seq<Entry>
    decreases es, 0
  {
    if es == [] then [] else [CanonEntry(p, es[0])] + CanonEntries(p, es[1..])
  }

  function CanonEntry(p: Printer, e: Entry): Entry
    decreases e, 0
  {
    Entry(e.key, Canon(p, e.value))
  }

  // -- the text ----------------------------------------------------------------------------

  function Print(p: Printer, t: Term): string
    decreases t, 1
  {
    match t
    case Object(es) => "{" + PrintEntries(p, es, true) + "}"
    case List(ts) => "[" + PrintItems(p, ts, true) + "]"
    case Leaf(v) => p.scalar(v)
  }

  function PrintItems(p: Printer, ts: seq<Term>, first: bool): string
    decreases ts, 0
  {
    if ts == [] then "" else (if first then "" else ",") + Print(p, ts[0]) + PrintItems(p, ts[1..], false)
  }

  function PrintEntries(p: Printer, es: seq<Entry>, first: bool): string
    decreases es, 0
  {
    if es == [] then ""
    else (if first then "" else ",") + PrintEntry(p, es[0]) + PrintEntries(p, es[1..], false)
  }

  function PrintEntry(p: Printer, e: Entry): string
    decreases e, 0
  {
    p.key(e.key) + ":" + Print(p, e.value)
  }

  /** The canonical text. */
  function Text(p: Printer, t: Term): string {
    Print(p, Canon(p, t))
  }

  // -- equal texts, equal terms ---------------------------------------------------------------

  lemma FirstChar(p: Printer, t: Term)
    requires Delimited(p)
    ensures Print(p, t) != "" && Print(p, t)[0] !in "]},"
    ensures t.Object? <==> Print(p, t)[0] == '{'
    ensures t.List? <==> Print(p, t)[0] == '['
  {
  }

  lemma SplitEqual(a: string, b: string, r: string, s: string)
    requires a + r == b + s && |a| == |b|
    ensures a == b && r == s
  {
    assert a == (a + r)[..|a|] && b == (b + s)[..|b|];
    assert r == (a + r)[|a|..] && s == (b + s)[|b|..];
  }

  /** Where the shorter of two fronts ends, the rest goes on as the longer. */
  lemma Shorter(a: string, b: string, r: string, s: string)
    requires a + r == b + s && |a| < |b|
    ensures r != "" && r[0] == b[|a|]
  {
    assert (b + s)[|a|] == b[|a|];
    assert (a + r)[|a|] == r[0];
  }

  /** What is before the first mark of a text. */
  lemma MarkOnce(c: char, a: string, b: string, r: string, s: string)
    requires c !in a && c !in b && a + ([c] + r) == b + ([c] + s)
    ensures a == b && r == s
  {
    if |a| < |b| { Shorter(a, b, [c] + r, [c] + s); }
    if |b| < |a| { Shorter(b, a, [c] + s, [c] + r); }
    SplitEqual(a, b, [c] + r, [c] + s);
    SplitEqual([c], [c], r, s);
  }

  /** A value's text can be read off the front of any text that goes on with a delimiter. */
  lemma {:induction false} PrintOnce(p: Printer, t: Term, u: Term, r: string, s: string)
    requires Delimited(p) && Print(p, t) + r == Print(p, u) + s && Ends(r) && Ends(s)
    ensures t == u && r == s
    decreases t, 1
  {
    FirstChar(p, t);
    FirstChar(p, u);
    assert (Print(p, t) + r)[0] == Print(p, t)[0] && (Print(p, u) + s)[0] == Print(p, u)[0];
    match t {
      case Leaf(v) =>
        assert v == u.value;
        SplitEqual(p.scalar(v), p.scalar(v), r, s);
      case List(ts) =>
        var a, b := PrintItems(p, ts, true), PrintItems(p, u.items, true);
        assert Print(p, t) + r == "[" + (a + ("]" + r)) && Print(p, u) + s == "[" + (b + ("]" + s));
        SplitEqual("[", "[", a + ("]" + r), b + ("]" + s));
        ItemsOnce(p, ts, u.items, true, r, s);
      case Object(es) =>
        var a, b := PrintEntries(p, es, true), PrintEntries(p, u.entries, true);
        assert Print(p, t) + r == "{" + (a + ("}" + r)) && Print(p, u) + s == "{" + (b + ("}" + s));
        SplitEqual("{", "{", a + ("}" + r), b + ("}" + s));
        EntriesOnce(p, es, u.entries, true, r, s);
    }
  }

  function Sep(first: bool): string {
    if first then "" else ","
  }

  /** How a list of items goes on after its first. */
  lemma ItemsParts(p: Printer, ts: seq<Term>, first: bool, r: string)
    ensures ts == [] ==> PrintItems(p, ts, first) + ("]" + r) == "]" + r
    ensures ts != [] ==>
              && PrintItems(p, ts, first) + ("]" + r) == Sep(first)
                  + (Print(p, ts[0]) + (PrintItems(p, ts[1..], false) + ("]" + r)))
              && Ends(PrintItems(p, ts[1..], false) + ("]" + r))
  {
    if ts != [] {
      var a, b := Print(p, ts[0]), PrintItems(p, ts[1..], false);
      assert (Sep(first) + a + b) + ("]" + r) == Sep(first) + (a + (b + ("]" + r)));
      if ts[1..] != [] {
        assert b == "," + Print(p, ts[1..][0]) + PrintItems(p, ts[1..][1..], false);
        assert (b + ("]" + r))[0] == ',';
      } else {
        assert (b + ("]" + r))[0] == ']';
      }
    }
  }

  /** A list with items never reads like one without. */
  lemma EmptyOrNot(p: Printer, ts: seq<Term>, first: bool, r: string, s: string)
    requires Delimited(p) && ts != []
    ensures PrintItems(p, ts, first) + ("]" + r) != "]" + s && PrintItems(p, ts, first) + ("]" + s) != "]" + r
  {
    ItemsParts(p, ts, first, r);
    ItemsParts(p, ts, first, s);
    FirstChar(p, ts[0]);
    assert ("]" + s)[0] == ']' && ("]" + r)[0] == ']';
    assert (PrintItems(p, ts, first) + ("]" + r))[0] != ']';
    assert (PrintItems(p, ts, first) + ("]" + s))[0] != ']';
  }

  lemma {:induction false} ItemsOnce(p: Printer, ts: seq<Term>, us: seq<Term>, first: bool, r: string, s: string)
    requires Delimited(p) && Ends(r) && Ends(s)
    requires PrintItems(p, ts, first) + ("]" + r) == PrintItems(p, us, first) + ("]" + s)
    ensures ts == us && r == s
    decreases ts, 0
  {
    hide Print, PrintItems, PrintEntries, Delimited;
    ItemsParts(p, ts, first, r);
    ItemsParts(p, us, first, s);
    if ts == [] && us == [] {
      SplitEqual("]", "]", r, s);
    } else if ts == [] || us == [] {
      EmptyOrNot(p, if ts == [] then us else ts, first, r, s);
    } else {
      var a, b := PrintItems(p, ts[1..], false) + ("]" + r), PrintItems(p, us[1..], false) + ("]" + s);
      SplitEqual(Sep(first), Sep(first), Print(p, ts[0]) + a, Print(p, us[0]) + b);
      PrintOnce(p, ts[0], us[0], a, b);
      ItemsOnce(p, ts[1..], us[1..], false, r, s);
      assert ts == [ts[0]] + ts[1..] && us == [us[0]] + us[1..];
    }
  }

  lemma Regroup(s: string, k: string, a: string, b: string, r: string)
    ensures (s + (k + a) + b) + r == s + (k + (a + (b + r)))
  {
  }

  lemma RestEnds(p: Printer, es: seq<Entry>, r: string)
    ensures Ends(PrintEntries(p, es, false) + ("}" + r))
  {
    hide Print;
    var b := PrintEntries(p, es, false);
    if es != [] {
      assert b == "," + PrintEntry(p, es[0]) + PrintEntries(p, es[1..], false);
      assert (b + ("}" + r))[0] == ',';
    } else {
      assert (b + ("}" + r))[0] == '}';
    }
  }

  lemma EntriesParts(p: Printer, es: seq<Entry>, first: bool, r: string)
    ensures es == [] ==> PrintEntries(p, es, first) + ("}" + r) == "}" + r
    ensures es != [] ==>
              && PrintEntries(p, es, first) + ("}" + r) ==
                 Sep(first) + (p.key(es[0].key) + ":" + (Print(p, es[0].value)
                     + (PrintEntries(p, es[1..], false) + ("}" + r))))
              && Ends(PrintEntries(p, es[1..], false) + ("}" + r))
  {
    hide Print;
    if es != [] {
      var k, a, b := p.key(es[0].key), Print(p, es[0].value), PrintEntries(p, es[1..], false);
      assert PrintEntry(p, es[0]) == k + ":" + a;
      assert PrintEntries(p, es, first) == Sep(first) + (k + ":" + a) + b;
      Regroup(Sep(first), k + ":", a, b, "}" + r);
      RestEnds(p, es[1..], r);
    }
  }

  lemma KeyOnce(p: Printer, a: Key, b: Key, r: string, s: string)
    requires Delimited(p) && p.key(a) + ":" + r == p.key(b) + ":" + s
    ensures a == b && r == s
  {
    SplitEqual(p.key(a) + ":", p.key(b) + ":", r, s);
  }

  lemma KeyStarts(p: Printer, a: Key, r: string)
    requires Delimited(p)
    ensures p.key(a) + ":" + r != "" && (p.key(a) + ":" + r)[0] != '}'
  {
  }

  lemma NoneOrSome(p: Printer, es: seq<Entry>, first: bool, r: string, s: string)
    requires Delimited(p) && es != []
    ensures PrintEntries(p, es, first) + ("}" + r) != "}" + s
  {
    var tail := Print(p, es[0].value) + (PrintEntries(p, es[1..], false) + ("}" + r));
    EntriesParts(p, es, first, r);
    KeyStarts(p, es[0].key, tail);
    assert ("}" + s)[0] == '}';
    assert (Sep(first) + (p.key(es[0].key) + ":" + tail))[0] != '}';
  }

  lemma {:induction false} EntryOnce(p: Printer, e: Entry, f: Entry, a: string, b: string)
    requires Delimited(p) && Ends(a) && Ends(b)
    requires p.key(e.key) + ":" + (Print(p, e.value) + a) == p.key(f.key) + ":" + (Print(p, f.value) + b)
    ensures e == f && a == b
    decreases e, 0
  {
    hide Print, Delimited;
    KeyOnce(p, e.key, f.key, Print(p, e.value) + a, Print(p, f.value) + b);
    PrintOnce(p, e.value, f.value, a, b);
  }

  lemma {:induction false} EntriesOnce(p: Printer, es: seq<Entry>, fs: seq<Entry>, first: bool, r: string, s: string)
    requires Delimited(p) && Ends(r) && Ends(s)
    requires PrintEntries(p, es, first) + ("}" + r) == PrintEntries(p, fs, first) + ("}" + s)
    ensures es == fs && r == s
    decreases es, 0
  {
    hide Print, PrintItems, PrintEntries, Delimited;
    EntriesParts(p, es, first, r);
    EntriesParts(p, fs, first, s);
    if es == [] && fs == [] {
      SplitEqual("}", "}", r, s);
    } else if es == [] || fs == [] {
      NoneOrSome(p, if es == [] then fs else es, first, if es == [] then s else r, if es == [] then r else s);
    } else {
      var a, b := PrintEntries(p, es[1..], false) + ("}" + r), PrintEntries(p, fs[1..], false) + ("}" + s);
      var x, y := Print(p, es[0].value) + a, Print(p, fs[0].value) + b;
      SplitEqual(Sep(first), Sep(first), p.key(es[0].key) + ":" + x, p.key(fs[0].key) + ":" + y);
      EntryOnce(p, es[0], fs[0], a, b);
      EntriesOnce(p, es[1..], fs[1..], false, r, s);
      assert es == [es[0]] + es[1..] && fs == [fs[0]] + fs[1..];
    }
  }

  // -- order does not matter --------------------------------------------------------------------

  predicate UniqueKeys(es: seq<Entry>) {
    forall i, j :: 0 <= i < j < |es| ==> es[i].key != es[j].key
  }

  predicate Ascending(p: Printer, es: seq<Entry>) {
    forall i, j :: 0 <= i < j < |es| ==> p.less(es[i].key, es[j].key)
  }

  lemma {:induction false} InsertSorted(p: Printer, es: seq<Entry>, e: Entry)
    requires TotalOrder(p) && Ascending(p, es) && forall i :: 0 <= i < |es| ==> es[i].key != e.key
    ensures Ascending(p, Insert(p, es, e))
    ensures forall x :: x in Insert(p, es, e) <==> x in es || x == e
  {
    if es != [] {
      var rest := es[1..];
      if p.less(es[0].key, e.key) {
        InsertSorted(p, rest, e);
        var r := Insert(p, rest, e);
        forall j | 0 <= j < |r| ensures p.less(es[0].key, r[j].key) {
          assert r[j] in r;
          if r[j] != e {
            var k :| 0 <= k < |rest| && rest[k] == r[j];
            assert rest[k] == es[k + 1];
          }
        }
      } else {
        forall j | 0 <= j < |es| ensures p.less(e.key, es[j].key) {
          if j > 0 { assert p.less(es[0].key, es[j].key); }
        }
      }
    }
  }

  lemma {:induction false} SortSorted(p: Printer, es: seq<Entry>)
    requires TotalOrder(p) && UniqueKeys(es)
    ensures Ascending(p, Sort(p, es)) && forall x :: x in Sort(p, es) <==> x in es
  {
    if es != [] {
      SortSorted(p, es[1..]);
      var rest := Sort(p, es[1..]);
      forall i | 0 <= i < |rest| ensures rest[i].key != es[0].key {
        assert rest[i] in rest;
        var k :| 0 <= k < |es[1..]| && es[1..][k] == rest[i];
        assert es[k + 1] == rest[i];
      }
      InsertSorted(p, rest, es[0]);
      assert es == [es[0]] + es[1..];
    }
  }

  /** A sorted list is determined by its entries. */
  lemma {:induction false} SortedUnique(p: Printer, a: seq<Entry>, b: seq<Entry>)
    requires TotalOrder(p) && Ascending(p, a) && Ascending(p, b) && forall x :: x in a <==> x in b
    ensures a == b
  {
    assert b != [] ==> b[0] in a;
    assert a != [] ==> a[0] in b;
    if a != [] {
      HeadsEqual(p, a, b);
      forall x ensures x in a[1..] <==> x in b[1..] {
        TailMember(p, a, x);
        TailMember(p, b, x);
      }
      SortedUnique(p, a[1..], b[1..]);
      assert a == [a[0]] + a[1..] && b == [b[0]] + b[1..];
    }
  }

  lemma HeadsEqual(p: Printer, a: seq<Entry>, b: seq<Entry>)
    requires TotalOrder(p) && a != [] && b != [] && Ascending(p, a) && Ascending(p, b) && forall x :: x in a <==> x in b
    ensures a[0] == b[0]
  {
    assert a[0] in b && b[0] in a;
    var i :| 0 <= i < |b| && b[i] == a[0];
    var j :| 0 <= j < |a| && a[j] == b[0];
    assert i > 0 ==> p.less(b[0].key, b[i].key);
    assert j > 0 ==> p.less(a[0].key, a[j].key);
  }

  lemma TailMember(p: Printer, a: seq<Entry>, x: Entry)
    requires TotalOrder(p) && a != [] && Ascending(p, a)
    ensures x in a[1..] <==> x in a && x != a[0]
  {
    if x in a[1..] {
      var k :| 0 <= k < |a[1..]| && a[1..][k] == x;
      assert a[k + 1] == x && p.less(a[0].key, a[k + 1].key);
    }
    if x in a && x != a[0] {
      var k :| 0 <= k < |a| && a[k] == x;
      assert a[1..][k - 1] == x;
    }
  }

  /** The same map listed in two orders. */
  ghost predicate Reordered(a: seq<Entry>, b: seq<Entry>) {
    UniqueKeys(a) && UniqueKeys(b) && forall x :: x in a <==> x in b
  }

  lemma {:induction false} CanonEntriesAt(p: Printer, es: seq<Entry>)
    ensures |CanonEntries(p, es)| == |es|
    ensures forall k :: 0 <= k < |es| ==> CanonEntries(p, es)[k] == Entry(es[k].key, Canon(p, es[k].value))
  {
    if es != [] {
      CanonEntriesAt(p, es[1..]);
    }
  }

  lemma CanonIn(p: Printer, a: seq<Entry>, b: seq<Entry>, x: Entry)
    requires (forall e :: e in a ==> e in b) && x in CanonEntries(p, a)
    ensures x in CanonEntries(p, b)
  {
    CanonEntriesAt(p, a);
    CanonEntriesAt(p, b);
    var i :| 0 <= i < |a| && CanonEntries(p, a)[i] == x;
    assert a[i] in b;
    var k :| 0 <= k < |b| && b[k] == a[i];
    assert CanonEntries(p, b)[k] == x;
  }

  /** The order in which a map lists its entries does not show in the canonical text. */
  lemma OrderHidden(p: Printer, a: seq<Entry>, b: seq<Entry>)
    requires TotalOrder(p) && Reordered(a, b)
    ensures Text(p, Object(a)) == Text(p, Object(b))
  {
    CanonEntriesAt(p, a);
    CanonEntriesAt(p, b);
    var ca, cb := CanonEntries(p, a), CanonEntries(p, b);
    SortSorted(p, ca);
    SortSorted(p, cb);
    forall x ensures x in Sort(p, ca) <==> x in Sort(p, cb) {
      if x in ca { CanonIn(p, a, b, x); }
      if x in cb { CanonIn(p, b, a, x); }
    }
    SortedUnique(p, Sort(p, ca), Sort(p, cb));
  }

  /** Equal canonical texts come from terms that are equal once their keys are sorted, and no others. */
  lemma TextsEqual(p: Printer, t: Term, u: Term)
    requires Delimited(p)
    ensures Text(p, t) == Text(p, u) <==> Canon(p, t) == Canon(p, u)
  {
    if Text(p, t) == Text(p, u) {
      assert Text(p, t) + "" == Text(p, t) && Text(p, u) + "" == Text(p, u);
      PrintOnce(p, Canon(p, t), Canon(p, u), "", "");
    }
  }
}
