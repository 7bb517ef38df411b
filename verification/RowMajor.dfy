/** Row-major linear indices: a bijection between the coordinates inside a shape and the numbers below
    its size. */
module RowMajor {

  function Product(sizes: seq<nat>): nat {
    if sizes == [] then 1 else sizes[0] * Product(sizes[1..])
  }

  predicate InRange(c: seq<nat>, sizes: seq<nat>) {
    |c| == |sizes| && forall j :: 0 <= j < |c| ==> c[j] < sizes[j]
  }

  function Linear(c: seq<nat>, sizes: seq<nat>): nat
    requires |c| == |sizes|
  {
    if c == [] then 0 else c[0] * Product(sizes[1..]) + Linear(c[1..], sizes[1..])
  }

  function Unlinear(l: nat, sizes: seq<nat>): (c: seq<nat>)
    ensures |c| == |sizes|
  {
    if sizes == [] then []
    else
      var p := Product(sizes[1..]);
      if p == 0 then [0] + Unlinear(0, sizes[1..]) else [l / p] + Unlinear(l % p, sizes[1..])
  }

  lemma MulLess(a: nat, b: nat, p: nat, r: nat)
    requires a < b && r < p
    ensures a * p + r < b * p
  {
    assert (a + 1) * p <= b * p;
  }

  lemma {:induction false} LinearBound(c: seq<nat>, sizes: seq<nat>)
    requires InRange(c, sizes)
    ensures Linear(c, sizes) < Product(sizes)
  {
    if c != [] {
      LinearBound(c[1..], sizes[1..]);
      MulLess(c[0], sizes[0], Product(sizes[1..]), Linear(c[1..], sizes[1..]));
    }
  }

  /** Quotient and remainder are determined. */
  lemma Quotient(q: int, s: int, p: nat, r: nat, t: nat)
    requires q * p + r == s * p + t && r < p && t < p
    ensures q == s && r == t
  {
    assert q < s ==> (q + 1) * p <= s * p;
    assert s < q ==> (s + 1) * p <= q * p;
  }

  lemma DivMod(q: nat, p: nat, r: nat)
    requires r < p
    ensures (q * p + r) / p == q && (q * p + r) % p == r
  {
    var n := q * p + r;
    assert n == (n / p) * p + n % p;
    Quotient(q, n / p, p, r, n % p);
  }

  lemma DivBound(l: nat, n: nat, p: nat)
    requires p > 0 && l < n * p
    ensures l / p < n && l % p < p && l == (l / p) * p + l % p
  {
    var q := l / p;
    assert l == q * p + l % p;
    assert q >= n ==> q * p >= n * p;
  }

  /** Coordinates to index and back. */
  lemma {:induction false} RoundTrip(c: seq<nat>, sizes: seq<nat>)
    requires InRange(c, sizes)
    ensures Unlinear(Linear(c, sizes), sizes) == c
  {
    if c != [] {
      RoundTrip(c[1..], sizes[1..]);
      LinearBound(c[1..], sizes[1..]);
      DivMod(c[0], Product(sizes[1..]), Linear(c[1..], sizes[1..]));
      assert c == [c[0]] + c[1..];
    }
  }

  /** Index to coordinates and back. */
  lemma {:induction false} IndexRoundTrip(l: nat, sizes: seq<nat>)
    requires l < Product(sizes)
    ensures InRange(Unlinear(l, sizes), sizes) && Linear(Unlinear(l, sizes), sizes) == l
  {
    if sizes != [] {
      var p := Product(sizes[1..]);
      assert p > 0;
      DivBound(l, sizes[0], p);
      IndexRoundTrip(l % p, sizes[1..]);
      var q, rest := l / p, Unlinear(l % p, sizes[1..]);
      Cons(q, rest, sizes);
    }
  }

  lemma Cons(q: nat, rest: seq<nat>, sizes: seq<nat>)
    requires sizes != [] && q < sizes[0] && InRange(rest, sizes[1..])
    ensures InRange([q] + rest, sizes)
    ensures Linear([q] + rest, sizes) == q * Product(sizes[1..]) + Linear(rest, sizes[1..])
  {
    var c := [q] + rest;
    assert c[1..] == rest;
    forall j | 0 <= j < |c| ensures c[j] < sizes[j] {
      if j > 0 { assert rest[j - 1] < sizes[1..][j - 1]; }
    }
  }

  /** Different coordinates have different indices. */
  lemma Injective(c: seq<nat>, d: seq<nat>, sizes: seq<nat>)
    requires InRange(c, sizes) && InRange(d, sizes) && Linear(c, sizes) == Linear(d, sizes)
    ensures c == d
  {
    RoundTrip(c, sizes);
    RoundTrip(d, sizes);
  }

  lemma {:induction false} ProductConcat(a: seq<nat>, b: seq<nat>)
    ensures Product(a + b) == Product(a) * Product(b)
  {
    if a == [] {
      assert a + b == b;
    } else {
      assert (a + b)[1..] == a[1..] + b;
      ProductConcat(a[1..], b);
      assert a[0] * (Product(a[1..]) * Product(b)) == (a[0] * Product(a[1..])) * Product(b);
    }
  }

  lemma Distribute(q: nat, x: nat, y: nat, p: nat)
    ensures q * (x * p) + y * p == (q * x + y) * p
  {
    assert q * (x * p) == (q * x) * p;
  }

  /** Collapsing the leading axes into one leaves every index as it is. */
  lemma {:induction false} LinearConcat(c: seq<nat>, d: seq<nat>, a: seq<nat>, b: seq<nat>)
    requires |c| == |a| && |d| == |b|
    ensures Linear(c + d, a + b) == Linear(c, a) * Product(b) + Linear(d, b)
  {
    if c == [] {
      assert c + d == d && a + b == b;
    } else {
      assert (c + d)[1..] == c[1..] + d && (a + b)[1..] == a[1..] + b;
      LinearConcat(c[1..], d, a[1..], b);
      ProductConcat(a[1..], b);
      Distribute(c[0], Product(a[1..]), Linear(c[1..], a[1..]), Product(b));
    }
  }

  // -- as the worker computes them ---------------------------------------------------------------

  /** Strides from the last axis to the first. */
  method Strides(sizes: seq<nat>) returns (strides: seq<nat>)
    ensures |strides| == |sizes| && forall j :: 0 <= j < |sizes| ==> strides[j] == Product(sizes[j + 1..])
  {
    strides := seq(|sizes|, _ => 0);
    var acc, j := 1, |sizes|;
    assert sizes[|sizes|..] == [];
    while j > 0
      invariant 0 <= j <= |sizes| && |strides| == |sizes| && acc == Product(sizes[j..])
      invariant forall i :: j <= i < |sizes| ==> strides[i] == Product(sizes[i + 1..])
    {
      j := j - 1;
      strides := strides[j := acc];
      assert sizes[j..][1..] == sizes[j + 1..];
      acc := acc * sizes[j];
    }
  }

  /** The part of an index that the axes from j on make. */
  lemma LinearFrom(c: seq<nat>, sizes: seq<nat>, j: nat)
    requires |c| == |sizes| && j < |c|
    ensures Linear(c[j..], sizes[j..]) == c[j] * Product(sizes[j + 1..]) + Linear(c[j + 1..], sizes[j + 1..])
  {
    assert c[j..][1..] == c[j + 1..] && sizes[j..][1..] == sizes[j + 1..];
  }

  /** The sum that the first j axes make. */
  function Partial(c: seq<nat>, sizes: seq<nat>, j: nat): nat
    requires j <= |c| == |sizes|
  {
    if j == 0 then 0 else Partial(c, sizes, j - 1) + c[j - 1] * Product(sizes[j..])
  }

  lemma {:induction false} PartialLinear(c: seq<nat>, sizes: seq<nat>, j: nat)
    requires j <= |c| == |sizes|
    ensures Partial(c, sizes, j) + Linear(c[j..], sizes[j..]) == Linear(c, sizes)
  {
    if j == 0 {
      assert c[0..] == c && sizes[0..] == sizes;
    } else {
      PartialLinear(c, sizes, j - 1);
      LinearFrom(c, sizes, j - 1);
    }
  }

  /** One index from one coordinate row: the sum of coordinate times stride, axis by axis.  The first
      axis starts the sum. */
  method Linearise(c: seq<nat>, sizes: seq<nat>, strides: seq<nat>) returns (lin: nat)
    requires |c| == |sizes| == |strides| && c != []
    requires forall j :: 0 <= j < |sizes| ==> strides[j] == Product(sizes[j + 1..])
    ensures lin == Linear(c, sizes)
  {
    lin := c[0] * strides[0];
    assert Partial(c, sizes, 0) == 0;
    for j := 1 to |c|
      invariant lin == Partial(c, sizes, j)
    {
      lin := lin + c[j] * strides[j];
    }
    PartialLinear(c, sizes, |c|);
    assert c[|c|..] == [];
  }

  const INT32_MAX: nat := 0x7fff_ffff

  /** If a shape has at most 2^31 cells, in-range coordinates are linearised within 32 bits: every
      product and every partial sum fits. */
  lemma FitsInt32(c: seq<nat>, sizes: seq<nat>, j: nat)
    requires InRange(c, sizes) && Product(sizes) <= INT32_MAX + 1 && j <= |c|
    ensures Partial(c, sizes, j) <= Linear(c, sizes) <= INT32_MAX
    ensures j < |c| ==> c[j] * Product(sizes[j + 1..]) <= INT32_MAX
  {
    LinearBound(c, sizes);
    PartialLinear(c, sizes, j);
    if j < |c| {
      PartialLinear(c, sizes, j + 1);
    }
  }
}
