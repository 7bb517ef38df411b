/** Coordinate gather and indexed scatter: indexed axes moved to the front, collapsed into one, used by
    linear index, and moved back. */
module Coordinates {
  import opened RowMajor

  /** A tensor by coordinates. */
  datatype Cells = Cells(shape: seq<nat>, at: seq<nat> -> real)

  // -- permutations ------------------------------------------------------------------------

  /** Every axis once. */
  predicate IsPermutation(perm: seq<nat>) {
    (forall i :: 0 <= i < |perm| ==> perm[i] < |perm|) && forall i, j :: 0 <= i < j < |perm| ==> perm[i] != perm[j]
  }

  /** Position i of the result comes from position perm[i]. */
  function Permuted<T>(perm: seq<nat>, s: seq<T>): (r: seq<T>)
    requires IsPermutation(perm) && |s| == |perm|
    ensures |r| == |s| && forall i :: 0 <= i < |r| ==> r[i] == s[perm[i]]
  {
    seq(|perm|, i requires 0 <= i < |perm| => s[perm[i]])
  }

  /** The inverse, filled in position by position. */
  method Inverse(perm: seq<nat>) returns (inverse: seq<nat>)
    requires IsPermutation(perm)
    ensures |inverse| == |perm| && forall i :: 0 <= i < |perm| ==> inverse[perm[i]] == i
  {
    inverse := seq(|perm|, _ => 0);
    for i := 0 to |perm|
      invariant |inverse| == |perm| && forall k :: 0 <= k < i ==> inverse[perm[k]] == k
    {
      inverse := inverse[perm[i] := i];
    }
  }

  ghost predicate Inverts(inverse: seq<nat>, perm: seq<nat>) {
    |inverse| == |perm| && IsPermutation(perm) && forall i :: 0 <= i < |perm| ==> inverse[perm[i]] == i
  }

  function Below(n: nat): (s: set<nat>)
    ensures |s| == n && forall i: nat :: i in s <==> i < n
  {
    if n == 0 then {} else Below(n - 1) + {n - 1}
  }

  function Members(s: seq<nat>): (m: set<nat>)
    ensures forall x :: x in m <==> x in s
  {
    if s == [] then {}
    else
      assert s == s[..|s| - 1] + [s[|s| - 1]];
      Members(s[..|s| - 1]) + {s[|s| - 1]}
  }

  lemma {:induction false} MembersSize(s: seq<nat>)
    requires forall i, j :: 0 <= i < j < |s| ==> s[i] != s[j]
    ensures |Members(s)| == |s|
  {
    if s != [] {
      MembersSize(s[..|s| - 1]);
    }
  }

  /** Numbers below n, all different, n of them: each number is one of them. */
  lemma AllReached(perm: seq<nat>, x: nat)
    requires IsPermutation(perm) && x < |perm|
    ensures x in perm
  {
    var reached, all := Members(perm), Below(|perm|);
    MembersSize(perm);
    assert all == reached + (all - reached);
    assert |all - reached| == 0;
  }

  /** The inverse is a permutation, and undoes it both ways. */
  lemma InverseUndoes<T>(inverse: seq<nat>, perm: seq<nat>, s: seq<T>)
    requires Inverts(inverse, perm) && |s| == |perm|
    ensures IsPermutation(inverse) && Permuted(inverse, Permuted(perm, s)) == s
    ensures Permuted(perm, Permuted(inverse, s)) == s
  {
    forall x | 0 <= x < |perm| ensures inverse[x] < |perm| && perm[inverse[x]] == x {
      AllReached(perm, x);
      var i :| 0 <= i < |perm| && perm[i] == x;
      assert inverse[perm[i]] == i;
    }
    forall x, y | 0 <= x < y < |perm| ensures inverse[x] != inverse[y] {
      assert perm[inverse[x]] == x && perm[inverse[y]] == y;
    }
  }

  /** Axes in a new order. */
  function Permute(t: Cells, perm: seq<nat>, inverse: seq<nat>): (r: Cells)
    requires IsPermutation(perm) && |perm| == |t.shape| && IsPermutation(inverse) && |inverse| == |perm|
    ensures r.shape == Permuted(perm, t.shape)
  {
    Cells(Permuted(perm, t.shape), c => if |c| == |inverse| then t.at(Permuted(inverse, c)) else 0.0)
  }

  // -- reshape -------------------------------------------------------------------------------

  /** The same cells, in row-major order, under another shape of the same size. */
  function Reshape(t: Cells, shape: seq<nat>): (r: Cells)
    ensures r.shape == shape
  {
    Cells(shape, c => if |c| == |shape| then t.at(Unlinear(Linear(c, shape), t.shape)) else 0.0)
  }

  lemma SameIndex(a: seq<nat>, b: seq<nat>, c: seq<nat>, d: seq<nat>)
    requires |c| == |a| && |d| == |b|
    ensures Linear([Linear(c, a)] + d, [Product(a)] + b) == Linear(c + d, a + b)
  {
    LinearConcat(c, d, a, b);
    var x, y := [Linear(c, a)] + d, [Product(a)] + b;
    assert x[1..] == d && y[1..] == b;
  }

  /** Collapsing leading axes: the collapsed coordinate is their linear index. */
  lemma Collapse(t: Cells, a: seq<nat>, b: seq<nat>, c: seq<nat>, d: seq<nat>)
    requires t.shape == a + b && InRange(c, a) && InRange(d, b)
    ensures Reshape(t, [Product(a)] + b).at([Linear(c, a)] + d) == t.at(c + d)
  {
    hide Linear, Unlinear, Product;
    SameIndex(a, b, c, d);
    RoundTrip(c + d, a + b);
  }

  /** Splitting the collapsed axis again. */
  lemma Split(t: Cells, a: seq<nat>, b: seq<nat>, c: seq<nat>, d: seq<nat>)
    requires t.shape == [Product(a)] + b && InRange(c, a) && InRange(d, b)
    ensures Reshape(t, a + b).at(c + d) == t.at([Linear(c, a)] + d)
  {
    hide Linear, Unlinear, Product;
    SameIndex(a, b, c, d);
    LinearBound(c, a);
    assert InRange([Linear(c, a)] + d, [Product(a)] + b);
    RoundTrip([Linear(c, a)] + d, [Product(a)] + b);
  }

  // -- the indexed axes and the others -----------------------------------------------------------

  predicate AxesOk(rank: nat, axes: seq<nat>) {
    (forall i :: 0 <= i < |axes| ==> axes[i] < rank) && forall i, j :: 0 <= i < j < |axes| ==> axes[i] != axes[j]
  }

  /** The axes that are not indexed, in order. */
  function Others(rank: nat, axes: seq<nat>): (r: seq<nat>)
    ensures forall d: nat :: d in r <==> d < rank && d !in axes
    ensures forall i, j :: 0 <= i < j < |r| ==> r[i] < r[j] < rank
    ensures AxesOk(rank, r)
  {
    if rank == 0 then []
    else
      var before := Others(rank - 1, axes);
      assert forall i :: 0 <= i < |before| ==> before[i] in before;
      assert forall d: nat :: d in before + [rank - 1] <==> d in before || d == rank - 1;
      if rank - 1 in axes then before else before + [rank - 1]
  }

  /** Indexed axes first. */
  function Order(rank: nat, axes: seq<nat>): seq<nat> {
    axes + Others(rank, axes)
  }

  lemma OrderIsPermutation(rank: nat, axes: seq<nat>)
    requires AxesOk(rank, axes)
    ensures |Order(rank, axes)| == rank && IsPermutation(Order(rank, axes))
  {
    var others, perm := Others(rank, axes), Order(rank, axes);
    forall i, j | 0 <= i < j < |perm| ensures perm[i] != perm[j] {
      if i < |axes| <= j { assert perm[j] == others[j - |axes|] && perm[j] in others && perm[i] in axes; }
    }
    MembersSize(perm);
    assert Members(perm) == Below(rank);
    forall i | 0 <= i < |perm| ensures perm[i] < rank { assert perm[i] in Members(perm); }
  }

  /** The entries of a list at some axes: sizes of a shape, or coordinates of a cell. */
  function Along(c: seq<nat>, axes: seq<nat>): (r: seq<nat>)
    requires AxesOk(|c|, axes)
    ensures |r| == |axes| && forall j :: 0 <= j < |r| ==> r[j] == c[axes[j]]
  {
    seq(|axes|, j requires 0 <= j < |axes| => c[axes[j]])
  }

  lemma AlongInRange(shape: seq<nat>, axes: seq<nat>, c: seq<nat>)
    requires AxesOk(|shape|, axes) && InRange(c, shape)
    ensures InRange(Along(c, axes), Along(shape, axes))
  {
  }

  lemma OrderSplits(c: seq<nat>, axes: seq<nat>)
    requires AxesOk(|c|, axes) && IsPermutation(Order(|c|, axes)) && |Order(|c|, axes)| == |c|
    ensures Permuted(Order(|c|, axes), c) == Along(c, axes) + Along(c, Others(|c|, axes))
  {
  }

  /** The indexed axes are valid, and this is the inverse of the order. */
  ghost predicate Ready(rank: nat, axes: seq<nat>, inverse: seq<nat>) {
    && AxesOk(rank, axes) && |Order(rank, axes)| == rank == |inverse|
    && IsPermutation(Order(rank, axes)) && IsPermutation(inverse) && Inverts(inverse, Order(rank, axes))
  }

  method Prepare(rank: nat, axes: seq<nat>) returns (inverse: seq<nat>)
    requires AxesOk(rank, axes)
    ensures Ready(rank, axes, inverse)
  {
    OrderIsPermutation(rank, axes);
    inverse := Inverse(Order(rank, axes));
    InverseUndoes(inverse, Order(rank, axes), Order(rank, axes));
  }

  /** A tensor with its indexed axes in front and collapsed into one. */
  function Fronted(t: Cells, axes: seq<nat>, inverse: seq<nat>): (r: Cells)
    requires AxesOk(|t.shape|, axes) && IsPermutation(inverse) && |inverse| == |t.shape|
    requires IsPermutation(Order(|t.shape|, axes)) && |Order(|t.shape|, axes)| == |t.shape|
    ensures r.shape == [Product(Along(t.shape, axes))] + Along(t.shape, Others(|t.shape|, axes))
  {
    Reshape(Permute(t, Order(|t.shape|, axes), inverse), [Product(Along(t.shape, axes))]
        + Along(t.shape, Others(|t.shape|, axes)))
  }

  lemma PermutedAt(t: Cells, axes: seq<nat>, inverse: seq<nat>, c: seq<nat>)
    requires Ready(|t.shape|, axes, inverse) && |c| == |t.shape|
    ensures var t1 := Permute(t, Order(|t.shape|, axes), inverse);
            && t1.shape == Along(t.shape, axes) + Along(t.shape, Others(|t.shape|, axes))
            && t1.at(Along(c, axes) + Along(c, Others(|t.shape|, axes))) == t.at(c)
  {
    OrderSplits(t.shape, axes);
    OrderSplits(c, axes);
    InverseUndoes(inverse, Order(|t.shape|, axes), c);
  }

  /** Every cell is found again at the linear index of its indexed coordinates. */
  lemma FrontedAt(t: Cells, axes: seq<nat>, inverse: seq<nat>, c: seq<nat>)
    requires Ready(|t.shape|, axes, inverse) && InRange(c, t.shape)
    ensures Fronted(t, axes, inverse).at([Linear(Along(c, axes), Along(t.shape, axes))]
        + Along(c, Others(|t.shape|, axes))) == t.at(c)
  {
    hide Permute, Reshape, Linear, Product, Others, Inverts, IsPermutation;
    var others := Others(|t.shape|, axes);
    PermutedAt(t, axes, inverse, c);
    AlongInRange(t.shape, axes, c);
    AlongInRange(t.shape, others, c);
    Collapse(Permute(t, Order(|t.shape|, axes), inverse), Along(t.shape, axes), Along(t.shape, others), Along(c, axes),
        Along(c, others));
  }

  /** Splitting the collapsed axis and undoing the permutation puts every cell back. */
  lemma RestoredAt(shape: seq<nat>, axes: seq<nat>, inverse: seq<nat>, flat: Cells, c: seq<nat>)
    requires Ready(|shape|, axes, inverse) && InRange(c, shape)
    requires flat.shape == [Product(Along(shape, axes))] + Along(shape, Others(|shape|, axes))
    ensures var split := Reshape(flat, Along(shape, axes) + Along(shape, Others(|shape|, axes)));
            Permute(split, inverse, Order(|shape|, axes)).at(c) ==
                flat.at([Linear(Along(c, axes), Along(shape, axes))] + Along(c, Others(|shape|, axes)))
  {
    hide Reshape, Linear, Product, Others, Inverts, IsPermutation;
    var others := Others(|shape|, axes);
    AlongInRange(shape, axes, c);
    AlongInRange(shape, others, c);
    OrderSplits(c, axes);
    Split(flat, Along(shape, axes), Along(shape, others), Along(c, axes), Along(c, others));
  }

  // -- gather --------------------------------------------------------------------------------------

  predicate RowsInRange(idx: seq<seq<nat>>, sizes: seq<nat>) {
    forall r :: 0 <= r < |idx| ==> InRange(idx[r], sizes)
  }

  predicate RowLinear(row: seq<nat>, sizes: seq<nat>, l: nat) {
    InRange(row, sizes) && l == Linear(row, sizes) && l < Product(sizes)
  }

  /** The linear index of each coordinate row. */
  method LinearRows(idx: seq<seq<nat>>, sizes: seq<nat>) returns (lin: seq<nat>)
    requires sizes != [] && RowsInRange(idx, sizes)
    ensures |lin| == |idx| && forall r :: 0 <= r < |idx| ==> RowLinear(idx[r], sizes, lin[r])
    ensures Product(sizes) <= INT32_MAX + 1 ==> forall r :: 0 <= r < |lin| ==> lin[r] <= INT32_MAX
  {
    var strides := Strides(sizes);
    lin := [];
    for r := 0 to |idx|
      invariant |lin| == r && forall k :: 0 <= k < r ==> RowLinear(idx[k], sizes, lin[k])
    {
      var l := Linearise(idx[r], sizes, strides);
      LinearBound(idx[r], sizes);
      lin := lin + [l];
    }
  }

  /** Gather's result, as a function of a row and the coordinates along the other axes, holds the cell
      that the row and those coordinates name. */
  method Gather(t: Cells, axes: seq<nat>, idx: seq<seq<nat>>) returns (out: (nat, seq<nat>) -> real)
    requires AxesOk(|t.shape|, axes) && axes != [] && RowsInRange(idx, Along(t.shape, axes))
    ensures forall r, c :: 0 <= r < |idx| && InRange(c, t.shape) && Along(c, axes) == idx[r] ==>
        out(r, Along(c, Others(|t.shape|, axes))) == t.at(c)
  {
    hide Fronted, Linear, Product, Others, IsPermutation, Inverts;
    var inverse := Prepare(|t.shape|, axes);
    var t3 := Fronted(t, axes, inverse);
    var lin := LinearRows(idx, Along(t.shape, axes));
    out := (r: nat, d: seq<nat>) => if r < |lin| then t3.at([lin[r]] + d) else 0.0;
    forall r, c | 0 <= r < |idx| && InRange(c, t.shape) && Along(c, axes) == idx[r]
        ensures out(r, Along(c, Others(|t.shape|, axes))) == t.at(c) {
      assert RowLinear(idx[r], Along(t.shape, axes), lin[r]);
      FrontedAt(t, axes, inverse, c);
    }
  }

  // -- indexed add -----------------------------------------------------------------------------------

  /** What the first n rows add to one cell of the collapsed tensor. */
  function Hits(lin: seq<nat>, upd: (nat, seq<nat>) -> real, l: nat, d: seq<nat>, n: nat): real
    requires n <= |lin|
  {
    if n == 0 then 0.0 else Hits(lin, upd, l, d, n - 1) + if lin[n - 1] == l then upd(n - 1, d) else 0.0
  }

  /** What the rows that name a coordinate add to it. */
  function Added(idx: seq<seq<nat>>, upd: (nat, seq<nat>) -> real, x: seq<nat>, d: seq<nat>, n: nat): real
    requires n <= |idx|
  {
    if n == 0 then 0.0 else Added(idx, upd, x, d, n - 1) + if idx[n - 1] == x then upd(n - 1, d) else 0.0
  }

  /** A row hits a cell's linear index exactly when it names its coordinates. */
  lemma {:induction false} HitsAdded(idx: seq<seq<nat>>, lin: seq<nat>, sizes: seq<nat>, upd: (nat, seq<nat>) -> real,
      x: seq<nat>, d: seq<nat>, n: nat)
    requires n <= |idx| == |lin| && InRange(x, sizes) && forall r :: 0 <= r < |idx| ==> RowLinear(idx[r], sizes, lin[r])
    ensures Hits(lin, upd, Linear(x, sizes), d, n) == Added(idx, upd, x, d, n)
  {
    if n > 0 {
      HitsAdded(idx, lin, sizes, upd, x, d, n - 1);
      assert RowLinear(idx[n - 1], sizes, lin[n - 1]);
      if lin[n - 1] == Linear(x, sizes) {
        Injective(idx[n - 1], x, sizes);
      }
    }
  }

  function ScatterAdd(t: Cells, lin: seq<nat>, upd: (nat, seq<nat>) -> real): (r: Cells)
    ensures r.shape == t.shape
  {
    Cells(t.shape, c => if c == [] then 0.0 else t.at(c) + Hits(lin, upd, c[0], c[1..], |lin|))
  }

  lemma ScatterAt(t: Cells, lin: seq<nat>, upd: (nat, seq<nat>) -> real, l: nat, d: seq<nat>)
    ensures ScatterAdd(t, lin, upd).at([l] + d) == t.at([l] + d) + Hits(lin, upd, l, d, |lin|)
  {
    assert ([l] + d)[1..] == d;
  }

  /** Each cell gains the updates of exactly the rows that name it, repeated rows included; and the
      axes are back in their order.  At fixed other coordinates nothing is lost or counted twice: the
      total grows by the total of the updates. */
  method IndexedAdd(t: Cells, axes: seq<nat>, idx: seq<seq<nat>>, upd: (nat, seq<nat>) -> real) returns (out: Cells)
    requires AxesOk(|t.shape|, axes) && axes != [] && RowsInRange(idx, Along(t.shape, axes))
    ensures out.shape == t.shape
    ensures forall c :: InRange(c, t.shape) ==>
        out.at(c) == t.at(c) + Added(idx, upd, Along(c, axes), Along(c, Others(|t.shape|, axes)), |idx|)
    ensures forall back, d :: Ready(|t.shape|, axes, back) && InRange(d, Along(t.shape, Others(|t.shape|, axes))) ==>
              AxesSum(out, axes, back, d) == AxesSum(t, axes, back, d) + UpdateSum(upd, d, |idx|)
  {
    hide Fronted, Linear, Product, Others, IsPermutation, Inverts, Permute, Reshape, Hits, Added, ScatterAdd, Permuted,
        AxesSum, UpdateSum;
    var others := Others(|t.shape|, axes);
    var inverse := Prepare(|t.shape|, axes);
    var t2 := Fronted(t, axes, inverse);
    var lin := LinearRows(idx, Along(t.shape, axes));
    var flat := ScatterAdd(t2, lin, upd);
    ShapeRestored(t.shape, axes, inverse);
    var split := Reshape(flat, Along(t.shape, axes) + Along(t.shape, others));
    out := Permute(split, inverse, Order(|t.shape|, axes));
    forall c | InRange(c, t.shape) ensures out.at(c) == t.at(c)
        + Added(idx, upd, Along(c, axes), Along(c, others), |idx|) {
      RestoredAt(t.shape, axes, inverse, flat, c);
      FrontedAt(t, axes, inverse, c);
      AlongInRange(t.shape, axes, c);
      ScatterAt(t2, lin, upd, Linear(Along(c, axes), Along(t.shape, axes)), Along(c, others));
      HitsAdded(idx, lin, Along(t.shape, axes), upd, Along(c, axes), Along(c, others), |idx|);
    }
    forall back, d | Ready(|t.shape|, axes, back) && InRange(d, Along(t.shape, others))
      ensures AxesSum(out, axes, back, d) == AxesSum(t, axes, back, d) + UpdateSum(upd, d, |idx|)
    {
      AxesTotal(t, out, axes, back, idx, lin, upd, d);
    }
  }

  lemma ShapeRestored(shape: seq<nat>, axes: seq<nat>, inverse: seq<nat>)
    requires Ready(|shape|, axes, inverse)
    ensures |Along(shape, axes) + Along(shape, Others(|shape|, axes))| == |shape|
    ensures Permuted(inverse, Along(shape, axes) + Along(shape, Others(|shape|, axes))) == shape
  {
    OrderSplits(shape, axes);
    InverseUndoes(inverse, Order(|shape|, axes), shape);
  }

  // -- the total ---------------------------------------------------------------------------------------

  function UpdateSum(upd: (nat, seq<nat>) -> real, d: seq<nat>, n: nat): real {
    if n == 0 then 0.0 else UpdateSum(upd, d, n - 1) + upd(n - 1, d)
  }

  function HitSum(lin: seq<nat>, upd: (nat, seq<nat>) -> real, d: seq<nat>, cells: nat, n: nat): real
    requires n <= |lin|
  {
    if cells == 0 then 0.0 else HitSum(lin, upd, d, cells - 1, n) + Hits(lin, upd, cells - 1, d, n)
  }

  /** One more row adds its update to the cell it hits, and to no other. */
  lemma {:induction false} OneMoreRow(lin: seq<nat>, upd: (nat, seq<nat>) -> real, d: seq<nat>, cells: nat, n: nat)
    requires 0 < n <= |lin|
    ensures HitSum(lin, upd, d, cells, n) == HitSum(lin, upd, d, cells, n - 1) + if lin[n - 1] < cells
        then upd(n - 1, d) else 0.0
  {
    if cells > 0 {
      OneMoreRow(lin, upd, d, cells - 1, n);
    }
  }

  lemma {:induction false} NoRows(lin: seq<nat>, upd: (nat, seq<nat>) -> real, d: seq<nat>, cells: nat)
    ensures HitSum(lin, upd, d, cells, 0) == 0.0
  {
    if cells > 0 {
      NoRows(lin, upd, d, cells - 1);
    }
  }

  lemma {:induction false} EveryRowOnce(lin: seq<nat>, upd: (nat, seq<nat>) -> real, d: seq<nat>, cells: nat, n: nat)
    requires n <= |lin| && forall r :: 0 <= r < |lin| ==> lin[r] < cells
    ensures HitSum(lin, upd, d, cells, n) == UpdateSum(upd, d, n)
  {
    if n == 0 {
      NoRows(lin, upd, d, cells);
    } else {
      EveryRowOnce(lin, upd, d, cells, n - 1);
      OneMoreRow(lin, upd, d, cells, n);
    }
  }

  // -- the total, over every cell ------------------------------------------------------------------

  /** The cell at a linear index along the indexed axes, and at these other coordinates. */
  function CellAt(shape: seq<nat>, axes: seq<nat>, back: seq<nat>, d: seq<nat>, l: nat): seq<nat>
    requires AxesOk(|shape|, axes) && IsPermutation(back) && |back| == |shape| == |axes| + |d|
  {
    Permuted(back, Unlinear(l, Along(shape, axes)) + d)
  }

  /** The sum of the first n cells along the indexed axes, at these other coordinates. */
  function SumTo(t: Cells, axes: seq<nat>, back: seq<nat>, d: seq<nat>, n: nat): real
    requires AxesOk(|t.shape|, axes) && IsPermutation(back) && |back| == |t.shape| == |axes| + |d|
  {
    if n == 0 then 0.0 else SumTo(t, axes, back, d, n - 1) + t.at(CellAt(t.shape, axes, back, d, n - 1))
  }

  /** The sum of all of them. */
  ghost function AxesSum(t: Cells, axes: seq<nat>, back: seq<nat>, d: seq<nat>): real
    requires Ready(|t.shape|, axes, back) && |d| == |Others(|t.shape|, axes)|
  {
    SumTo(t, axes, back, d, Product(Along(t.shape, axes)))
  }

  lemma CellThere(shape: seq<nat>, axes: seq<nat>, back: seq<nat>, d: seq<nat>, l: nat)
    requires Ready(|shape|, axes, back) && InRange(d, Along(shape, Others(|shape|, axes)))
    requires l < Product(Along(shape, axes))
    ensures var c := CellAt(shape, axes, back, d, l);
            InRange(c, shape) && Along(c, axes) == Unlinear(l, Along(shape, axes))
                && Along(c, Others(|shape|, axes)) == d
  {
    hide Linear, Product;
    var sizes, others := Along(shape, axes), Others(|shape|, axes);
    IndexRoundTrip(l, sizes);
    var x := Unlinear(l, sizes);
    var c := CellAt(shape, axes, back, d, l);
    InverseUndoes(back, Order(|shape|, axes), x + d);
    OrderSplits(c, axes);
    assert Along(c, axes) + Along(c, others) == x + d;
    assert Along(c, axes) == (Along(c, axes) + Along(c, others))[..|x|]
        && Along(c, others) == (Along(c, axes) + Along(c, others))[|x|..];
    assert Along(c, axes) == x && Along(c, others) == d;
    forall k | 0 <= k < |shape| ensures c[k] < shape[k] {
      if k in axes {
        var j :| 0 <= j < |axes| && axes[j] == k;
        assert x[j] < sizes[j];
      } else {
        var j :| 0 <= j < |others| && others[j] == k;
        assert d[j] < Along(shape, others)[j];
      }
    }
  }

  lemma {:induction false} SumGrows(t: Cells, out: Cells, axes: seq<nat>, back: seq<nat>, idx: seq<seq<nat>>,
      lin: seq<nat>, upd: (nat, seq<nat>) -> real, d: seq<nat>, n: nat)
    requires Ready(|t.shape|, axes, back) && out.shape == t.shape && InRange(d, Along(t.shape, Others(|t.shape|, axes)))
    requires |lin| == |idx| && n <= Product(Along(t.shape, axes)) && forall r :: 0 <= r < |idx| ==>
        RowLinear(idx[r], Along(t.shape, axes), lin[r])
    requires forall c :: InRange(c, t.shape) ==>
        out.at(c) == t.at(c) + Added(idx, upd, Along(c, axes), Along(c, Others(|t.shape|, axes)), |idx|)
    ensures SumTo(out, axes, back, d, n) == SumTo(t, axes, back, d, n) + HitSum(lin, upd, d, n, |lin|)
  {
    hide Linear, Product, Unlinear, Added, Hits, Inverts, IsPermutation, Others, CellAt;
    if n > 0 {
      var sizes := Along(t.shape, axes);
      SumGrows(t, out, axes, back, idx, lin, upd, d, n - 1);
      CellThere(t.shape, axes, back, d, n - 1);
      IndexRoundTrip(n - 1, sizes);
      HitsAdded(idx, lin, sizes, upd, Unlinear(n - 1, sizes), d, |idx|);
    }
  }

  lemma AxesTotal(t: Cells, out: Cells, axes: seq<nat>, back: seq<nat>, idx: seq<seq<nat>>, lin: seq<nat>,
      upd: (nat, seq<nat>) -> real, d: seq<nat>)
    requires Ready(|t.shape|, axes, back) && out.shape == t.shape && InRange(d, Along(t.shape, Others(|t.shape|, axes)))
    requires |lin| == |idx| && forall r :: 0 <= r < |idx| ==> RowLinear(idx[r], Along(t.shape, axes), lin[r])
    requires forall c :: InRange(c, t.shape) ==>
        out.at(c) == t.at(c) + Added(idx, upd, Along(c, axes), Along(c, Others(|t.shape|, axes)), |idx|)
    ensures AxesSum(out, axes, back, d) == AxesSum(t, axes, back, d) + UpdateSum(upd, d, |idx|)
  {
    hide Linear, Product, Unlinear, Added, Hits, Inverts, IsPermutation, Others, CellAt, HitSum, SumTo;
    var cells := Product(Along(t.shape, axes));
    forall r | 0 <= r < |lin| ensures lin[r] < cells {
      assert RowLinear(idx[r], Along(t.shape, axes), lin[r]);
    }
    SumGrows(t, out, axes, back, idx, lin, upd, d, cells);
    EveryRowOnce(lin, upd, d, cells, |lin|);
  }
}
