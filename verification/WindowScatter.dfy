/** Select and scatter, the backward pass of pooling: each window of the padded operand gives its source
    value to its last extreme cell. */
module WindowScatter {
  import opened RowMajor
  import opened Coordinates

  /** A padded operand's cell: a number, or the padding's identity, which loses to every number. */
  datatype Cell = Number(x: real) | Identity

  datatype Extreme = Largest | Smallest

  /** At least as extreme. */
  predicate Beats(op: Extreme, a: Cell, b: Cell) {
    b.Identity? || (a.Number? && if op.Largest? then a.x >= b.x else a.x <= b.x)
  }

  // -- where windows are -----------------------------------------------------------------

  predicate Geometry(shape: seq<nat>, window: seq<nat>, strides: seq<nat>) {
    && shape != [] && |shape| == |window| == |strides|
    && forall a :: 0 <= a < |shape| ==> 1 <= window[a] <= shape[a] && strides[a] >= 1
  }

  /** How many windows fit along each axis. */
  function OutDims(shape: seq<nat>, window: seq<nat>, strides: seq<nat>): (r: seq<nat>)
    requires Geometry(shape, window, strides)
    ensures |r| == |shape| && forall a :: 0 <= a < |r| ==> r[a] == (shape[a] - window[a]) / strides[a] + 1
  {
    seq(|shape|, a requires 0 <= a < |shape| => (shape[a] - window[a]) / strides[a] + 1)
  }

  /** The coordinates of a window's cell: window coordinate times stride, plus offset. */
  function At(o: seq<nat>, w: seq<nat>, strides: seq<nat>): (c: seq<nat>)
    requires |o| == |w| == |strides|
    ensures |c| == |o| && forall a :: 0 <= a < |c| ==> c[a] == o[a] * strides[a] + w[a]
  {
    seq(|o|, a requires 0 <= a < |o| => o[a] * strides[a] + w[a])
  }

  lemma AxisFits(o: nat, w: nat, size: nat, window: nat, stride: nat)
    requires 1 <= window <= size && stride >= 1 && o < (size - window) / stride + 1 && w < window
    ensures o * stride + w < size
  {
    var q := (size - window) / stride;
    assert q * stride <= size - window by { DivTimes(size - window, stride); }
    assert o * stride <= q * stride;
  }

  lemma DivTimes(n: nat, d: nat)
    requires d >= 1
    ensures (n / d) * d <= n
  {
  }

  /** The windows are all those, and only those, that end inside the padded operand. */
  lemma WindowsFit(shape: seq<nat>, window: seq<nat>, strides: seq<nat>, o: seq<nat>)
    requires Geometry(shape, window, strides) && |o| == |shape|
    ensures InRange(o, OutDims(shape, window, strides)) <==>
        forall a :: 0 <= a < |shape| ==> o[a] * strides[a] + window[a] <= shape[a]
  {
    forall a | 0 <= a < |shape|
      ensures o[a] < OutDims(shape, window, strides)[a] <==> o[a] * strides[a] + window[a] <= shape[a]
    {
      DivExactly(shape[a] - window[a], strides[a], o[a]);
    }
  }

  lemma DivExactly(n: nat, d: nat, o: nat)
    requires d >= 1
    ensures o < n / d + 1 <==> o * d <= n
  {
    var q := n / d;
    assert q * d <= n < (q + 1) * d by { assert n == q * d + n % d; }
    if o <= q {
      assert o * d <= q * d;
    } else {
      assert o * d >= (q + 1) * d;
    }
  }

  /** Every cell of every window is inside the padded operand. */
  lemma WindowInside(shape: seq<nat>, window: seq<nat>, strides: seq<nat>, o: seq<nat>, w: seq<nat>)
    requires Geometry(shape, window, strides) && InRange(o, OutDims(shape, window, strides)) && InRange(w, window)
    ensures InRange(At(o, w, strides), shape) && Linear(At(o, w, strides), shape) < Product(shape)
  {
    forall a | 0 <= a < |shape| ensures At(o, w, strides)[a] < shape[a] {
      AxisFits(o[a], w[a], shape[a], window[a], strides[a]);
    }
    LinearBound(At(o, w, strides), shape);
  }

  /** The linear index of cell k of window i, both counted in row-major order. */
  function CellIndex(shape: seq<nat>, window: seq<nat>, strides: seq<nat>, i: nat, k: nat): nat
    requires Geometry(shape, window, strides)
  {
    Linear(At(Unlinear(i, OutDims(shape, window, strides)), Unlinear(k, window), strides), shape)
  }

  lemma IndexInside(shape: seq<nat>, window: seq<nat>, strides: seq<nat>, i: nat, k: nat)
    requires Geometry(shape, window, strides) && i < Product(OutDims(shape, window, strides)) && k < Product(window)
    ensures CellIndex(shape, window, strides, i, k) < Product(shape)
  {
    IndexRoundTrip(i, OutDims(shape, window, strides));
    IndexRoundTrip(k, window);
    WindowInside(shape, window, strides, Unlinear(i, OutDims(shape, window, strides)), Unlinear(k, window));
  }

  /** The indices of one window's cells, as sums of coordinate times stride. */
  method WindowIndices(shape: seq<nat>, window: seq<nat>, strides: seq<nat>, i: nat) returns (lin: seq<nat>)
    requires Geometry(shape, window, strides) && i < Product(OutDims(shape, window, strides))
    ensures |lin| == Product(window)
    ensures forall k :: 0 <= k < |lin| ==> lin[k] == CellIndex(shape, window, strides, i, k) < Product(shape)
  {
    var pstrides := Strides(shape);
    var o := Unlinear(i, OutDims(shape, window, strides));
    lin := [];
    for k := 0 to Product(window)
      invariant |lin| == k && forall j :: 0 <= j < k ==>
          lin[j] == CellIndex(shape, window, strides, i, j) < Product(shape)
    {
      var l := Linearise(At(o, Unlinear(k, window), strides), shape, pstrides);
      IndexInside(shape, window, strides, i, k);
      lin := lin + [l];
    }
  }

  // -- which cell a window chooses -----------------------------------------------------------

  function Best(op: Extreme, vals: seq<Cell>): (b: Cell)
    requires vals != []
    ensures b in vals
  {
    if |vals| == 1 then vals[0]
    else
      var before := Best(op, vals[..|vals| - 1]);
      if Beats(op, before, vals[|vals| - 1]) then before else vals[|vals| - 1]
  }

  lemma {:induction false} BestBeats(op: Extreme, vals: seq<Cell>, k: nat)
    requires k < |vals|
    ensures Beats(op, Best(op, vals), vals[k])
  {
    if |vals| > 1 {
      var init := vals[..|vals| - 1];
      if k < |vals| - 1 {
        BestBeats(op, init, k);
      }
    }
  }

  /** The largest position that holds the value, or -1. */
  function LastOf(vals: seq<Cell>, b: Cell): (k: int)
    ensures -1 <= k < |vals|
    ensures b in vals ==> k >= 0
    ensures k >= 0 ==> vals[k] == b
    ensures forall j :: k < j < |vals| ==> vals[j] != b
  {
    if vals == [] then -1
    else if vals[|vals| - 1] == b then |vals| - 1
    else
      assert vals == vals[..|vals| - 1] + [vals[|vals| - 1]];
      LastOf(vals[..|vals| - 1], b)
  }

  function Chosen(op: Extreme, vals: seq<Cell>): (k: nat)
    requires vals != []
    ensures k < |vals|
  {
    LastOf(vals, Best(op, vals))
  }

  /** The chosen cell is at least as extreme as every cell of the window, and strictly more than every
      later one; no other position has both properties. */
  lemma ChosenLast(op: Extreme, vals: seq<Cell>, k: nat)
    requires vals != [] && k < |vals|
    ensures k == Chosen(op, vals) <==>
        (forall j :: 0 <= j < |vals| ==> Beats(op, vals[k], vals[j])) && forall j :: k < j < |vals| ==>
        !Beats(op, vals[j], vals[k])
  {
    var c, b := Chosen(op, vals), Best(op, vals);
    forall j | 0 <= j < |vals| ensures Beats(op, b, vals[j]) {
      BestBeats(op, vals, j);
    }
    if (forall j :: 0 <= j < |vals| ==> Beats(op, vals[k], vals[j])) && forall j :: k < j < |vals| ==>
        !Beats(op, vals[j], vals[k]) {
      assert Beats(op, vals[k], vals[c]) && Beats(op, vals[c], vals[k]);
      assert vals[k] == vals[c];
    }
  }

  /** What is chosen: the last of the largest numbers, or of the smallest; and where there is only padding,
      the last cell. */
  lemma ChosenExtreme(op: Extreme, vals: seq<Cell>)
    requires vals != []
    ensures var k := Chosen(op, vals);
            && (vals[k].Identity? ==> k == |vals| - 1 && forall j :: 0 <= j < |vals| ==> vals[j].Identity?)
            && (vals[k].Number? ==> forall j :: 0 <= j < |vals| && vals[j].Number? ==>
                  match op
                  case Largest => vals[j].x <= vals[k].x && (j > k ==> vals[j].x < vals[k].x)
                  case Smallest => vals[j].x >= vals[k].x && (j > k ==> vals[j].x > vals[k].x))
  {
    ChosenLast(op, vals, Chosen(op, vals));
  }

  /** A window that holds any real cell never chooses padding. */
  lemma PaddingLoses(op: Extreme, vals: seq<Cell>, k: nat)
    requires k < |vals| && vals[k].Number?
    ensures vals[Chosen(op, vals)].Number?
  {
    BestBeats(op, vals, k);
  }

  // -- the scatter -------------------------------------------------------------------------------

  /** What the first n cells of window i, masked to the chosen one, put into a cell. */
  function Contribution(lin: seq<nat>, chosen: nat, source: real, cell: nat, n: nat): real
    requires n <= |lin|
  {
    if n == 0 then 0.0
    else Contribution(lin, chosen, source, cell, n - 1) + if lin[n - 1] == cell
        then (if n - 1 == chosen then 1.0 else 0.0) * source else 0.0
  }

  lemma {:induction false} OneHot(lin: seq<nat>, chosen: nat, source: real, cell: nat, n: nat)
    requires n <= |lin| && chosen < |lin|
    ensures Contribution(lin, chosen, source, cell, n) == if chosen < n && lin[chosen] == cell then source else 0.0
  {
    if n > 0 {
      OneHot(lin, chosen, source, cell, n - 1);
    }
  }

  /** The flat result before `init` is added: every window's masked contributions, summed by index. */
  function Scattered(lins: seq<seq<nat>>, chosen: seq<nat>, source: seq<real>, cell: nat, m: nat): real
    requires m <= |lins| == |chosen| == |source|
  {
    if m == 0 then 0.0
    else Scattered(lins, chosen, source, cell, m - 1) + Contribution(lins[m - 1], chosen[m - 1], source[m - 1], cell,
        |lins[m - 1]|)
  }

  predicate AllChosen(lins: seq<seq<nat>>, chosen: seq<nat>, targets: seq<nat>) {
    && |lins| == |chosen| == |targets|
    && forall i :: 0 <= i < |lins| ==> chosen[i] < |lins[i]| && targets[i] == lins[i][chosen[i]]
  }

  function SourceAt(source: seq<real>): (nat, seq<nat>) -> real {
    (i: nat, d: seq<nat>) => if i < |source| then source[i] else 0.0
  }

  /** Each cell holds the sum of the source values of exactly the windows that chose it. */
  lemma {:induction false} CellHolds(lins: seq<seq<nat>>, chosen: seq<nat>, targets: seq<nat>, source: seq<real>,
      cell: nat, m: nat)
    requires AllChosen(lins, chosen, targets) && m <= |lins| == |source|
    ensures Scattered(lins, chosen, source, cell, m) == Hits(targets, SourceAt(source), cell, [], m)
  {
    if m > 0 {
      CellHolds(lins, chosen, targets, source, cell, m - 1);
      OneHot(lins[m - 1], chosen[m - 1], source[m - 1], cell, |lins[m - 1]|);
    }
  }

  function Total(source: seq<real>, n: nat): real
    requires n <= |source|
  {
    if n == 0 then 0.0 else Total(source, n - 1) + source[n - 1]
  }

  function ScatteredTotal(lins: seq<seq<nat>>, chosen: seq<nat>, source: seq<real>, cells: nat): real
    requires |lins| == |chosen| == |source|
  {
    if cells == 0 then 0.0
    else
      ScatteredTotal(lins, chosen, source, cells - 1)
      + Scattered(lins, chosen, source, cells - 1, |lins|)
  }

  lemma {:induction false} TotalHits(lins: seq<seq<nat>>, chosen: seq<nat>, targets: seq<nat>, source: seq<real>,
      cells: nat)
    requires AllChosen(lins, chosen, targets) && |lins| == |source|
    ensures ScatteredTotal(lins, chosen, source, cells) == HitSum(targets, SourceAt(source), [], cells, |targets|)
  {
    if cells > 0 {
      TotalHits(lins, chosen, targets, source, cells - 1);
      CellHolds(lins, chosen, targets, source, cells - 1, |lins|);
    }
  }

  lemma {:induction false} SourceTotal(source: seq<real>, n: nat)
    requires n <= |source|
    ensures UpdateSum(SourceAt(source), [], n) == Total(source, n)
  {
    if n > 0 {
      SourceTotal(source, n - 1);
    }
  }

  /** Nothing of the source is lost or doubled, as long as every index is inside. */
  lemma ScatterConserves(lins: seq<seq<nat>>, chosen: seq<nat>, targets: seq<nat>, source: seq<real>, cells: nat)
    requires AllChosen(lins, chosen, targets) && |lins| == |source| && forall i :: 0 <= i < |targets| ==>
        targets[i] < cells
    ensures ScatteredTotal(lins, chosen, source, cells) == Total(source, |source|)
  {
    TotalHits(lins, chosen, targets, source, cells);
    EveryRowOnce(targets, SourceAt(source), [], cells, |targets|);
    SourceTotal(source, |source|);
  }

  /** The cells of a window, in order. */
  function WindowValues(padded: seq<Cell>, lin: seq<nat>): (vals: seq<Cell>)
    requires forall k :: 0 <= k < |lin| ==> lin[k] < |padded|
    ensures |vals| == |lin| && forall k :: 0 <= k < |vals| ==> vals[k] == padded[lin[k]]
  {
    seq(|lin|, k requires 0 <= k < |lin| => padded[lin[k]])
  }

  lemma {:induction false} WindowNonempty(shape: seq<nat>, window: seq<nat>, strides: seq<nat>)
    requires Geometry(shape, window, strides)
    ensures Product(window) >= 1
  {
    SomeProduct(window);
  }

  lemma {:induction false} SomeProduct(sizes: seq<nat>)
    requires forall a :: 0 <= a < |sizes| ==> sizes[a] >= 1
    ensures Product(sizes) >= 1
  {
    if sizes != [] {
      SomeProduct(sizes[1..]);
    }
  }

  lemma IsOk(op: Extreme, padded: seq<Cell>, shape: seq<nat>, window: seq<nat>, strides: seq<nat>, i: nat,
      lin: seq<nat>)
    requires Geometry(shape, window, strides) && |lin| == Product(window) >= 1
    requires forall k :: 0 <= k < |lin| ==> lin[k] == CellIndex(shape, window, strides, i, k) && lin[k] < |padded|
    ensures WindowOk(op, padded, shape, window, strides, i, lin, Chosen(op, WindowValues(padded, lin)))
  {
  }

  /** For every window, its indices, and the position it chooses; all indices are inside. */
  method SelectAll(op: Extreme, padded: seq<Cell>, shape: seq<nat>, window: seq<nat>, strides: seq<nat>)
      returns (lins: seq<seq<nat>>, chosen: seq<nat>, targets: seq<nat>)
    requires Geometry(shape, window, strides) && |padded| == Product(shape)
    ensures |lins| == Product(OutDims(shape, window, strides)) && AllChosen(lins, chosen, targets)
    ensures forall i :: 0 <= i < |targets| ==> targets[i] < Product(shape)
    ensures forall i :: 0 <= i < |lins| ==> WindowOk(op, padded, shape, window, strides, i, lins[i], chosen[i])
  {
    hide CellIndex, Chosen, OutDims, Product, WindowOk;
    lins, chosen, targets := [], [], [];
    WindowNonempty(shape, window, strides);
    for i := 0 to Product(OutDims(shape, window, strides))
      invariant |lins| == i && AllChosen(lins, chosen, targets) && forall j :: 0 <= j < i ==>
          targets[j] < Product(shape)
      invariant forall j :: 0 <= j < i ==> WindowOk(op, padded, shape, window, strides, j, lins[j], chosen[j])
    {
      var lin := WindowIndices(shape, window, strides, i);
      var k := Chosen(op, WindowValues(padded, lin));
      assert WindowOk(op, padded, shape, window, strides, i, lin,
          k) by { IsOk(op, padded, shape, window, strides, i, lin); }
      lins, chosen, targets := lins + [lin], chosen + [k], targets + [lin[k]];
    }
  }

  ghost predicate WindowOk(op: Extreme, padded: seq<Cell>, shape: seq<nat>, window: seq<nat>, strides: seq<nat>, i: nat,
      lin: seq<nat>, chosen: nat)
    requires Geometry(shape, window, strides)
  {
    && |lin| == Product(window) >= 1
    && (forall k :: 0 <= k < |lin| ==> lin[k] == CellIndex(shape, window, strides, i, k) && lin[k] < |padded|)
    && chosen == Chosen(op, WindowValues(padded, lin))
  }

  /** A window's target: the index of the cell it chooses. */
  ghost predicate IsTarget(op: Extreme, padded: seq<Cell>, shape: seq<nat>, window: seq<nat>, strides: seq<nat>, i: nat,
      target: nat)
    requires Geometry(shape, window, strides)
  {
    exists lin: seq<nat>, k: nat :: WindowOk(op, padded, shape, window, strides, i, lin, k) && k < |lin|
        && target == lin[k]
  }

  /** The flat result: cell by cell, the sum over the windows that chose it, and `init`; and over all
      cells, the scattered total is the source total. */
  method Scatter(op: Extreme, padded: seq<Cell>, shape: seq<nat>, window: seq<nat>, strides: seq<nat>,
      source: seq<real>, init: real) returns (out: seq<real>, targets: seq<nat>)
    requires Geometry(shape, window, strides) && |padded| == Product(shape)
    requires |source| == Product(OutDims(shape, window, strides))
    ensures |out| == Product(shape) && |targets| == |source|
    ensures forall i :: 0 <= i < |targets| ==> IsTarget(op, padded, shape, window, strides, i, targets[i])
    ensures forall cell :: 0 <= cell < |out| ==>
        out[cell] == Hits(targets, SourceAt(source), cell, [], |targets|) + init
    ensures HitSum(targets, SourceAt(source), [], |out|, |targets|) == Total(source, |source|)
  {
    hide WindowOk, Product, OutDims, Hits, HitSum, Scattered, Total, Geometry, SourceAt;
    var lins, chosen;
    lins, chosen, targets := SelectAll(op, padded, shape, window, strides);
    out := [];
    for cell := 0 to Product(shape)
      invariant |out| == cell && forall c :: 0 <= c < cell ==>
          out[c] == Hits(targets, SourceAt(source), c, [], |targets|) + init
    {
      CellHolds(lins, chosen, targets, source, cell, |lins|);
      out := out + [Scattered(lins, chosen, source, cell, |lins|) + init];
    }
    EveryRowOnce(targets, SourceAt(source), [], Product(shape), |targets|);
    SourceTotal(source, |source|);
    forall i | 0 <= i < |targets| ensures IsTarget(op, padded, shape, window, strides, i, targets[i]) {
      assert WindowOk(op, padded, shape, window, strides, i, lins[i], chosen[i]);
    }
  }
}
