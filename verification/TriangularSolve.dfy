/** Forward and back substitution over exact numbers. */
module TriangularSolve {
  import opened Values

  type Row = seq<real>
  type Matrix = seq<Row>

  datatype Transform = NoTransform | Transpose | OtherTransform

  predicate IsMatrix(a: Matrix, rows: nat, cols: nat) {
    |a| == rows && forall i :: 0 <= i < rows ==> |a[i]| == cols
  }

  function Entry(a: Matrix, transposed: bool, i: nat, j: nat): real
    requires IsMatrix(a, |a|, |a|) && i < |a| && j < |a|
  {
    if transposed then a[j][i] else a[i][j]
  }

  /** The named triangle of a matrix, and zeros elsewhere. */
  function Named(a: Matrix, lower: bool, i: nat, j: nat): real
    requires IsMatrix(a, |a|, |a|) && i < |a| && j < |a|
  {
    if (if lower then j <= i else j >= i) then a[i][j] else 0.0
  }

  /** The operator that is solved: the named triangle, transposed if asked. */
  function Operator(a: Matrix, lower: bool, transposed: bool, i: nat, j: nat): real
    requires IsMatrix(a, |a|, |a|) && i < |a| && j < |a|
  {
    if transposed then Named(a, lower, j, i) else Named(a, lower, i, j)
  }

  /** A row of the operator times a column of x, over the first n entries. */
  function RowSum(a: Matrix, lower: bool, transposed: bool, i: nat, x: Matrix, c: nat, n: nat): real
    requires IsMatrix(a, |a|, |a|) && i < |a| && n <= |a| == |x| && forall j :: 0 <= j < |x| ==> c < |x[j]|
  {
    if n == 0 then 0.0
    else RowSum(a, lower, transposed, i, x, c, n - 1) + Operator(a, lower, transposed, i, n - 1) * x[n - 1][c]
  }

  /** x solves the system. */
  ghost predicate Solves(a: Matrix, lower: bool, transposed: bool, x: Matrix, b: Matrix, cols: nat)
    requires IsMatrix(a, |a|, |a|)
  {
    && IsMatrix(x, |a|, cols) && IsMatrix(b, |a|, cols)
    && forall i, c :: 0 <= i < |a| && 0 <= c < cols ==> RowSum(a, lower, transposed, i, x, c, |a|) == b[i][c]
  }

  predicate NonzeroDiagonal(a: Matrix)
    requires IsMatrix(a, |a|, |a|)
  {
    forall i :: 0 <= i < |a| ==> a[i][i] != 0.0
  }

  // -- rows ----------------------------------------------------------------------------------

  function Minus(r: Row, k: real, x: Row): (d: Row)
    requires |r| == |x|
    ensures |d| == |r| && forall c :: 0 <= c < |d| ==> d[c] == r[c] - k * x[c]
  {
    seq(|r|, c requires 0 <= c < |r| => r[c] - k * x[c])
  }

  function Over(r: Row, k: real): (d: Row)
    requires k != 0.0
    ensures |d| == |r| && forall c :: 0 <= c < |d| ==> d[c] * k == r[c]
  {
    var d := seq(|r|, c requires 0 <= c < |r| => r[c] / k);
    assert forall c :: 0 <= c < |d| ==> d[c] * k == r[c];
    d
  }

  /** The part of a row sum over entries from m on, below n: what substitution takes away. */
  function Taken(a: Matrix, transposed: bool, i: nat, x: Matrix, c: nat, m: nat, n: nat): real
    requires IsMatrix(a, |a|, |a|) && i < |a| && m <= n <= |a| == |x| && forall j :: m <= j < n ==> c < |x[j]|
    decreases n - m
  {
    if m == n then 0.0 else Taken(a, transposed, i, x, c, m, n - 1) + Entry(a, transposed, i, n - 1) * x[n - 1][c]
  }

  /** One row: the right side less what is known, over the diagonal.  `m` and `n` bound the rows
      already solved. */
  method SolveRow(a: Matrix, transposed: bool, b: Row, x: Matrix, i: nat, m: nat, n: nat) returns (row: Row)
    requires IsMatrix(a, |a|, |a|) && NonzeroDiagonal(a) && i < |a| && m <= n <= |a| == |x|
        && forall j :: m <= j < n ==> |x[j]| == |b|
    ensures |row| == |b|
    ensures forall c :: 0 <= c < |b| ==>
        Taken(a, transposed, i, x, c, m, n) + Entry(a, transposed, i, i) * row[c] == b[c]
  {
    var acc := b;
    for j := m to n
      invariant |acc| == |b| && forall c :: 0 <= c < |b| ==> acc[c] + Taken(a, transposed, i, x, c, m, j) == b[c]
    {
      acc := Minus(acc, Entry(a, transposed, i, j), x[j]);
    }
    row := Over(acc, Entry(a, transposed, i, i));
  }

  // -- sums over the triangle --------------------------------------------------------------------

  lemma {:induction false} TakenSame(a: Matrix, transposed: bool, i: nat, x: Matrix, y: Matrix, c: nat, m: nat, n: nat)
    requires IsMatrix(a, |a|, |a|) && i < |a| && m <= n <= |a| == |x| == |y|
    requires forall j :: m <= j < n ==> c < |x[j]| && x[j] == y[j]
    ensures Taken(a, transposed, i, x, c, m, n) == Taken(a, transposed, i, y, c, m, n)
    decreases n - m
  {
    if m < n {
      TakenSame(a, transposed, i, x, y, c, m, n - 1);
    }
  }

  /** With a lower operator, a row sum is what forward substitution takes, and the diagonal. */
  lemma {:induction false} LowerSum(a: Matrix, lower: bool, transposed: bool, i: nat, x: Matrix, c: nat, n: nat)
    requires IsMatrix(a, |a|, |a|) && i < |a| == |x| && n <= |a| && (forall j :: 0 <= j < |x| ==> c < |x[j]|)
    requires lower != transposed
    ensures RowSum(a, lower, transposed, i, x, c, n) ==
            if n <= i then Taken(a, transposed, i, x, c, 0, n)
                else Taken(a, transposed, i, x, c, 0, i) + Entry(a, transposed, i, i) * x[i][c]
  {
    if n > 0 {
      LowerSum(a, lower, transposed, i, x, c, n - 1);
    }
  }

  lemma {:induction false} TakenFirst(a: Matrix, transposed: bool, i: nat, x: Matrix, c: nat, m: nat, n: nat)
    requires IsMatrix(a, |a|, |a|) && i < |a| && m < n <= |a| == |x| && forall j :: m <= j < n ==> c < |x[j]|
    ensures Taken(a, transposed, i, x, c, m, n) == Entry(a, transposed, i, m) * x[m][c]
        + Taken(a, transposed, i, x, c, m + 1, n)
    decreases n - m
  {
    if m + 1 < n {
      TakenFirst(a, transposed, i, x, c, m, n - 1);
    }
  }

  /** Below the diagonal an upper operator is zero; elsewhere it is the named triangle. */
  lemma UpperEntry(a: Matrix, lower: bool, transposed: bool, i: nat, j: nat)
    requires IsMatrix(a, |a|, |a|) && i < |a| && j < |a| && lower == transposed
    ensures Operator(a, lower, transposed, i, j) == if j < i then 0.0 else Entry(a, transposed, i, j)
  {
  }

  /** With an upper operator, it is the diagonal and what back substitution takes. */
  lemma {:induction false} UpperSum(a: Matrix, lower: bool, transposed: bool, i: nat, x: Matrix, c: nat, n: nat)
    requires IsMatrix(a, |a|, |a|) && i < |a| == |x| && n <= |a| && (forall j :: 0 <= j < |x| ==> c < |x[j]|)
    requires lower == transposed
    ensures RowSum(a, lower, transposed, i, x, c, n) ==
            if n <= i then 0.0 else Entry(a, transposed, i, i) * x[i][c] + Taken(a, transposed, i, x, c, i + 1, n)
  {
    hide Operator, Entry;
    if n > 0 {
      UpperSum(a, lower, transposed, i, x, c, n - 1);
      UpperEntry(a, lower, transposed, i, n - 1);
      if n - 1 < i {
        assert Operator(a, lower, transposed, i, n - 1) * x[n - 1][c] == 0.0;
      } else if n - 1 > i {
        assert Taken(a, transposed, i, x, c, i + 1, n)
            == Taken(a, transposed, i, x, c, i + 1, n - 1) + Entry(a, transposed, i, n - 1) * x[n - 1][c];
      }
    }
  }

  // -- the solver ----------------------------------------------------------------------------------

  /** Rows solved so far satisfy their equation in terms of rows solved before. */
  ghost predicate RowOk(a: Matrix, transposed: bool, x: Matrix, b: Matrix, cols: nat, i: nat, m: nat, n: nat)
    requires IsMatrix(a, |a|, |a|) && i < |a| && m <= n <= |a| == |x| == |b|
    requires (forall j :: m <= j < n ==> |x[j]| == cols) && |x[i]| == cols == |b[i]|
  {
    forall c :: 0 <= c < cols ==> Taken(a, transposed, i, x, c, m, n) + Entry(a, transposed, i, i) * x[i][c] == b[i][c]
  }

  /** A row that satisfies its equation in terms of the rows below it. */
  ghost predicate BackRowOk(a: Matrix, transposed: bool, x: Matrix, b: Matrix, cols: nat, i: nat)
    requires IsMatrix(a, |a|, |a|) && i < |a| == |x| == |b| && (forall j :: i <= j < |a| ==> |x[j]| == cols)
    requires |b[i]| == cols
  {
    RowOk(a, transposed, x, b, cols, i, i + 1, |a|)
  }

  /** A row's equation looks only at the row itself and at those it was solved from. */
  lemma RowKept(a: Matrix, transposed: bool, x: Matrix, y: Matrix, b: Matrix, cols: nat, k: nat, m: nat, n: nat)
    requires IsMatrix(a, |a|, |a|) && k < |a| && m <= n <= |a| && IsMatrix(x, |a|, cols) && IsMatrix(y, |a|, cols)
    requires IsMatrix(b, |a|, cols)
    requires y[k] == x[k] && (forall j :: m <= j < n ==> y[j] == x[j]) && RowOk(a, transposed, x, b, cols, k, m, n)
    ensures RowOk(a, transposed, y, b, cols, k, m, n)
  {
    hide Entry, Taken;
    forall c | 0 <= c < cols ensures Taken(a, transposed, k, y, c, m, n) + Entry(a, transposed, k, k) * y[k][c] ==
        b[k][c] {
      TakenSame(a, transposed, k, x, y, c, m, n);
    }
  }

  /** The new row's equation. */
  lemma RowAdded(a: Matrix, transposed: bool, x: Matrix, b: Matrix, cols: nat, k: nat, m: nat, n: nat, row: Row)
    requires IsMatrix(a, |a|, |a|) && k < |a| && m <= n <= |a| && IsMatrix(x, |a|, cols) && IsMatrix(b, |a|, cols)
    requires |row| == cols && (n <= k || k < m)
    requires forall c :: 0 <= c < cols ==>
        Taken(a, transposed, k, x, c, m, n) + Entry(a, transposed, k, k) * row[c] == b[k][c]
    ensures RowOk(a, transposed, x[k := row], b, cols, k, m, n)
  {
    hide Entry, Taken;
    var y := x[k := row];
    forall c | 0 <= c < cols ensures Taken(a, transposed, k, y, c, m, n) + Entry(a, transposed, k, k) * y[k][c] ==
        b[k][c] {
      TakenSame(a, transposed, k, x, y, c, m, n);
    }
  }

  method Forward(a: Matrix, transposed: bool, b: Matrix, cols: nat) returns (x: Matrix)
    requires IsMatrix(a, |a|, |a|) && NonzeroDiagonal(a) && IsMatrix(b, |a|, cols)
    ensures IsMatrix(x, |a|, cols) && forall i :: 0 <= i < |a| ==> RowOk(a, transposed, x, b, cols, i, 0, i)
  {
    hide RowOk, Taken, Entry;
    x := b;
    for i := 0 to |a|
      invariant IsMatrix(x, |a|, cols) && forall k :: 0 <= k < i ==> RowOk(a, transposed, x, b, cols, k, 0, k)
    {
      var row := SolveRow(a, transposed, b[i], x, i, 0, i);
      RowAdded(a, transposed, x, b, cols, i, 0, i, row);
      ghost var before := x;
      x := x[i := row];
      forall k | 0 <= k <= i ensures RowOk(a, transposed, x, b, cols, k, 0, k) {
        if k < i {
          RowKept(a, transposed, before, x, b, cols, k, 0, k);
        }
      }
    }
  }

  method Backward(a: Matrix, transposed: bool, b: Matrix, cols: nat) returns (x: Matrix)
    requires IsMatrix(a, |a|, |a|) && NonzeroDiagonal(a) && IsMatrix(b, |a|, cols)
    ensures IsMatrix(x, |a|, cols) && forall i :: 0 <= i < |a| ==> BackRowOk(a, transposed, x, b, cols, i)
  {
    hide RowOk, Taken, Entry;
    x := b;
    var i := |a|;
    while i > 0
      invariant 0 <= i <= |a| && IsMatrix(x, |a|, cols) && forall k :: i <= k < |a| ==>
          BackRowOk(a, transposed, x, b, cols, k)
    {
      i := i - 1;
      var row := SolveRow(a, transposed, b[i], x, i, i + 1, |a|);
      RowAdded(a, transposed, x, b, cols, i, i + 1, |a|, row);
      ghost var before := x;
      x := x[i := row];
      forall k | i <= k < |a| ensures BackRowOk(a, transposed, x, b, cols, k) {
        if k > i {
          assert BackRowOk(a, transposed, before, b, cols, k);
          RowKept(a, transposed, before, x, b, cols, k, k + 1, |a|);
        }
      }
    }
  }

  datatype SolveError = RightSide | UnknownTransform

  /** Solves with the named triangle alone, transposed if asked; a transposed lower triangle is an upper
      one.  Systems with the matrix on the right, and other transforms, are refused. */
  method Solve(a: Matrix, b: Matrix, cols: nat, leftSide: bool, lower: bool, transform: Transform)
      returns (r: Result<Matrix, SolveError>)
    requires IsMatrix(a, |a|, |a|) && NonzeroDiagonal(a) && IsMatrix(b, |a|, cols)
    ensures r.Success? <==> leftSide && !transform.OtherTransform?
    ensures r.Success? ==> Solves(a, lower, transform.Transpose?, r.value, b, cols)
  {
    if !leftSide {
      return Failure(RightSide);
    }
    if transform.OtherTransform? {
      return Failure(UnknownTransform);
    }
    var transposed := transform.Transpose?;
    var x;
    if lower != transposed {
      x := Forward(a, transposed, b, cols);
      forall i, c | 0 <= i < |a| && 0 <= c < cols ensures RowSum(a, lower, transposed, i, x, c, |a|) == b[i][c] {
        LowerSum(a, lower, transposed, i, x, c, |a|);
        assert RowOk(a, transposed, x, b, cols, i, 0, i);
      }
    } else {
      x := Backward(a, transposed, b, cols);
      forall i, c | 0 <= i < |a| && 0 <= c < cols ensures RowSum(a, lower, transposed, i, x, c, |a|) == b[i][c] {
        UpperSum(a, lower, transposed, i, x, c, |a|);
        assert BackRowOk(a, transposed, x, b, cols, i);
      }
    }
    r := Success(x);
  }
}
