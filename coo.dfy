/** `from_coo` of matting/sparse.py: the argument checks and the conversion of
    coordinate triplets (row, column, value) into canonical CSR form, sorted
    by (row, column). */
module Coo {
  import opened Sums
  import opened Sparse

  /** Triplet k sits at position (i, j). */
  predicate Match(rowIdx: seq<int>, colIdx: seq<int>, k: int, i: int, j: int)
  {
    0 <= k < |rowIdx| && k < |colIdx| && rowIdx[k] == i && colIdx[k] == j
  }

  /** Some triplet sits at position (i, j). */
  predicate InCoo(rowIdx: seq<int>, colIdx: seq<int>, i: int, j: int)
  {
    exists k :: 0 <= k < |rowIdx| && Match(rowIdx, colIdx, k, i, j)
  }

  /** The sum of the values of the triplets at position (i, j). */
  function CooSum(rowIdx: seq<int>, colIdx: seq<int>, val: seq<real>, i: int, j: int): real
  {
    Sum(0, |val|, k => if Match(rowIdx, colIdx, k, i, j) then At(val, k) else 0.0)
  }

  /** The entries of row i at columns j, j+1, ..., cols-1, in column order. */
  function CooRow(rowIdx: seq<int>, colIdx: seq<int>, val: seq<real>, i: int, j: int, cols: nat): seq<Entry>
    decreases cols - j
  {
    if j >= cols then []
    else
      var rest := CooRow(rowIdx, colIdx, val, i, j + 1, cols);
      if InCoo(rowIdx, colIdx, i, j) then [Entry(j, CooSum(rowIdx, colIdx, val, i, j))] + rest else rest
  }

  /** The coo-to-CSR conversion: row by row, the triplets ordered by column. */
  function Coo2Csr(rowIdx: seq<int>, colIdx: seq<int>, val: seq<real>, rows: nat, cols: nat): Csr
  {
    FromRows(seq(rows, i => CooRow(rowIdx, colIdx, val, i, 0, cols)), cols)
  }

  /** `from_coo`: the three checks in the source's order, then the conversion,
      whose result is handed to the `Sparse` constructor. */
  function FromCoo(rowIdx: seq<int>, colIdx: seq<int>, val: seq<real>, rows: nat, cols: nat): (r: Result<Csr>)
    ensures |rowIdx| != |colIdx| ==> r == Err(RowColMismatch)
    ensures |rowIdx| == |colIdx| && |rowIdx| != |val| ==> r == Err(RowValMismatch)
    ensures |rowIdx| == |colIdx| == |val| > rows * cols ==> r == Err(TooManyEntries)
    ensures r.Ok? <==> |rowIdx| == |colIdx| == |val| <= rows * cols
    ensures r.Ok? ==> Valid(r.value) && r.value.rows == rows && r.value.cols == cols
  {
    if |rowIdx| != |colIdx| then Err(RowColMismatch)
    else if |rowIdx| != |val| then Err(RowValMismatch)
    else if |rowIdx| > rows * cols then Err(TooManyEntries)
    else
      var M := Coo2Csr(rowIdx, colIdx, val, rows, cols);
      Coo2CsrValid(rowIdx, colIdx, val, rows, cols);
      ValidPassesConstructor(M);
      MakeSparse(M.rowPtr, M.colIdx, M.val, rows, cols)
  }

  // ---------------------------------------------------------------------------
  // The conversion is canonical

  lemma {:induction false} CooRowSorted(rowIdx: seq<int>, colIdx: seq<int>, val: seq<real>, i: int, j: int, cols: nat)
    ensures SortedFrom(CooRow(rowIdx, colIdx, val, i, j, cols), j, cols)
    decreases cols - j
  {
    if j < cols {
      CooRowSorted(rowIdx, colIdx, val, i, j + 1, cols);
    }
  }

  lemma Coo2CsrValid(rowIdx: seq<int>, colIdx: seq<int>, val: seq<real>, rows: nat, cols: nat)
    ensures Valid(Coo2Csr(rowIdx, colIdx, val, rows, cols))
  {
    var rs := seq(rows, i => CooRow(rowIdx, colIdx, val, i, 0, cols));
    forall i | 0 <= i < rows ensures SortedFrom(rs[i], 0, cols) {
      CooRowSorted(rowIdx, colIdx, val, i, 0, cols);
    }
    FromRowsValid(rs, cols);
  }

  // ---------------------------------------------------------------------------
  // Denotation

  lemma CooSumAbsent(rowIdx: seq<int>, colIdx: seq<int>, val: seq<real>, i: int, j: int)
    requires !InCoo(rowIdx, colIdx, i, j)
    ensures CooSum(rowIdx, colIdx, val, i, j) == 0.0
  {
    SumZero(0, |val|, k => if Match(rowIdx, colIdx, k, i, j) then At(val, k) else 0.0);
  }

  lemma {:induction false} CooRowGet(rowIdx: seq<int>, colIdx: seq<int>, val: seq<real>, i: int, j: int, cols: nat, c: int)
    ensures RowGet(CooRow(rowIdx, colIdx, val, i, j, cols), c)
         == if j <= c < cols then CooSum(rowIdx, colIdx, val, i, c) else 0.0
    decreases cols - j
  {
    if j < cols {
      CooRowGet(rowIdx, colIdx, val, i, j + 1, cols, c);
      var r := CooRow(rowIdx, colIdx, val, i, j, cols);
      if InCoo(rowIdx, colIdx, i, j) {
        assert r[1..] == CooRow(rowIdx, colIdx, val, i, j + 1, cols);
      } else if c == j {
        CooSumAbsent(rowIdx, colIdx, val, i, j);
      }
    }
  }

  /** The dense denotation of `from_coo`'s result: at each in-range position
      the sum of the values of the triplets there, zero elsewhere. */
  lemma FromCooGet(rowIdx: seq<int>, colIdx: seq<int>, val: seq<real>, rows: nat, cols: nat)
    requires FromCoo(rowIdx, colIdx, val, rows, cols).Ok?
    ensures forall i, j ::
      Get(FromCoo(rowIdx, colIdx, val, rows, cols).value, i, j)
        == (if 0 <= i < rows && 0 <= j < cols then CooSum(rowIdx, colIdx, val, i, j) else 0.0)
  {
    var rs := seq(rows, i => CooRow(rowIdx, colIdx, val, i, 0, cols));
    FromRowsGet(rs, cols);
    forall i, j ensures Get(Coo2Csr(rowIdx, colIdx, val, rows, cols), i, j)
      == if 0 <= i < rows && 0 <= j < cols then CooSum(rowIdx, colIdx, val, i, j) else 0.0
    {
      if 0 <= i < rows {
        CooRowGet(rowIdx, colIdx, val, i, 0, cols, j);
      }
    }
  }

  /** No two triplets share a position (what the source's callers guarantee). */
  predicate Distinct(rowIdx: seq<int>, colIdx: seq<int>)
  {
    forall k, k' :: 0 <= k < k' < |rowIdx| && k' < |colIdx| ==>
      rowIdx[k] != rowIdx[k'] || colIdx[k] != colIdx[k']
  }

  /** With distinct positions, every in-range triplet's value is found at its position. */
  lemma FromCooAt(rowIdx: seq<int>, colIdx: seq<int>, val: seq<real>, rows: nat, cols: nat, k: int)
    requires FromCoo(rowIdx, colIdx, val, rows, cols).Ok? && Distinct(rowIdx, colIdx)
    requires 0 <= k < |rowIdx| && 0 <= rowIdx[k] < rows && 0 <= colIdx[k] < cols
    ensures Get(FromCoo(rowIdx, colIdx, val, rows, cols).value, rowIdx[k], colIdx[k]) == val[k]
  {
    FromCooGet(rowIdx, colIdx, val, rows, cols);
    var i, j := rowIdx[k], colIdx[k];
    SumPoint(0, |val|, k' => if Match(rowIdx, colIdx, k', i, j) then At(val, k') else 0.0, k);
  }

  /** The pattern of `from_coo`'s result is the set of in-range triplet positions. */
  lemma {:induction false} CooRowCols(rowIdx: seq<int>, colIdx: seq<int>, val: seq<real>, i: int, j: int, cols: nat)
    ensures forall c :: c in ColSet(CooRow(rowIdx, colIdx, val, i, j, cols))
                    <==> j <= c < cols && InCoo(rowIdx, colIdx, i, c)
    decreases cols - j
  {
    if j < cols {
      CooRowCols(rowIdx, colIdx, val, i, j + 1, cols);
      var r := CooRow(rowIdx, colIdx, val, i, j, cols);
      if InCoo(rowIdx, colIdx, i, j) {
        assert r[1..] == CooRow(rowIdx, colIdx, val, i, j + 1, cols);
      }
    }
  }

  lemma FromCooPattern(rowIdx: seq<int>, colIdx: seq<int>, val: seq<real>, rows: nat, cols: nat)
    requires FromCoo(rowIdx, colIdx, val, rows, cols).Ok?
    ensures forall i, j :: 0 <= i < rows ==>
      ((j in ColSet(Row(FromCoo(rowIdx, colIdx, val, rows, cols).value, i)))
        <==> 0 <= j < cols && InCoo(rowIdx, colIdx, i, j))
  {
    var rs := seq(rows, i => CooRow(rowIdx, colIdx, val, i, 0, cols));
    FromRowsRows(rs, cols);
    forall i | 0 <= i < rows ensures forall j :: j in ColSet(rs[i]) <==> 0 <= j < cols && InCoo(rowIdx, colIdx, i, j) {
      CooRowCols(rowIdx, colIdx, val, i, 0, cols);
    }
  }

  // ---------------------------------------------------------------------------
  // Row lengths count the triplets of each row

  /** The number of triplets among the first n that lie in row i with a column in [lo, hi). */
  function CountIn(rowIdx: seq<int>, colIdx: seq<int>, i: int, lo: int, hi: int, n: nat): nat
    requires n <= |rowIdx| && n <= |colIdx|
  {
    if n == 0 then 0
    else CountIn(rowIdx, colIdx, i, lo, hi, n - 1) + (if rowIdx[n - 1] == i && lo <= colIdx[n - 1] < hi then 1 else 0)
  }

  /** The number of triplets among the first n that lie in row i. */
  function CountRow(rowIdx: seq<int>, i: int, n: nat): nat
    requires n <= |rowIdx|
  {
    if n == 0 then 0 else CountRow(rowIdx, i, n - 1) + (if rowIdx[n - 1] == i then 1 else 0)
  }

  lemma {:induction false} CountSplit(rowIdx: seq<int>, colIdx: seq<int>, i: int, lo: int, hi: int, n: nat)
    requires n <= |rowIdx| && n <= |colIdx| && lo < hi
    ensures CountIn(rowIdx, colIdx, i, lo, hi, n)
         == CountIn(rowIdx, colIdx, i, lo, lo + 1, n) + CountIn(rowIdx, colIdx, i, lo + 1, hi, n)
  {
    if n > 0 {
      CountSplit(rowIdx, colIdx, i, lo, hi, n - 1);
    }
  }

  lemma {:induction false} CountEmpty(rowIdx: seq<int>, colIdx: seq<int>, i: int, lo: int, n: nat)
    requires n <= |rowIdx| && n <= |colIdx|
    ensures CountIn(rowIdx, colIdx, i, lo, lo, n) == 0
  {
    if n > 0 {
      CountEmpty(rowIdx, colIdx, i, lo, n - 1);
    }
  }

  /** With distinct positions, at most one triplet sits at (i, j). */
  lemma {:induction false} CountSingle(rowIdx: seq<int>, colIdx: seq<int>, i: int, j: int, n: nat)
    requires n <= |rowIdx| == |colIdx| && Distinct(rowIdx, colIdx)
    ensures CountIn(rowIdx, colIdx, i, j, j + 1, n)
         == if exists k :: 0 <= k < n && Match(rowIdx, colIdx, k, i, j) then 1 else 0
  {
    if n > 0 {
      CountSingle(rowIdx, colIdx, i, j, n - 1);
      if Match(rowIdx, colIdx, n - 1, i, j) {
        assert !exists k :: 0 <= k < n - 1 && Match(rowIdx, colIdx, k, i, j);
      } else {
        if exists k :: 0 <= k < n && Match(rowIdx, colIdx, k, i, j) {
          var k :| 0 <= k < n && Match(rowIdx, colIdx, k, i, j);
          assert k < n - 1;
        }
      }
    }
  }

  lemma {:induction false} CooRowLength(rowIdx: seq<int>, colIdx: seq<int>, val: seq<real>, i: int, j: int, cols: nat)
    requires |rowIdx| == |colIdx| && Distinct(rowIdx, colIdx) && j <= cols
    ensures |CooRow(rowIdx, colIdx, val, i, j, cols)| == CountIn(rowIdx, colIdx, i, j, cols, |rowIdx|)
    decreases cols - j
  {
    if j < cols {
      CooRowLength(rowIdx, colIdx, val, i, j + 1, cols);
      CountSplit(rowIdx, colIdx, i, j, cols, |rowIdx|);
      CountSingle(rowIdx, colIdx, i, j, |rowIdx|);
    } else {
      CountEmpty(rowIdx, colIdx, i, j, |rowIdx|);
    }
  }

  lemma {:induction false} CountAllColumns(rowIdx: seq<int>, colIdx: seq<int>, i: int, cols: nat, n: nat)
    requires n <= |rowIdx| && n <= |colIdx|
    requires forall k :: 0 <= k < n ==> 0 <= colIdx[k] < cols
    ensures CountIn(rowIdx, colIdx, i, 0, cols, n) == CountRow(rowIdx, i, n)
  {
    if n > 0 {
      CountAllColumns(rowIdx, colIdx, i, cols, n - 1);
    }
  }

  /** With distinct triplets whose columns are in range, row i of `from_coo`'s
      result holds exactly as many entries as there are triplets in row i. */
  lemma FromCooRowLength(rowIdx: seq<int>, colIdx: seq<int>, val: seq<real>, rows: nat, cols: nat, i: int)
    requires FromCoo(rowIdx, colIdx, val, rows, cols).Ok? && Distinct(rowIdx, colIdx)
    requires forall k :: 0 <= k < |colIdx| ==> 0 <= colIdx[k] < cols
    requires 0 <= i < rows
    ensures FromCoo(rowIdx, colIdx, val, rows, cols).value.rowPtr[i + 1]
          - FromCoo(rowIdx, colIdx, val, rows, cols).value.rowPtr[i]
         == CountRow(rowIdx, i, |rowIdx|)
  {
    var M := FromCoo(rowIdx, colIdx, val, rows, cols).value;
    var rs := seq(rows, i => CooRow(rowIdx, colIdx, val, i, 0, cols));
    FromRowsRows(rs, cols);
    ValidRow(M, i);
    CooRowLength(rowIdx, colIdx, val, i, 0, cols);
    CountAllColumns(rowIdx, colIdx, i, cols, |rowIdx|);
  }

  lemma FromCooDiagonalRow(vals: seq<real>, n: nat, cols: nat, i: int)
    requires |vals| == n <= cols && 0 <= i < n
    requires FromCoo(Range(n), Range(n), vals, n, cols).Ok?
    ensures Row(FromCoo(Range(n), Range(n), vals, n, cols).value, i) == [Entry(i, vals[i])]
  {
    var M := FromCoo(Range(n), Range(n), vals, n, cols).value;
    FromCooGet(Range(n), Range(n), vals, n, cols);
    FromCooPattern(Range(n), Range(n), vals, n, cols);
    assert InCoo(Range(n), Range(n), i, i) by {
      assert Match(Range(n), Range(n), i, i, i);
    }
    forall j | InCoo(Range(n), Range(n), i, j) ensures j == i {
      var k :| 0 <= k < n && Match(Range(n), Range(n), k, i, j);
    }
    ValidRow(M, i);
    ColSetMembers(Row(M, i));
    SortedFromBounds(Row(M, i), 0, cols);
    assert forall j :: j in ColSet(Row(M, i)) <==> j == i;
    assert |Row(M, i)| == 1;
    ValidGetStored(M, i, 0);
    SumPoint(0, n, k => if Match(Range(n), Range(n), k, i, i) then At(vals, k) else 0.0, i);
  }

  /** With one triplet per row, `from_coo(arange(n), ci, vals, (n, cols))`
      stores row i as the single entry (ci[i], vals[i]). */
  lemma FromCooOneRow(ci: seq<int>, vals: seq<real>, n: nat, cols: nat, i: int)
    requires |ci| == |vals| == n && forall k :: 0 <= k < n ==> 0 <= ci[k] < cols
    requires FromCoo(Range(n), ci, vals, n, cols).Ok? && 0 <= i < n
    ensures Row(FromCoo(Range(n), ci, vals, n, cols).value, i) == [Entry(ci[i], vals[i])]
  {
    var M := FromCoo(Range(n), ci, vals, n, cols).value;
    FromCooGet(Range(n), ci, vals, n, cols);
    FromCooPattern(Range(n), ci, vals, n, cols);
    assert InCoo(Range(n), ci, i, ci[i]) by {
      assert Match(Range(n), ci, i, i, ci[i]);
    }
    forall j | InCoo(Range(n), ci, i, j) ensures j == ci[i] {
      var k :| 0 <= k < n && Match(Range(n), ci, k, i, j);
    }
    ValidRow(M, i);
    ColSetMembers(Row(M, i));
    SortedFromBounds(Row(M, i), 0, cols);
    assert forall j :: j in ColSet(Row(M, i)) <==> j == ci[i];
    assert |Row(M, i)| == 1;
    ValidGetStored(M, i, 0);
    SumPoint(0, n, k => if Match(Range(n), ci, k, i, ci[i]) then At(vals, k) else 0.0, i);
  }

  /** `from_coo(arange(n), arange(n), vals, (n, cols))`, as the Laplacian
      builders use it, is the diagonal matrix with entries vals. */
  lemma FromCooDiagonal(vals: seq<real>, n: nat, cols: nat)
    requires |vals| == n <= cols
    ensures FromCoo(Range(n), Range(n), vals, n, cols) == Ok(Diagonal(vals, n, cols))
  {
    assert n <= n * cols by {
      if n > 0 { assert n * cols >= n * 1; }
    }
    var M := FromCoo(Range(n), Range(n), vals, n, cols).value;
    DiagonalProps(vals, n, cols);
    forall i | 0 <= i < n ensures Row(M, i) == Row(Diagonal(vals, n, cols), i) {
      FromCooDiagonalRow(vals, n, cols, i);
    }
    SameRowsSameMatrix(M, Diagonal(vals, n, cols));
  }
}
