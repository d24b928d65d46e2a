/** The compressed-sparse-row (CSR) representation of the `Sparse` class of
    matting/sparse.py, its dense denotation, the checks of its constructor
    and the row-wise builder that every sparse operation of the model uses. */
module Sparse {
  import opened Sums

  /** The ValueError conditions raised by `from_coo` and `Sparse.__init__`. */
  datatype Error =
    | RowColMismatch      // from_coo: row and column arrays differ in length
    | RowValMismatch      // from_coo: row and value arrays differ in length
    | RowPointerLength    // Sparse: the row pointer does not have rows+1 elements
    | ColValMismatch      // Sparse: column and value arrays differ in length
    | TooManyEntries      // both: more stored entries than rows*cols

  datatype Result<T> = Ok(value: T) | Err(error: Error) {
    predicate IsFailure() { Err? }
    function PropagateFailure<U>(): Result<U> requires Err? { Err(error) }
    function Extract(): T requires Ok? { value }
  }

  /** One stored entry of a row: its column and its value. */
  datatype Entry = Entry(col: int, v: real)

  /** A `Sparse` object: `csr_row_idx`, `col_idx`, `val` and `size` = (rows, cols). */
  datatype Csr = Csr(rowPtr: seq<int>, colIdx: seq<int>, val: seq<real>, rows: nat, cols: nat)

  /** The `nnz` property: the number of stored values. */
  function Nnz(M: Csr): nat { |M.val| }

  function Range(n: nat): seq<int> { seq(n, i => i) }

  function Ones(n: nat): seq<real> { seq(n, i => 1.0) }

  /** Row i of M as its (column, value) entries; empty when row i does not
      exist or its pointers do not delimit a slice of the arrays. */
  function Row(M: Csr, i: int): seq<Entry>
  {
    if 0 <= i && i + 1 < |M.rowPtr| && 0 <= M.rowPtr[i] <= M.rowPtr[i + 1]
       && M.rowPtr[i + 1] <= |M.colIdx| && M.rowPtr[i + 1] <= |M.val|
    then
      var lo := M.rowPtr[i];
      seq(M.rowPtr[i + 1] - lo, t requires 0 <= t < M.rowPtr[i + 1] - lo =>
        Entry(M.colIdx[lo + t], M.val[lo + t]))
    else []
  }

  /** The dense value at column j of a row: the sum of the values stored at column j. */
  function RowGet(r: seq<Entry>, j: int): real
  {
    if r == [] then 0.0 else (if r[0].col == j then r[0].v else 0.0) + RowGet(r[1..], j)
  }

  /** The dense denotation of M: the value at (i, j), zero where nothing is stored. */
  function Get(M: Csr, i: int, j: int): real
  {
    RowGet(Row(M, i), j)
  }

  /** The columns stored in a row (its sparsity pattern). */
  function ColSet(r: seq<Entry>): set<int>
  {
    if r == [] then {} else {r[0].col} + ColSet(r[1..])
  }

  /** The columns of a row are strictly increasing, at least lo and below n. */
  predicate SortedFrom(r: seq<Entry>, lo: int, n: int)
  {
    r == [] || (lo <= r[0].col < n && SortedFrom(r[1..], r[0].col + 1, n))
  }

  /** A well-formed CSR matrix: a row pointer of length rows+1 that starts at 0,
      ends at nnz and never decreases, and in-range, strictly increasing
      columns within each row. */
  predicate Valid(M: Csr)
  {
    && |M.rowPtr| == M.rows + 1
    && M.rowPtr[0] == 0
    && M.rowPtr[M.rows] == |M.colIdx| == |M.val|
    && (forall i, i' :: 0 <= i <= i' <= M.rows ==> M.rowPtr[i] <= M.rowPtr[i'])
    && (forall i :: 0 <= i < M.rows ==> SortedFrom(Row(M, i), 0, M.cols))
  }

  /** Two matrices hold the same sparsity pattern. */
  predicate SamePattern(A: Csr, B: Csr)
  {
    A.rows == B.rows && A.cols == B.cols && A.rowPtr == B.rowPtr && A.colIdx == B.colIdx
  }

  ghost predicate Symmetric(M: Csr)
  {
    M.rows == M.cols && forall i, j :: Get(M, i, j) == Get(M, j, i)
  }

  /** The dense row sum of row i. */
  function RowSum(M: Csr, i: int): real
  {
    Sum(0, M.cols, j => Get(M, i, j))
  }

  /** `Sparse.__init__`: the three checks, in the source's order; the arrays
      are stored as given (there is no re-sorting and no check of the columns). */
  function MakeSparse(rowPtr: seq<int>, colIdx: seq<int>, val: seq<real>, rows: nat, cols: nat): (r: Result<Csr>)
    ensures |rowPtr| != rows + 1 ==> r == Err(RowPointerLength)
    ensures |rowPtr| == rows + 1 && |colIdx| != |val| ==> r == Err(ColValMismatch)
    ensures |rowPtr| == rows + 1 && |colIdx| == |val| > rows * cols ==> r == Err(TooManyEntries)
    ensures r.Ok? <==> |rowPtr| == rows + 1 && |colIdx| == |val| <= rows * cols
    ensures r.Ok? ==> r.value == Csr(rowPtr, colIdx, val, rows, cols) && Nnz(r.value) == |val|
  {
    if |rowPtr| != rows + 1 then Err(RowPointerLength)
    else if |colIdx| != |val| then Err(ColValMismatch)
    else if |colIdx| > rows * cols then Err(TooManyEntries)
    else Ok(Csr(rowPtr, colIdx, val, rows, cols))
  }

  /** The diagonal matrix `Sparse(arange(rows+1), arange(rows), vals, (rows, cols))`. */
  function Diagonal(vals: seq<real>, rows: nat, cols: nat): Csr
  {
    Csr(Range(rows + 1), Range(rows), vals, rows, cols)
  }

  function ColsOf(r: seq<Entry>): seq<int>
  {
    seq(|r|, t requires 0 <= t < |r| => r[t].col)
  }

  function ValsOf(r: seq<Entry>): seq<real>
  {
    seq(|r|, t requires 0 <= t < |r| => r[t].v)
  }

  /** The CSR matrix whose rows are rs: the row pointer holds the prefix sums
      of the row lengths and the column and value arrays the rows in order. */
  function FromRows(rs: seq<seq<Entry>>, cols: nat): (M: Csr)
    ensures M.rows == |rs| && M.cols == cols && |M.rowPtr| == |rs| + 1
    ensures M.rowPtr[0] == 0 && M.rowPtr[|rs|] == |M.colIdx| == |M.val|
    decreases |rs|
  {
    if rs == [] then Csr([0], [], [], 0, cols)
    else
      var M := FromRows(rs[..|rs| - 1], cols);
      var last := rs[|rs| - 1];
      Csr(M.rowPtr + [|M.colIdx| + |last|], M.colIdx + ColsOf(last), M.val + ValsOf(last), |rs|, cols)
  }

  // ---------------------------------------------------------------------------
  // Rows and their denotation

  lemma {:induction false} SortedFromBounds(r: seq<Entry>, lo: int, n: int)
    requires SortedFrom(r, lo, n)
    ensures forall t :: 0 <= t < |r| ==> lo <= r[t].col < n
    ensures forall t, t' :: 0 <= t < t' < |r| ==> r[t].col < r[t'].col
    decreases |r|
  {
    if r != [] {
      SortedFromBounds(r[1..], r[0].col + 1, n);
      assert forall t :: 1 <= t < |r| ==> r[t] == r[1..][t - 1];
    }
  }

  /** A strictly increasing row of columns in [lo, n) holds at most n - lo entries. */
  lemma {:induction false} SortedFromLength(r: seq<Entry>, lo: int, n: int)
    requires SortedFrom(r, lo, n)
    ensures r == [] || lo + |r| <= n
    decreases |r|
  {
    if r != [] {
      SortedFromLength(r[1..], r[0].col + 1, n);
    }
  }

  lemma {:induction false} SortedFromWeaken(r: seq<Entry>, lo: int, lo': int, n: int)
    requires SortedFrom(r, lo, n) && lo' <= lo
    ensures SortedFrom(r, lo', n)
  {
  }

  lemma {:induction false} ColSetMembers(r: seq<Entry>)
    ensures forall j :: j in ColSet(r) <==> exists t :: 0 <= t < |r| && r[t].col == j
    decreases |r|
  {
    if r != [] {
      ColSetMembers(r[1..]);
      forall j | j in ColSet(r) ensures exists t :: 0 <= t < |r| && r[t].col == j {
        if j == r[0].col {
        } else {
          assert j in ColSet(r[1..]);
          var t' :| 0 <= t' < |r[1..]| && r[1..][t'].col == j;
          assert r[t' + 1].col == j;
        }
      }
      forall j | exists t :: 0 <= t < |r| && r[t].col == j ensures j in ColSet(r) {
        var t :| 0 <= t < |r| && r[t].col == j;
        if t > 0 {
          assert r[1..][t - 1].col == j;
        }
      }
    }
  }

  /** Nothing is stored at a column outside the pattern. */
  lemma {:induction false} RowGetOutside(r: seq<Entry>, j: int)
    requires j !in ColSet(r)
    ensures RowGet(r, j) == 0.0
    decreases |r|
  {
    if r != [] {
      RowGetOutside(r[1..], j);
    }
  }

  /** In a row with strictly increasing columns, the dense value at a stored
      column is the value stored there. */
  lemma {:induction false} RowGetAt(r: seq<Entry>, lo: int, n: int, t: int)
    requires SortedFrom(r, lo, n) && 0 <= t < |r|
    ensures RowGet(r, r[t].col) == r[t].v
    decreases |r|
  {
    if t == 0 {
      SortedFromBounds(r[1..], r[0].col + 1, n);
      ColSetMembers(r[1..]);
      RowGetOutside(r[1..], r[0].col);
    } else {
      SortedFromBounds(r, lo, n);
      RowGetAt(r[1..], r[0].col + 1, n, t - 1);
    }
  }

  // ---------------------------------------------------------------------------
  // Valid matrices

  /** Row i of a valid matrix is the slice [rowPtr[i], rowPtr[i+1]) of its arrays. */
  lemma ValidRow(M: Csr, i: int)
    requires Valid(M) && 0 <= i < M.rows
    ensures 0 <= M.rowPtr[i] <= M.rowPtr[i + 1] <= |M.val|
    ensures |Row(M, i)| == M.rowPtr[i + 1] - M.rowPtr[i]
    ensures forall t :: 0 <= t < |Row(M, i)| ==>
      Row(M, i)[t] == Entry(M.colIdx[M.rowPtr[i] + t], M.val[M.rowPtr[i] + t])
  {
    assert M.rowPtr[0] <= M.rowPtr[i] <= M.rowPtr[i + 1] <= M.rowPtr[M.rows];
  }

  /** Stored position k of row i is entry k - rowPtr[i] of that row. */
  lemma RowEntryAt(M: Csr, i: int, k: int)
    requires Valid(M) && 0 <= i < M.rows && M.rowPtr[i] <= k < M.rowPtr[i + 1]
    ensures 0 <= k - M.rowPtr[i] < |Row(M, i)| && k < |M.colIdx| && k < |M.val|
    ensures Row(M, i)[k - M.rowPtr[i]] == Entry(M.colIdx[k], M.val[k])
  {
    ValidRow(M, i);
  }

  /** Every column stored in a valid matrix is in range. */
  lemma ValidColumns(M: Csr)
    requires Valid(M)
    ensures forall i, j :: j in ColSet(Row(M, i)) ==> 0 <= i < M.rows && 0 <= j < M.cols
  {
    forall i, j | j in ColSet(Row(M, i)) ensures 0 <= i < M.rows && 0 <= j < M.cols {
      ColSetMembers(Row(M, i));
      if 0 <= i < M.rows {
        SortedFromBounds(Row(M, i), 0, M.cols);
      }
    }
  }

  /** Outside the declared size a valid matrix denotes zero. */
  lemma ValidGetOutside(M: Csr, i: int, j: int)
    requires Valid(M) && !(0 <= i < M.rows && 0 <= j < M.cols)
    ensures Get(M, i, j) == 0.0
  {
    ValidColumns(M);
    RowGetOutside(Row(M, i), j);
  }

  /** The stored value at column j of row i is what M denotes at (i, j). */
  lemma ValidGetStored(M: Csr, i: int, t: int)
    requires Valid(M) && 0 <= i < M.rows && 0 <= t < |Row(M, i)|
    ensures Get(M, i, Row(M, i)[t].col) == Row(M, i)[t].v
  {
    RowGetAt(Row(M, i), 0, M.cols, t);
  }

  /** The value stored at position k, in row i, is what M denotes at (i, colIdx[k]). */
  lemma ValidGetIndexed(M: Csr)
    requires Valid(M)
    ensures forall i, k :: 0 <= i < M.rows && M.rowPtr[i] <= k < M.rowPtr[i + 1] ==>
      Get(M, i, M.colIdx[k]) == M.val[k]
  {
    forall i, k | 0 <= i < M.rows && M.rowPtr[i] <= k < M.rowPtr[i + 1]
      ensures Get(M, i, M.colIdx[k]) == M.val[k]
    {
      RowEntryAt(M, i, k);
      ValidGetStored(M, i, k - M.rowPtr[i]);
    }
  }

  lemma {:induction false} RowPtrBound(M: Csr, i: nat)
    requires Valid(M) && i <= M.rows
    ensures M.rowPtr[i] <= i * M.cols
  {
    if i > 0 {
      RowPtrBound(M, i - 1);
      ValidRow(M, i - 1);
      SortedFromLength(Row(M, i - 1), 0, M.cols);
      assert i * M.cols == (i - 1) * M.cols + M.cols;
    }
  }

  /** A valid matrix stores at most rows*cols entries. */
  lemma ValidNnzBound(M: Csr)
    requires Valid(M)
    ensures Nnz(M) <= M.rows * M.cols
  {
    RowPtrBound(M, M.rows);
  }

  /** Every valid matrix passes the checks of the `Sparse` constructor unchanged. */
  lemma ValidPassesConstructor(M: Csr)
    requires Valid(M)
    ensures MakeSparse(M.rowPtr, M.colIdx, M.val, M.rows, M.cols) == Ok(M)
  {
    ValidNnzBound(M);
  }

  lemma DiagonalRow(vals: seq<real>, rows: nat, cols: nat, i: int)
    requires |vals| == rows && 0 <= i < rows
    ensures Row(Diagonal(vals, rows, cols), i) == [Entry(i, vals[i])]
  {
    var D := Diagonal(vals, rows, cols);
    assert D.rowPtr[i] == i && D.rowPtr[i + 1] == i + 1;
    assert |Row(D, i)| == 1;
  }

  lemma DiagonalGet(vals: seq<real>, rows: nat, cols: nat, i: int, j: int)
    requires |vals| == rows
    ensures Get(Diagonal(vals, rows, cols), i, j) == if 0 <= i < rows && i == j then vals[i] else 0.0
  {
    var D := Diagonal(vals, rows, cols);
    if 0 <= i < rows {
      DiagonalRow(vals, rows, cols, i);
      var r := [Entry(i, vals[i])];
      assert r[1..] == [];
      assert RowGet(r, j) == (if i == j then vals[i] else 0.0) + RowGet([], j);
    } else {
      assert Row(D, i) == [];
    }
  }

  /** `Sparse(arange(rows+1), arange(rows), vals, (rows, cols))` is accepted by
      the constructor and denotes the diagonal matrix with entries vals. */
  lemma DiagonalProps(vals: seq<real>, rows: nat, cols: nat)
    requires |vals| == rows <= cols
    ensures MakeSparse(Range(rows + 1), Range(rows), vals, rows, cols) == Ok(Diagonal(vals, rows, cols))
    ensures Valid(Diagonal(vals, rows, cols))
    ensures forall i :: 0 <= i < rows ==> Row(Diagonal(vals, rows, cols), i) == [Entry(i, vals[i])]
    ensures forall i, j :: Get(Diagonal(vals, rows, cols), i, j)
                        == if 0 <= i < rows && i == j then vals[i] else 0.0
  {
    var D := Diagonal(vals, rows, cols);
    assert rows <= rows * cols by {
      if rows > 0 { assert rows * cols >= rows * 1; }
    }
    DiagonalValid(vals, rows, cols);
    forall i, j ensures Get(D, i, j) == if 0 <= i < rows && i == j then vals[i] else 0.0 {
      DiagonalGet(vals, rows, cols, i, j);
    }
  }

  lemma DiagonalValid(vals: seq<real>, rows: nat, cols: nat)
    requires |vals| == rows <= cols
    ensures Valid(Diagonal(vals, rows, cols))
    ensures forall i :: 0 <= i < rows ==> Row(Diagonal(vals, rows, cols), i) == [Entry(i, vals[i])]
  {
    var D := Diagonal(vals, rows, cols);
    forall i | 0 <= i < rows ensures Row(D, i) == [Entry(i, vals[i])] {
      DiagonalRow(vals, rows, cols, i);
    }
  }

  // ---------------------------------------------------------------------------
  // The row-wise builder

  /** FromRows lays the rows out in order: its row i is rs[i] and its row
      pointer never decreases. */
  lemma {:induction false} FromRowsRows(rs: seq<seq<Entry>>, cols: nat)
    ensures forall i, i' :: 0 <= i <= i' <= |rs| ==> FromRows(rs, cols).rowPtr[i] <= FromRows(rs, cols).rowPtr[i']
    ensures forall i :: 0 <= i < |rs| ==> Row(FromRows(rs, cols), i) == rs[i]
    decreases |rs|
  {
    if rs != [] {
      var init := rs[..|rs| - 1];
      FromRowsRows(init, cols);
      FromRowsMonoStep(rs, cols);
      forall i | 0 <= i < |rs| ensures Row(FromRows(rs, cols), i) == rs[i] {
        if i < |rs| - 1 {
          FromRowsRowPrefix(rs, cols, i);
        } else {
          FromRowsRowLast(rs, cols);
        }
      }
    }
  }

  /** The entries of p never decrease. */
  predicate Monotone(p: seq<int>)
  {
    forall i, i' :: 0 <= i <= i' < |p| ==> p[i] <= p[i']
  }

  lemma FromRowsMonoStep(rs: seq<seq<Entry>>, cols: nat)
    requires rs != []
    requires Monotone(FromRows(rs[..|rs| - 1], cols).rowPtr)
    ensures Monotone(FromRows(rs, cols).rowPtr)
  {
    var M := FromRows(rs[..|rs| - 1], cols);
    FromRowsSnoc(rs, cols);
    assert M.rowPtr[|rs| - 1] == |M.colIdx|;
  }

  lemma FromRowsRowPrefix(rs: seq<seq<Entry>>, cols: nat, i: int)
    requires 0 <= i < |rs| - 1
    requires Monotone(FromRows(rs[..|rs| - 1], cols).rowPtr)
    requires Row(FromRows(rs[..|rs| - 1], cols), i) == rs[..|rs| - 1][i]
    ensures Row(FromRows(rs, cols), i) == rs[i]
  {
    var M := FromRows(rs[..|rs| - 1], cols);
    var M' := FromRows(rs, cols);
    FromRowsSnoc(rs, cols);
    assert 0 <= M.rowPtr[i] <= M.rowPtr[i + 1] <= M.rowPtr[|rs| - 1];
    var a, b := Row(M', i), Row(M, i);
    assert |a| == |b|;
    forall t | 0 <= t < |a| ensures a[t] == b[t] {
    }
  }

  lemma FromRowsRowLast(rs: seq<seq<Entry>>, cols: nat)
    requires rs != []
    ensures Row(FromRows(rs, cols), |rs| - 1) == rs[|rs| - 1]
  {
    var M := FromRows(rs[..|rs| - 1], cols);
    var M' := FromRows(rs, cols);
    var last := rs[|rs| - 1];
    FromRowsSnoc(rs, cols);
    var i := |rs| - 1;
    assert M'.rowPtr[i] == |M.colIdx| && M'.rowPtr[i + 1] == |M.colIdx| + |last|;
    var a := Row(M', i);
    assert |a| == |last|;
    forall t | 0 <= t < |a| ensures a[t] == last[t] {
      assert M'.colIdx[|M.colIdx| + t] == ColsOf(last)[t];
      assert M'.val[|M.val| + t] == ValsOf(last)[t];
    }
  }

  lemma FromRowsGet(rs: seq<seq<Entry>>, cols: nat)
    ensures forall i, j :: Get(FromRows(rs, cols), i, j) == if 0 <= i < |rs| then RowGet(rs[i], j) else 0.0
  {
    FromRowsRows(rs, cols);
    forall i, j ensures Get(FromRows(rs, cols), i, j) == if 0 <= i < |rs| then RowGet(rs[i], j) else 0.0 {
      if !(0 <= i < |rs|) {
        assert Row(FromRows(rs, cols), i) == [];
      }
    }
  }

  /** Rows with strictly increasing in-range columns give a valid matrix. */
  lemma FromRowsValid(rs: seq<seq<Entry>>, cols: nat)
    requires forall i :: 0 <= i < |rs| ==> SortedFrom(rs[i], 0, cols)
    ensures Valid(FromRows(rs, cols))
  {
    FromRowsRows(rs, cols);
  }

  /** The column and value arrays of M, restricted to row i. */
  lemma SliceOfRow(M: Csr, i: int)
    requires Valid(M) && 0 <= i < M.rows
    ensures ColsOf(Row(M, i)) == M.colIdx[M.rowPtr[i]..M.rowPtr[i + 1]]
    ensures ValsOf(Row(M, i)) == M.val[M.rowPtr[i]..M.rowPtr[i + 1]]
  {
    ValidRow(M, i);
  }

  lemma FromRowsSnoc(rs: seq<seq<Entry>>, cols: nat)
    requires rs != []
    ensures FromRows(rs, cols).rowPtr
         == FromRows(rs[..|rs| - 1], cols).rowPtr + [|FromRows(rs[..|rs| - 1], cols).colIdx| + |rs[|rs| - 1]|]
    ensures FromRows(rs, cols).colIdx == FromRows(rs[..|rs| - 1], cols).colIdx + ColsOf(rs[|rs| - 1])
    ensures FromRows(rs, cols).val == FromRows(rs[..|rs| - 1], cols).val + ValsOf(rs[|rs| - 1])
  {
  }

  lemma TakeSnoc<T>(s: seq<T>, n: nat)
    requires n < |s|
    ensures s[..n + 1] == s[..n] + [s[n]]
  {
  }

  lemma TakeConcat<T>(s: seq<T>, lo: nat, hi: nat)
    requires lo <= hi <= |s|
    ensures s[..hi] == s[..lo] + s[lo..hi]
  {
  }

  /** Rows whose columns are the slices of ci cut by rp rebuild the first n
      entries of rp and the matching prefix of ci. */
  lemma {:induction false} KeepPatternPrefix(rs: seq<seq<Entry>>, cols: nat, rp: seq<int>, ci: seq<int>, n: nat)
    requires n <= |rs| && |rp| == |rs| + 1 && rp[0] == 0
    requires rp[|rs|] <= |ci| && forall i, i' :: 0 <= i <= i' <= |rs| ==> rp[i] <= rp[i']
    requires forall i :: 0 <= i < |rs| ==> ColsOf(rs[i]) == ci[rp[i]..rp[i + 1]]
    ensures FromRows(rs[..n], cols).rowPtr == rp[..n + 1]
    ensures FromRows(rs[..n], cols).colIdx == ci[..rp[n]]
  {
    if n == 0 {
      assert rs[..0] == [];
      assert rp[..1] == [0];
    } else {
      KeepPatternPrefix(rs, cols, rp, ci, n - 1);
      var pre := rs[..n];
      assert pre[..n - 1] == rs[..n - 1];
      FromRowsSnoc(pre, cols);
      var F' := FromRows(rs[..n - 1], cols);
      assert pre[n - 1] == rs[n - 1];
      var last := ColsOf(rs[n - 1]);
      assert last == ci[rp[n - 1]..rp[n]];
      assert |pre[n - 1]| == |last|;
      ExtendPrefix(rp, ci, n, F'.rowPtr, F'.colIdx, last);
    }
  }

  /** Appending row n-1's slice to prefixes of a row pointer and column array
      extends both prefixes by one row. */
  lemma ExtendPrefix(rp: seq<int>, ci: seq<int>, n: nat, pr: seq<int>, pc: seq<int>, last: seq<int>)
    requires 0 < n < |rp| && 0 <= rp[n - 1] <= rp[n] <= |ci|
    requires pr == rp[..n] && pc == ci[..rp[n - 1]] && last == ci[rp[n - 1]..rp[n]]
    ensures pr + [|pc| + |last|] == rp[..n + 1]
    ensures pc + last == ci[..rp[n]]
  {
    TakeSnoc(rp, n);
    TakeConcat(ci, rp[n - 1], rp[n]);
  }

  /** Rows that keep the columns of M's rows rebuild M's row pointer and column array. */
  lemma KeepPatternOfRows(M: Csr, rs: seq<seq<Entry>>)
    requires Valid(M) && |rs| == M.rows
    requires forall i :: 0 <= i < M.rows ==> ColsOf(rs[i]) == ColsOf(Row(M, i))
    ensures SamePattern(FromRows(rs, M.cols), M)
  {
    var n := M.rows;
    KeptColsAreSlices(M, rs);
    KeepPatternPrefix(rs, M.cols, M.rowPtr, M.colIdx, n);
    TakeAll(rs, n);
    TakeAll(M.rowPtr, n + 1);
    TakeAll(M.colIdx, M.rowPtr[n]);
  }

  lemma KeptColsAreSlices(M: Csr, rs: seq<seq<Entry>>)
    requires Valid(M) && |rs| == M.rows
    requires forall i :: 0 <= i < M.rows ==> ColsOf(rs[i]) == ColsOf(Row(M, i))
    ensures forall i :: 0 <= i < |rs| ==> ColsOf(rs[i]) == M.colIdx[M.rowPtr[i]..M.rowPtr[i + 1]]
  {
    forall i | 0 <= i < |rs|
      ensures ColsOf(rs[i]) == M.colIdx[M.rowPtr[i]..M.rowPtr[i + 1]]
    {
      SliceOfRow(M, i);
    }
  }

  lemma TakeAll<T>(s: seq<T>, n: int)
    requires n == |s|
    ensures s[..n] == s
  {
  }

  /** Every stored position k of a valid matrix lies in exactly one row's slice. */
  lemma {:induction false} RowOfIndex(M: Csr, k: int, n: nat)
    requires Valid(M) && n <= M.rows && 0 <= k < M.rowPtr[n]
    ensures exists i :: 0 <= i < n && M.rowPtr[i] <= k < M.rowPtr[i + 1]
  {
    if k >= M.rowPtr[n - 1] {
      assert M.rowPtr[n - 1] <= k < M.rowPtr[n];
    } else {
      RowOfIndex(M, k, n - 1);
    }
  }

  /** Two valid matrices of one size with the same rows are equal. */
  lemma SameRowsSameMatrix(M: Csr, D: Csr)
    requires Valid(M) && Valid(D) && M.rows == D.rows && M.cols == D.cols
    requires forall i :: 0 <= i < M.rows ==> Row(M, i) == Row(D, i)
    ensures M == D
  {
    var rsD := seq(D.rows, i requires 0 <= i < D.rows => Row(D, i));
    KeepPatternOfRows(M, rsD);
    KeepPatternOfRows(D, rsD);
    forall k | 0 <= k < |M.val| ensures M.val[k] == D.val[k] {
      SameRowsSameValue(M, D, k);
    }
  }

  lemma SameRowsSameValue(M: Csr, D: Csr, k: int)
    requires Valid(M) && Valid(D) && M.rows == D.rows && M.rowPtr == D.rowPtr
    requires forall i :: 0 <= i < M.rows ==> Row(M, i) == Row(D, i)
    requires 0 <= k < |M.val|
    ensures M.val[k] == D.val[k]
  {
    RowOfIndex(M, k, M.rows);
    var i :| 0 <= i < M.rows && M.rowPtr[i] <= k < M.rowPtr[i + 1];
    ValidRow(M, i);
    ValidRow(D, i);
    assert Row(M, i)[k - M.rowPtr[i]] == Row(D, i)[k - D.rowPtr[i]];
  }
}
