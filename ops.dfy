/** The operations of matting/sparse.py on CSR matrices: `mul_` (as the
    function its in-place loop is proved against), `spadd`, `spmv`, `spmm`,
    and the `transpose` that matting/modules.py calls. Each is a total
    function on the representation; its lemmas state what it denotes. */
module SparseOps {
  import opened Sums
  import opened Sparse

  // ---------------------------------------------------------------------------
  // mul_: scaling the stored values

  /** M with every stored value multiplied by s; the structure is untouched. */
  function Scale(M: Csr, s: real): Csr
  {
    M.(val := seq(|M.val|, k requires 0 <= k < |M.val| => s * M.val[k]))
  }

  /** A row with every value multiplied by s. */
  function ScaleRow(r: seq<Entry>, s: real): (r': seq<Entry>)
    ensures |r'| == |r|
  {
    if r == [] then [] else [Entry(r[0].col, s * r[0].v)] + ScaleRow(r[1..], s)
  }

  lemma {:induction false} ScaleRowAt(r: seq<Entry>, s: real, t: int)
    requires 0 <= t < |r|
    ensures ScaleRow(r, s)[t] == Entry(r[t].col, s * r[t].v)
    decreases t
  {
    if t > 0 {
      ScaleRowAt(r[1..], s, t - 1);
    }
  }

  lemma RowOfScale(M: Csr, s: real, i: int)
    ensures Row(Scale(M, s), i) == ScaleRow(Row(M, i), s)
  {
    var a, b := Row(Scale(M, s), i), ScaleRow(Row(M, i), s);
    assert |a| == |b|;
    forall t | 0 <= t < |a| ensures a[t] == b[t] {
      ScaleRowAt(Row(M, i), s, t);
    }
  }

  lemma ScaleRowTail(r: seq<Entry>, s: real)
    requires r != []
    ensures ScaleRow(r, s)[0] == Entry(r[0].col, s * r[0].v)
    ensures ScaleRow(r, s)[1..] == ScaleRow(r[1..], s)
  {
  }

  lemma {:induction false} RowGetScale(r: seq<Entry>, s: real, j: int)
    ensures RowGet(ScaleRow(r, s), j) == s * RowGet(r, j)
    decreases |r|
  {
    if r != [] {
      RowGetScale(r[1..], s, j);
      ScaleRowTail(r, s);
    }
  }

  lemma {:induction false} ScaleRowSorted(r: seq<Entry>, s: real, lo: int, n: int)
    requires SortedFrom(r, lo, n)
    ensures SortedFrom(ScaleRow(r, s), lo, n)
    decreases |r|
  {
    if r != [] {
      ScaleRowSorted(r[1..], s, r[0].col + 1, n);
      ScaleRowTail(r, s);
    }
  }

  lemma {:induction false} ScaleRowCols(r: seq<Entry>, s: real)
    ensures ColSet(ScaleRow(r, s)) == ColSet(r)
    decreases |r|
  {
    if r != [] {
      ScaleRowCols(r[1..], s);
      ScaleRowTail(r, s);
    }
  }

  /** Scaling keeps the matrix valid and its pattern, and scales what it denotes. */
  lemma ScaleGet(M: Csr, s: real)
    requires Valid(M)
    ensures Valid(Scale(M, s)) && SamePattern(Scale(M, s), M) && Nnz(Scale(M, s)) == Nnz(M)
    ensures forall i, j :: Get(Scale(M, s), i, j) == s * Get(M, i, j)
    ensures forall i :: ColSet(Row(Scale(M, s), i)) == ColSet(Row(M, i))
  {
    forall i | 0 <= i < M.rows ensures SortedFrom(Row(Scale(M, s), i), 0, M.cols) {
      RowOfScale(M, s, i);
      ScaleRowSorted(Row(M, i), s, 0, M.cols);
    }
    forall i, j ensures Get(Scale(M, s), i, j) == s * Get(M, i, j) {
      RowOfScale(M, s, i);
      RowGetScale(Row(M, i), s, j);
    }
    forall i ensures ColSet(Row(Scale(M, s), i)) == ColSet(Row(M, i)) {
      RowOfScale(M, s, i);
      ScaleRowCols(Row(M, i), s);
    }
  }

  // ---------------------------------------------------------------------------
  // spadd: the row-wise merge

  /** The merge of two rows ordered by column; entries at a common column are summed. */
  function Merge(a: seq<Entry>, b: seq<Entry>): seq<Entry>
    decreases |a| + |b|
  {
    if a == [] then b
    else if b == [] then a
    else if a[0].col < b[0].col then [a[0]] + Merge(a[1..], b)
    else if b[0].col < a[0].col then [b[0]] + Merge(a, b[1..])
    else [Entry(a[0].col, a[0].v + b[0].v)] + Merge(a[1..], b[1..])
  }

  /** `spadd(A, B)`: row i of the result is the merge of row i of A and of B; the size is A's. */
  function SpAdd(A: Csr, B: Csr): (C: Csr)
    ensures C.rows == A.rows && C.cols == A.cols
  {
    FromRows(seq(A.rows, i => Merge(Row(A, i), Row(B, i))), A.cols)
  }

  lemma {:induction false} MergeGet(a: seq<Entry>, b: seq<Entry>, j: int)
    ensures RowGet(Merge(a, b), j) == RowGet(a, j) + RowGet(b, j)
    decreases |a| + |b|
  {
    if a != [] && b != [] {
      var m := Merge(a, b);
      if a[0].col < b[0].col {
        MergeGet(a[1..], b, j);
        assert m[1..] == Merge(a[1..], b);
      } else if b[0].col < a[0].col {
        MergeGet(a, b[1..], j);
        assert m[1..] == Merge(a, b[1..]);
      } else {
        MergeGet(a[1..], b[1..], j);
        assert m[1..] == Merge(a[1..], b[1..]);
      }
    }
  }

  lemma {:induction false} MergeCols(a: seq<Entry>, b: seq<Entry>)
    ensures ColSet(Merge(a, b)) == ColSet(a) + ColSet(b)
    decreases |a| + |b|
  {
    if a != [] && b != [] {
      var m := Merge(a, b);
      if a[0].col < b[0].col {
        MergeCols(a[1..], b);
        assert m[1..] == Merge(a[1..], b);
      } else if b[0].col < a[0].col {
        MergeCols(a, b[1..]);
        assert m[1..] == Merge(a, b[1..]);
      } else {
        MergeCols(a[1..], b[1..]);
        assert m[1..] == Merge(a[1..], b[1..]);
      }
    }
  }

  lemma {:induction false} MergeSorted(a: seq<Entry>, b: seq<Entry>, lo: int, n: int)
    requires SortedFrom(a, lo, n) && SortedFrom(b, lo, n)
    ensures SortedFrom(Merge(a, b), lo, n)
    decreases |a| + |b|
  {
    if a != [] && b != [] {
      var m := Merge(a, b);
      if a[0].col < b[0].col {
        MergeSorted(a[1..], b, a[0].col + 1, n);
        assert m[1..] == Merge(a[1..], b);
      } else if b[0].col < a[0].col {
        MergeSorted(a, b[1..], b[0].col + 1, n);
        assert m[1..] == Merge(a, b[1..]);
      } else {
        MergeSorted(a[1..], b[1..], a[0].col + 1, n);
        assert m[1..] == Merge(a[1..], b[1..]);
      }
    }
  }

  /** Merging rows with the same columns adds their values position by position. */
  lemma {:induction false} MergeSameCols(a: seq<Entry>, b: seq<Entry>)
    requires ColsOf(a) == ColsOf(b)
    ensures Merge(a, b) == seq(|a|, t requires 0 <= t < |a| => Entry(a[t].col, a[t].v + b[t].v))
    decreases |a|
  {
    assert |a| == |ColsOf(a)| == |ColsOf(b)| == |b|;
    if a != [] {
      assert a[0].col == ColsOf(a)[0] == ColsOf(b)[0] == b[0].col;
      assert ColsOf(a[1..]) == ColsOf(a)[1..];
      assert ColsOf(b[1..]) == ColsOf(b)[1..];
      MergeSameCols(a[1..], b[1..]);
      var head := Entry(a[0].col, a[0].v + b[0].v);
      var tl := seq(|a[1..]|, t requires 0 <= t < |a[1..]| => Entry(a[1..][t].col, a[1..][t].v + b[1..][t].v));
      var whole := seq(|a|, t requires 0 <= t < |a| => Entry(a[t].col, a[t].v + b[t].v));
      assert Merge(a, b) == [head] + tl;
      forall t | 0 <= t < |a| ensures whole[t] == ([head] + tl)[t] {
        if t > 0 {
          assert a[1..][t - 1] == a[t] && b[1..][t - 1] == b[t];
        }
      }
      assert whole == [head] + tl;
    }
  }

  /** `spadd` of two valid matrices of one size is valid, denotes the sum, and
      stores the union of the two patterns. */
  lemma SpAddGet(A: Csr, B: Csr)
    requires Valid(A) && Valid(B) && A.rows == B.rows && A.cols == B.cols
    ensures Valid(SpAdd(A, B))
    ensures forall i, j :: Get(SpAdd(A, B), i, j) == Get(A, i, j) + Get(B, i, j)
    ensures forall i :: 0 <= i < A.rows ==>
      ColSet(Row(SpAdd(A, B), i)) == ColSet(Row(A, i)) + ColSet(Row(B, i))
  {
    var rs := seq(A.rows, i => Merge(Row(A, i), Row(B, i)));
    forall i | 0 <= i < A.rows ensures SortedFrom(rs[i], 0, A.cols) {
      MergeSorted(Row(A, i), Row(B, i), 0, A.cols);
    }
    FromRowsValid(rs, A.cols);
    FromRowsRows(rs, A.cols);
    FromRowsGet(rs, A.cols);
    forall i, j ensures Get(SpAdd(A, B), i, j) == Get(A, i, j) + Get(B, i, j) {
      if 0 <= i < A.rows {
        MergeGet(Row(A, i), Row(B, i), j);
      } else {
        ValidGetOutside(A, i, j);
        ValidGetOutside(B, i, j);
      }
    }
    forall i | 0 <= i < A.rows ensures ColSet(Row(SpAdd(A, B), i)) == ColSet(Row(A, i)) + ColSet(Row(B, i)) {
      MergeCols(Row(A, i), Row(B, i));
    }
  }

  lemma SamePatternRows(A: Csr, B: Csr, i: int)
    requires Valid(A) && Valid(B) && SamePattern(A, B) && 0 <= i < A.rows
    ensures ColsOf(Row(A, i)) == ColsOf(Row(B, i))
  {
    ValidRow(A, i);
    ValidRow(B, i);
  }

  /** `spadd` of two matrices with one pattern keeps the row pointer and the
      column array and adds the value arrays element by element. */
  lemma SpAddSamePattern(A: Csr, B: Csr)
    requires Valid(A) && Valid(B) && SamePattern(A, B)
    ensures SamePattern(SpAdd(A, B), A)
    ensures |SpAdd(A, B).val| == |A.val|
    ensures forall k :: 0 <= k < |A.val| ==> SpAdd(A, B).val[k] == A.val[k] + B.val[k]
  {
    var C := SpAdd(A, B);
    var rs := seq(A.rows, i => Merge(Row(A, i), Row(B, i)));
    FromRowsRows(rs, A.cols);
    SpAddGet(A, B);
    forall i | 0 <= i < A.rows ensures ColsOf(rs[i]) == ColsOf(Row(A, i)) {
      SpAddSameRow(A, B, i);
    }
    KeepPatternOfRows(A, rs);
    forall k | 0 <= k < |A.val| ensures C.val[k] == A.val[k] + B.val[k] {
      SpAddSameValue(A, B, k);
    }
  }

  lemma SpAddSameRow(A: Csr, B: Csr, i: int)
    requires Valid(A) && Valid(B) && SamePattern(A, B) && 0 <= i < A.rows
    ensures |Row(SpAdd(A, B), i)| == |Row(A, i)|
    ensures forall t :: 0 <= t < |Row(A, i)| ==>
      Row(SpAdd(A, B), i)[t] == Entry(Row(A, i)[t].col, Row(A, i)[t].v + Row(B, i)[t].v)
    ensures ColsOf(Row(SpAdd(A, B), i)) == ColsOf(Row(A, i))
  {
    var rs := seq(A.rows, i => Merge(Row(A, i), Row(B, i)));
    FromRowsRows(rs, A.cols);
    SamePatternRows(A, B, i);
    MergeSameCols(Row(A, i), Row(B, i));
  }

  lemma SpAddSameValue(A: Csr, B: Csr, k: int)
    requires Valid(A) && Valid(B) && SamePattern(A, B) && 0 <= k < |A.val|
    requires SamePattern(SpAdd(A, B), A) && Valid(SpAdd(A, B))
    ensures SpAdd(A, B).val[k] == A.val[k] + B.val[k]
  {
    var C := SpAdd(A, B);
    RowOfIndex(A, k, A.rows);
    var i :| 0 <= i < A.rows && A.rowPtr[i] <= k < A.rowPtr[i + 1];
    ValidRow(A, i);
    ValidRow(B, i);
    ValidRow(C, i);
    SpAddSameRow(A, B, i);
    var t := k - A.rowPtr[i];
    assert Row(C, i)[t].v == C.val[k];
  }

  lemma {:induction false} MergeComm(a: seq<Entry>, b: seq<Entry>)
    ensures Merge(a, b) == Merge(b, a)
    decreases |a| + |b|
  {
    if a != [] && b != [] {
      if a[0].col < b[0].col {
        MergeComm(a[1..], b);
      } else if b[0].col < a[0].col {
        MergeComm(a, b[1..]);
      } else {
        MergeComm(a[1..], b[1..]);
      }
    }
  }

  /** `spadd` is commutative on matrices of one size. */
  lemma SpAddComm(A: Csr, B: Csr)
    requires A.rows == B.rows && A.cols == B.cols
    ensures SpAdd(A, B) == SpAdd(B, A)
  {
    forall i | 0 <= i < A.rows ensures Merge(Row(A, i), Row(B, i)) == Merge(Row(B, i), Row(A, i)) {
      MergeComm(Row(A, i), Row(B, i));
    }
    assert seq(A.rows, i => Merge(Row(A, i), Row(B, i))) == seq(B.rows, i => Merge(Row(B, i), Row(A, i)));
  }

  // ---------------------------------------------------------------------------
  // spmv: sparse matrix times dense vector

  /** The sum over the entries of a row of value times f(column). */
  function RowDot(r: seq<Entry>, f: int -> real): real
  {
    if r == [] then 0.0 else r[0].v * f(r[0].col) + RowDot(r[1..], f)
  }

  /** `spmv(A, v)`: y[i] is the sum over the entries (i, j) stored in row i of value * v[j]. */
  function SpMV(A: Csr, v: seq<real>): (y: seq<real>)
    ensures |y| == A.rows
  {
    seq(A.rows, i => RowDot(Row(A, i), k => At(v, k)))
  }

  /** Peeling the first entry off a row's dense dot product. */
  lemma DenseHead(r: seq<Entry>, f: int -> real, n: int)
    requires r != [] && 0 <= r[0].col < n
    ensures Dot(0, n, j => RowGet(r, j), f) == r[0].v * f(r[0].col) + Dot(0, n, j => RowGet(r[1..], j), f)
  {
    var c, x := r[0].col, r[0].v;
    var head := j => if c == j then x else 0.0;
    var tail := j => RowGet(r[1..], j);
    var dense := j => RowGet(r, j);
    DotAddLeft(0, n, head, tail, dense, f);
    DotPoint(0, n, head, f, c);
    ProdCong(head(c), f(c), x, f(c));
  }

  /** A row's sparse dot product equals the dense one over all n columns. */
  lemma {:induction false} RowDotDense(r: seq<Entry>, f: int -> real, n: int)
    requires forall t :: 0 <= t < |r| ==> 0 <= r[t].col < n
    ensures RowDot(r, f) == Dot(0, n, j => RowGet(r, j), f)
    decreases |r|
  {
    if r == [] {
      DotZeroLeft(0, n, j => RowGet(r, j), f);
    } else {
      RowDotDense(r[1..], f, n);
      DenseHead(r, f, n);
    }
  }

  lemma ValidRowInRange(M: Csr, i: int)
    requires Valid(M)
    ensures forall t :: 0 <= t < |Row(M, i)| ==> 0 <= Row(M, i)[t].col < M.cols
  {
    if 0 <= i < M.rows {
      SortedFromBounds(Row(M, i), 0, M.cols);
    }
  }

  /** `spmv` agrees with the dense product: y[i] = sum over j of A[i,j] * v[j]. */
  lemma SpMVGet(A: Csr, v: seq<real>)
    requires Valid(A)
    ensures |SpMV(A, v)| == A.rows
    ensures forall i :: 0 <= i < A.rows ==> SpMV(A, v)[i] == Dot(0, A.cols, j => Get(A, i, j), j => At(v, j))
  {
    forall i | 0 <= i < A.rows ensures SpMV(A, v)[i] == Dot(0, A.cols, j => Get(A, i, j), j => At(v, j)) {
      ValidRowInRange(A, i);
      var f := j => At(v, j);
      RowDotDense(Row(A, i), f, A.cols);
      DotExt(0, A.cols, j => RowGet(Row(A, i), j), f, j => Get(A, i, j), j => At(v, j));
    }
  }

  /** The row sums used by every Laplacian builder: spmv(W, ones)[i] is row i's dense sum. */
  lemma SpMVOnes(W: Csr)
    requires Valid(W)
    ensures |SpMV(W, Ones(W.cols))| == W.rows
    ensures forall i :: 0 <= i < W.rows ==> SpMV(W, Ones(W.cols))[i] == RowSum(W, i)
  {
    SpMVGet(W, Ones(W.cols));
    forall i | 0 <= i < W.rows ensures SpMV(W, Ones(W.cols))[i] == RowSum(W, i) {
      DotOnes(0, W.cols, j => Get(W, i, j), j => At(Ones(W.cols), j));
    }
  }

  // ---------------------------------------------------------------------------
  // transpose

  /** Row j of the transpose from old row i on: the old rows holding column j, in order. */
  function TransposeRow(A: Csr, j: int, i: int): seq<Entry>
    decreases A.rows - i
  {
    if i >= A.rows then []
    else
      var rest := TransposeRow(A, j, i + 1);
      if j in ColSet(Row(A, i)) then [Entry(i, RowGet(Row(A, i), j))] + rest else rest
  }

  /** `transpose(A)`: the cols x rows matrix whose row j lists the old rows storing column j. */
  function Transpose(A: Csr): (T: Csr)
    ensures T.rows == A.cols && T.cols == A.rows
  {
    FromRows(seq(A.cols, j => TransposeRow(A, j, 0)), A.rows)
  }

  lemma {:induction false} TransposeRowSorted(A: Csr, j: int, i: int)
    requires 0 <= i
    ensures SortedFrom(TransposeRow(A, j, i), i, A.rows)
    decreases A.rows - i
  {
    if i < A.rows {
      TransposeRowSorted(A, j, i + 1);
      var rest := TransposeRow(A, j, i + 1);
      if j in ColSet(Row(A, i)) {
        var r := [Entry(i, RowGet(Row(A, i), j))] + rest;
        assert r[1..] == rest;
        assert TransposeRow(A, j, i) == r;
      } else {
        SortedFromWeaken(rest, i + 1, i, A.rows);
        assert TransposeRow(A, j, i) == rest;
      }
    }
  }

  lemma {:induction false} TransposeRowGet(A: Csr, j: int, i: int, c: int)
    ensures RowGet(TransposeRow(A, j, i), c) == if i <= c < A.rows then Get(A, c, j) else 0.0
    ensures c in ColSet(TransposeRow(A, j, i)) <==> i <= c < A.rows && j in ColSet(Row(A, c))
    decreases A.rows - i
  {
    if i < A.rows {
      TransposeRowGet(A, j, i + 1, c);
      var rest := TransposeRow(A, j, i + 1);
      if j in ColSet(Row(A, i)) {
        var e := Entry(i, RowGet(Row(A, i), j));
        var r := [e] + rest;
        assert TransposeRow(A, j, i) == r;
        assert r[0] == e && r[1..] == rest;
        assert RowGet(r, c) == (if i == c then e.v else 0.0) + RowGet(rest, c);
        assert ColSet(r) == {i} + ColSet(rest);
      } else {
        assert TransposeRow(A, j, i) == rest;
        if c == i {
          RowGetOutside(Row(A, i), j);
        }
      }
    }
  }

  /** The transpose of a valid matrix is valid and denotes T[i,j] = A[j,i];
      it stores (i, j) exactly where A stores (j, i). */
  lemma TransposeGet(A: Csr)
    requires Valid(A)
    ensures Valid(Transpose(A))
    ensures forall i, j :: Get(Transpose(A), i, j) == Get(A, j, i)
    ensures forall i, j :: j in ColSet(Row(Transpose(A), i)) <==> i in ColSet(Row(A, j))
  {
    var rs := seq(A.cols, j => TransposeRow(A, j, 0));
    forall j | 0 <= j < A.cols ensures SortedFrom(rs[j], 0, A.rows) {
      TransposeRowSorted(A, j, 0);
    }
    FromRowsValid(rs, A.rows);
    FromRowsRows(rs, A.rows);
    FromRowsGet(rs, A.rows);
    ValidColumns(A);
    forall i, j ensures Get(Transpose(A), i, j) == Get(A, j, i) {
      if 0 <= i < A.cols {
        TransposeRowGet(A, i, 0, j);
        if !(0 <= j < A.rows) {
          ValidGetOutside(A, j, i);
        }
      } else {
        ValidGetOutside(A, j, i);
      }
    }
    forall i, j ensures j in ColSet(Row(Transpose(A), i)) <==> i in ColSet(Row(A, j)) {
      if 0 <= i < A.cols {
        TransposeRowGet(A, i, 0, j);
      } else {
        assert Row(Transpose(A), i) == [];
      }
    }
  }

  // ---------------------------------------------------------------------------
  // spmm: sparse matrix times sparse matrix

  /** The columns a product row can reach: those of the rows of B that a's columns select. */
  function ProdCols(a: seq<Entry>, B: Csr): set<int>
  {
    if a == [] then {} else ColSet(Row(B, a[0].col)) + ProdCols(a[1..], B)
  }

  /** Row a of a product from column j on: every reachable column in increasing
      order, holding the sum over a's entries (k, x) of x * B[k, column]
      (the accumulation of every multiply triple, canonicalised). */
  function ProdRow(a: seq<Entry>, B: Csr, j: nat): seq<Entry>
    decreases B.cols - j
  {
    if j >= B.cols then []
    else
      var rest := ProdRow(a, B, j + 1);
      if j in ProdCols(a, B) then [Entry(j, RowDot(a, k => Get(B, k, j)))] + rest else rest
  }

  /** `spmm(A, B)`: the product, of size (A.rows, B.cols). */
  function SpMM(A: Csr, B: Csr): (C: Csr)
    ensures C.rows == A.rows && C.cols == B.cols
  {
    FromRows(seq(A.rows, i => ProdRow(Row(A, i), B, 0)), B.cols)
  }

  lemma {:induction false} ProdRowSorted(a: seq<Entry>, B: Csr, j: nat)
    ensures SortedFrom(ProdRow(a, B, j), j, B.cols)
    decreases B.cols - j
  {
    if j < B.cols {
      ProdRowSorted(a, B, j + 1);
      var rest := ProdRow(a, B, j + 1);
      if j in ProdCols(a, B) {
        var r := [Entry(j, RowDot(a, k => Get(B, k, j)))] + rest;
        assert r[1..] == rest;
        assert ProdRow(a, B, j) == r;
      } else {
        SortedFromWeaken(rest, j + 1, j, B.cols);
        assert ProdRow(a, B, j) == rest;
      }
    }
  }

  lemma {:induction false} ProdRowGet(a: seq<Entry>, B: Csr, j: nat, c: int)
    ensures RowGet(ProdRow(a, B, j), c)
         == if j <= c < B.cols && c in ProdCols(a, B) then RowDot(a, k => Get(B, k, c)) else 0.0
    ensures c in ColSet(ProdRow(a, B, j)) <==> j <= c < B.cols && c in ProdCols(a, B)
    decreases B.cols - j
  {
    if j < B.cols {
      ProdRowGet(a, B, j + 1, c);
      var rest := ProdRow(a, B, j + 1);
      if j in ProdCols(a, B) {
        var e := Entry(j, RowDot(a, k => Get(B, k, j)));
        var r := [e] + rest;
        assert ProdRow(a, B, j) == r;
        assert r[0] == e && r[1..] == rest;
        assert RowGet(r, c) == (if j == c then e.v else 0.0) + RowGet(rest, c);
        assert ColSet(r) == {j} + ColSet(rest);
      } else {
        assert ProdRow(a, B, j) == rest;
      }
    }
  }

  lemma {:induction false} RowDotZero(a: seq<Entry>, f: int -> real)
    requires forall t :: 0 <= t < |a| ==> f(a[t].col) == 0.0
    ensures RowDot(a, f) == 0.0
    decreases |a|
  {
    if a != [] {
      RowDotZero(a[1..], f);
    }
  }

  lemma {:induction false} ProdColsAbsent(a: seq<Entry>, B: Csr, c: int)
    requires c !in ProdCols(a, B)
    ensures forall t :: 0 <= t < |a| ==> c !in ColSet(Row(B, a[t].col))
    decreases |a|
  {
    if a != [] {
      ProdColsAbsent(a[1..], B, c);
      assert forall t :: 1 <= t < |a| ==> a[t] == a[1..][t - 1];
    }
  }

  /** A column no selected row of B stores gets nothing from the product. */
  lemma ProdUnreached(a: seq<Entry>, B: Csr, c: int)
    requires c !in ProdCols(a, B)
    ensures RowDot(a, k => Get(B, k, c)) == 0.0
  {
    ProdColsAbsent(a, B, c);
    forall t | 0 <= t < |a| ensures Get(B, a[t].col, c) == 0.0 {
      RowGetOutside(Row(B, a[t].col), c);
    }
    RowDotZero(a, k => Get(B, k, c));
  }

  /** `spmm` of valid matrices with A.cols == B.rows is valid and denotes the
      matrix product C[i,j] = sum over k of A[i,k] * B[k,j]; row i stores the
      columns of the rows of B that row i of A selects. */
  lemma SpMMGet(A: Csr, B: Csr)
    requires Valid(A) && Valid(B) && A.cols == B.rows
    ensures Valid(SpMM(A, B))
    ensures forall i, j :: Get(SpMM(A, B), i, j) == Dot(0, A.cols, k => Get(A, i, k), k => Get(B, k, j))
    ensures forall i, j :: 0 <= i < A.rows ==>
      (j in ColSet(Row(SpMM(A, B), i)) <==> 0 <= j < B.cols && j in ProdCols(Row(A, i), B))
  {
    var rs := seq(A.rows, i => ProdRow(Row(A, i), B, 0));
    forall i | 0 <= i < A.rows ensures SortedFrom(rs[i], 0, B.cols) {
      ProdRowSorted(Row(A, i), B, 0);
    }
    FromRowsValid(rs, B.cols);
    FromRowsRows(rs, B.cols);
    forall i, j ensures Get(SpMM(A, B), i, j) == Dot(0, A.cols, k => Get(A, i, k), k => Get(B, k, j)) {
      SpMMGetAt(A, B, i, j);
    }
    forall i, j | 0 <= i < A.rows
      ensures j in ColSet(Row(SpMM(A, B), i)) <==> 0 <= j < B.cols && j in ProdCols(Row(A, i), B)
    {
      ProdRowGet(Row(A, i), B, 0, j);
    }
  }

  lemma SpMMGetAt(A: Csr, B: Csr, i: int, j: int)
    requires Valid(A) && Valid(B) && A.cols == B.rows
    ensures Get(SpMM(A, B), i, j) == Dot(0, A.cols, k => Get(A, i, k), k => Get(B, k, j))
  {
    SpMMRowDot(A, B, i, j);
    DotDense(A, B, i, j);
  }

  lemma SpMMRowDot(A: Csr, B: Csr, i: int, j: int)
    requires Valid(A) && Valid(B)
    ensures Get(SpMM(A, B), i, j) == RowDot(Row(A, i), k => Get(B, k, j))
  {
    var rs := seq(A.rows, i => ProdRow(Row(A, i), B, 0));
    var f := k => Get(B, k, j);
    FromRowsGet(rs, B.cols);
    if 0 <= i < A.rows {
      ProdRowGet(Row(A, i), B, 0, j);
      if !(0 <= j < B.cols) {
        forall k ensures f(k) == 0.0 {
          ValidGetOutside(B, k, j);
        }
        RowDotZero(Row(A, i), f);
      } else if j !in ProdCols(Row(A, i), B) {
        ProdUnreached(Row(A, i), B, j);
      }
    } else {
      assert Row(A, i) == [];
    }
  }

  /** The sparse dot product of row i of A with column j of B is the dense one. */
  lemma DotDense(A: Csr, B: Csr, i: int, j: int)
    requires Valid(A)
    ensures RowDot(Row(A, i), k => Get(B, k, j)) == Dot(0, A.cols, k => Get(A, i, k), k => Get(B, k, j))
  {
    var f := k => Get(B, k, j);
    ValidRowInRange(A, i);
    RowDotDense(Row(A, i), f, A.cols);
    DotExt(0, A.cols, k => RowGet(Row(A, i), k), f, k => Get(A, i, k), k => Get(B, k, j));
  }
}
