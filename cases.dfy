/** The concrete cases of matting/test/test_sparse.py, derived from the
    general lemmas of the model. */
module Examples {
  import opened Sums
  import opened Sparse
  import opened Coo
  import opened SparseOps
  import opened SparseGrad
  import opened MattingSystem

  /** test_coo2csr: COO rows [0, 0, 1, 2, 3] and columns [0, 3, 1, 2, 3] in a
      4×4 matrix give the row pointer [0, 2, 3, 4, 5]. */
  lemma Coo2CsrRowPointer(ri: seq<int>, ci: seq<int>, v: seq<real>)
    requires ri == [0, 0, 1, 2, 3] && ci == [0, 3, 1, 2, 3] && |v| == 5
    ensures FromCoo(ri, ci, v, 4, 4).Ok? && FromCoo(ri, ci, v, 4, 4).value.rowPtr == [0, 2, 3, 4, 5]
  {
    Coo2CsrCounts();
    var rp := FromCoo(ri, ci, v, 4, 4).value.rowPtr;
    assert rp[1] - rp[0] == 2 by { FromCooRowLength(ri, ci, v, 4, 4, 0); }
    assert rp[2] - rp[1] == 1 by { FromCooRowLength(ri, ci, v, 4, 4, 1); }
    assert rp[3] - rp[2] == 1 by { FromCooRowLength(ri, ci, v, 4, 4, 2); }
    assert rp[4] - rp[3] == 1 by { FromCooRowLength(ri, ci, v, 4, 4, 3); }
  }

  /** test_coo2csr: the triplets are already in row order, so the column and
      value arrays come out exactly as given (columns [0, 3, 1, 2, 3], values
      0..4 in the test), each value at its triplet's position. */
  lemma Coo2CsrValues(ri: seq<int>, ci: seq<int>, v: seq<real>)
    requires ri == [0, 0, 1, 2, 3] && ci == [0, 3, 1, 2, 3] && |v| == 5
    ensures FromCoo(ri, ci, v, 4, 4).Ok?
    ensures var M := FromCoo(ri, ci, v, 4, 4).value;
      M.colIdx == [0, 3, 1, 2, 3] && M.val == v
    ensures var M := FromCoo(ri, ci, v, 4, 4).value;
      Get(M, 0, 0) == v[0] && Get(M, 0, 3) == v[1] && Get(M, 1, 1) == v[2] && Get(M, 2, 2) == v[3] && Get(M, 3, 3) == v[4]
  {
    Coo2CsrRows(ri, ci, v);
    Coo2CsrRowPointer(ri, ci, v);
    var M := FromCoo(ri, ci, v, 4, 4).value;
    ValidRow(M, 0);
    ValidRow(M, 1);
    ValidRow(M, 2);
    ValidRow(M, 3);
    assert Row(M, 0)[0] == Entry(M.colIdx[0], M.val[0]) && Row(M, 0)[1] == Entry(M.colIdx[1], M.val[1]);
    assert Row(M, 1)[0] == Entry(M.colIdx[2], M.val[2]);
    assert Row(M, 2)[0] == Entry(M.colIdx[3], M.val[3]);
    assert Row(M, 3)[0] == Entry(M.colIdx[4], M.val[4]);
    assert |M.colIdx| == 5 && |M.val| == 5;
    assert M.colIdx == [0, 3, 1, 2, 3];
    assert M.val == [v[0], v[1], v[2], v[3], v[4]];
    FromCooAt(ri, ci, v, 4, 4, 0);
    FromCooAt(ri, ci, v, 4, 4, 1);
    FromCooAt(ri, ci, v, 4, 4, 2);
    FromCooAt(ri, ci, v, 4, 4, 3);
    FromCooAt(ri, ci, v, 4, 4, 4);
  }

  /** The rows built from the triplets of test_coo2csr, whatever their values. */
  lemma Coo2CsrRows(ri: seq<int>, ci: seq<int>, v: seq<real>)
    requires ri == [0, 0, 1, 2, 3] && ci == [0, 3, 1, 2, 3] && |v| == 5
    ensures FromCoo(ri, ci, v, 4, 4).Ok?
    ensures var A := FromCoo(ri, ci, v, 4, 4).value;
      Row(A, 0) == [Entry(0, v[0]), Entry(3, v[1])] && Row(A, 1) == [Entry(1, v[2])] &&
      Row(A, 2) == [Entry(2, v[3])] && Row(A, 3) == [Entry(3, v[4])]
  {
    Coo2CsrRowPointer(ri, ci, v);
    Coo2CsrCounts();
    var A := FromCoo(ri, ci, v, 4, 4).value;
    FromCooPattern(ri, ci, v, 4, 4);
    forall i, j | 0 <= i < 4 && j in ColSet(Row(A, i)) ensures if i == 0 then j == 0 || j == 3 else j == i {
      LeftTriplet(ri, ci, i, j);
    }
    FromCooAt(ri, ci, v, 4, 4, 0);
    FromCooAt(ri, ci, v, 4, 4, 1);
    FromCooAt(ri, ci, v, 4, 4, 2);
    FromCooAt(ri, ci, v, 4, 4, 3);
    FromCooAt(ri, ci, v, 4, 4, 4);
    RowOfTwo(A, 0, 0, 3, v[0], v[1]);
    RowOfOne(A, 1, 1, v[2]);
    RowOfOne(A, 2, 2, v[3]);
    RowOfOne(A, 3, 3, v[4]);
  }

  lemma Coo2CsrCounts()
    ensures Distinct([0, 0, 1, 2, 3], [0, 3, 1, 2, 3])
    ensures CountRow([0, 0, 1, 2, 3], 0, 5) == 2 && CountRow([0, 0, 1, 2, 3], 1, 5) == 1
    ensures CountRow([0, 0, 1, 2, 3], 2, 5) == 1 && CountRow([0, 0, 1, 2, 3], 3, 5) == 1
  {
  }

  /** test_matrix_vector: A = from_coo(arange(4), arange(4), [0, 1, 2, 3], (4, 5)). */
  lemma MatrixVectorMatrix(vals: seq<real>)
    requires vals == [0.0, 1.0, 2.0, 3.0]
    ensures FromCoo(Range(4), Range(4), vals, 4, 5) == Ok(Diagonal(vals, 4, 5))
    ensures Valid(Diagonal(vals, 4, 5)) && Diagonal(vals, 4, 5).rowPtr == Range(5)
    ensures forall i, j :: Get(Diagonal(vals, 4, 5), i, j) == if 0 <= i < 4 && i == j then vals[i] else 0.0
  {
    FromCooDiagonal(vals, 4, 5);
    DiagonalProps(vals, 4, 5);
  }

  /** test_matrix_vector: A·ones(5) = [0, 1, 2, 3]. */
  lemma MatrixVectorProduct(vals: seq<real>)
    requires vals == [0.0, 1.0, 2.0, 3.0]
    ensures SpMV(FromCoo(Range(4), Range(4), vals, 4, 5).value, Ones(5)) == vals
  {
    MatrixVectorMatrix(vals);
    var A := Diagonal(vals, 4, 5);
    SpMVOnes(A);
    forall i | 0 <= i < 4 ensures SpMV(A, Ones(5))[i] == vals[i] {
      SumPoint(0, 5, j => Get(A, i, j), i);
    }
  }

  /** test_matrix_vector: with upstream gradient ones(4), the gradient with
      respect to v is [0, 1, 2, 3, 0]. */
  lemma MatrixVectorGradVector(vals: seq<real>)
    requires vals == [0.0, 1.0, 2.0, 3.0]
    ensures SpMVGradVector(FromCoo(Range(4), Range(4), vals, 4, 5).value, Ones(4)) == vals + [0.0]
  {
    FromCooDiagonal(vals, 4, 5);
    DiagonalGradVector(vals, 4, 5);
    var dv := SpMVGradVector(Diagonal(vals, 4, 5), Ones(4));
    assert forall j :: 0 <= j < 5 ==> dv[j] == (vals + [0.0])[j];
  }

  /** For a diagonal n × m matrix with entries vals and upstream gradient
      ones(n), the gradient with respect to v is vals padded with zeros. */
  lemma DiagonalGradVector(vals: seq<real>, n: nat, m: nat)
    requires |vals| == n <= m
    ensures forall j :: 0 <= j < m ==> SpMVGradVector(Diagonal(vals, n, m), Ones(n))[j] == At(vals, j)
  {
    DiagonalValid(vals, n, m);
    SpMVGradVectorGet(Diagonal(vals, n, m), Ones(n));
    forall j | 0 <= j < m ensures SpMVGradVector(Diagonal(vals, n, m), Ones(n))[j] == At(vals, j) {
      DiagonalColumnDot(vals, n, m, j);
    }
  }

  /** Column j of a diagonal matrix against ones(n) is its diagonal entry. */
  lemma DiagonalColumnDot(vals: seq<real>, n: nat, m: nat, j: int)
    requires |vals| == n && 0 <= j
    ensures Dot(0, n, i => Get(Diagonal(vals, n, m), i, j), i => At(Ones(n), i)) == At(vals, j)
  {
    DiagonalColumn(vals, n, m, j);
    DotAtPointOne(i => Get(Diagonal(vals, n, m), i, j), i => At(Ones(n), i), n, j, At(vals, j));
  }

  lemma DiagonalColumn(vals: seq<real>, n: nat, m: nat, j: int)
    requires |vals| == n
    ensures forall k :: Get(Diagonal(vals, n, m), k, j) == if 0 <= k < n && k == j then vals[k] else 0.0
  {
    forall k ensures Get(Diagonal(vals, n, m), k, j) == if 0 <= k < n && k == j then vals[k] else 0.0 {
      DiagonalGet(vals, n, m, k, j);
    }
  }

  /** A dot product whose first factor vanishes off j. */
  lemma DotAtPoint(a: int -> real, b: int -> real, n: nat, j: int, x: real, y: real)
    requires forall k :: 0 <= k < n && k != j ==> a(k) == 0.0
    requires 0 <= j < n ==> a(j) == x && b(j) == y
    ensures Dot(0, n, a, b) == if 0 <= j < n then x * y else 0.0
  {
    DotPoint(0, n, a, b, j);
    if 0 <= j < n {
      ProdCong(a(j), b(j), x, y);
    }
  }

  /** DotAtPoint against a second factor that is 1 at j. */
  lemma DotAtPointOne(a: int -> real, b: int -> real, n: nat, j: int, x: real)
    requires forall k :: 0 <= k < n && k != j ==> a(k) == 0.0
    requires 0 <= j < n ==> a(j) == x && b(j) == 1.0
    ensures Dot(0, n, a, b) == if 0 <= j < n then x else 0.0
  {
    DotAtPoint(a, b, n, j, x, 1.0);
  }

  /** test_matrix_vector: the gradient with respect to A's values is [1, 1, 1, 1]. */
  lemma MatrixVectorGradValues(vals: seq<real>)
    requires vals == [0.0, 1.0, 2.0, 3.0]
    ensures SpMVGradValues(FromCoo(Range(4), Range(4), vals, 4, 5).value, Ones(5), Ones(4)) == Ones(4)
  {
    MatrixVectorMatrix(vals);
    var A := Diagonal(vals, 4, 5);
    DiagonalGradValues(A, 4, 5);
  }

  /** For a matrix with one entry per row, on the diagonal, and all-ones v and
      dy, every entry of A's value gradient is 1. */
  lemma DiagonalGradValues(A: Csr, n: nat, m: nat)
    requires Valid(A) && A.rows == n && Nnz(A) == n <= m
    requires A.rowPtr == Range(n + 1) && A.colIdx == Range(n)
    ensures SpMVGradValues(A, Ones(m), Ones(n)) == Ones(n)
  {
    var g := SpMVGradValues(A, Ones(m), Ones(n));
    forall k | 0 <= k < n ensures |g| == n && g[k] == 1.0 {
      assert A.rowPtr[k] == k && A.rowPtr[k + 1] == k + 1 && A.colIdx[k] == k;
      GradValueAt(A, Ones(m), Ones(n), k, k);
      OnesProduct(n, m, k, k);
    }
    SpMVGradValuesAt(A, Ones(m), Ones(n));
    AllOnes(g, n);
  }

  /** One entry of SpMVGradValuesAt. */
  lemma GradValueAt(A: Csr, v: seq<real>, dy: seq<real>, i: int, k: int)
    requires Valid(A) && 0 <= i < A.rows && A.rowPtr[i] <= k < A.rowPtr[i + 1]
    ensures |SpMVGradValues(A, v, dy)| == Nnz(A)
    ensures 0 <= k < Nnz(A) && SpMVGradValues(A, v, dy)[k] == At(dy, i) * At(v, A.colIdx[k])
  {
    SpMVGradValuesAt(A, v, dy);
    assert A.rowPtr[i + 1] <= A.rowPtr[A.rows];
  }

  lemma AllOnes(g: seq<real>, n: nat)
    requires |g| == n && forall k :: 0 <= k < n ==> g[k] == 1.0
    ensures g == Ones(n)
  {
  }

  lemma OnesProduct(n: nat, m: nat, k: int, j: int)
    requires 0 <= k < n && 0 <= j < m
    ensures At(Ones(n), k) * At(Ones(m), j) == 1.0
  {
    ProdCong(At(Ones(n), k), At(Ones(m), j), 1.0, 1.0);
  }

  // ---------------------------------------------------------------------------
  // Products of diagonal matrices (test_multiply_same_sparsity)

  /** A product row whose only reachable column is i holds one entry, at i. */
  lemma {:induction false} ProdRowSingle(a: seq<Entry>, B: Csr, j: nat, i: int)
    requires 0 <= i < B.cols && forall c :: c in ProdCols(a, B) <==> c == i
    ensures ProdRow(a, B, j) == if j <= i then [Entry(i, RowDot(a, k => Get(B, k, i)))] else []
    decreases B.cols - j
  {
    if j < B.cols {
      ProdRowSingle(a, B, j + 1, i);
    }
  }

  /** Row [(i, x)] times a matrix whose row i is [(i, y)]: the single entry (i, x * y). */
  lemma SingleProdRow(x: real, y: real, B: Csr, i: int)
    requires 0 <= i < B.cols && Row(B, i) == [Entry(i, y)]
    ensures ProdRow([Entry(i, x)], B, 0) == [Entry(i, x * y)]
  {
    SingleProdCols(x, y, B, i);
    ProdRowSingle([Entry(i, x)], B, 0, i);
    SingleRowDot(x, y, B, i);
  }

  lemma SingleProdCols(x: real, y: real, B: Csr, i: int)
    requires Row(B, i) == [Entry(i, y)]
    ensures forall c :: c in ProdCols([Entry(i, x)], B) <==> c == i
  {
    var r, rb := [Entry(i, x)], [Entry(i, y)];
    assert r[1..] == [] && rb[1..] == [];
    assert ColSet(rb) == {i};
  }

  lemma SingleRowDot(x: real, y: real, B: Csr, i: int)
    requires Row(B, i) == [Entry(i, y)]
    ensures RowDot([Entry(i, x)], k => Get(B, k, i)) == x * y
  {
    var r, rb := [Entry(i, x)], [Entry(i, y)];
    assert r[1..] == [] && rb[1..] == [];
    assert RowGet(rb, i) == y + RowGet(rb[1..], i);
    assert Get(B, i, i) == y;
    ProdCong(x, Get(B, i, i), x, y);
  }

  /** Row i of A·B when row i of A is [(i, x)] and row i of B is [(i, y)]. */
  lemma ProductRowOfDiagonals(A: Csr, B: Csr, i: int, x: real, y: real)
    requires 0 <= i < A.rows && i < B.cols
    requires Row(A, i) == [Entry(i, x)] && Row(B, i) == [Entry(i, y)]
    ensures Row(SpMM(A, B), i) == [Entry(i, x * y)]
  {
    FromRowsRows(seq(A.rows, i => ProdRow(Row(A, i), B, 0)), B.cols);
    SingleProdRow(x, y, B, i);
  }

  lemma DiagonalProductRow(a: seq<real>, b: seq<real>, n: nat, i: int)
    requires |a| == |b| == n && 0 <= i < n
    ensures Row(SpMM(Diagonal(a, n, n), Diagonal(b, n, n)), i) == Row(Diagonal(ElemMul(a, b), n, n), i)
  {
    ElemDiagonalRow(a, b, n, i);
    ProductOfDiagonalsRow(a, b, n, i);
  }

  lemma ElemDiagonalRow(a: seq<real>, b: seq<real>, n: nat, i: int)
    requires |a| == |b| == n && 0 <= i < n
    ensures Row(Diagonal(ElemMul(a, b), n, n), i) == [Entry(i, a[i] * b[i])]
  {
    DiagonalRow(ElemMul(a, b), n, n, i);
    ElemMulAt(a, b, i);
  }

  lemma ProductOfDiagonalsRow(a: seq<real>, b: seq<real>, n: nat, i: int)
    requires |a| == |b| == n && 0 <= i < n
    ensures Row(SpMM(Diagonal(a, n, n), Diagonal(b, n, n)), i) == [Entry(i, a[i] * b[i])]
  {
    DiagonalRow(a, n, n, i);
    DiagonalRow(b, n, n, i);
    var A, B := Diagonal(a, n, n), Diagonal(b, n, n);
    var x, y := a[i], b[i];
    ProductRowOfDiagonals(A, B, i, x, y);
    assert x * y == a[i] * b[i];
  }

  /** The product of two diagonal matrices is the diagonal matrix of the
      elementwise products. */
  lemma DiagonalProduct(a: seq<real>, b: seq<real>, n: nat)
    requires |a| == |b| == n
    ensures SpMM(Diagonal(a, n, n), Diagonal(b, n, n)) == Diagonal(ElemMul(a, b), n, n)
  {
    DiagonalProps(a, n, n);
    DiagonalProps(b, n, n);
    DiagonalProps(ElemMul(a, b), n, n);
    SpMMGet(Diagonal(a, n, n), Diagonal(b, n, n));
    forall i | 0 <= i < n
      ensures Row(SpMM(Diagonal(a, n, n), Diagonal(b, n, n)), i) == Row(Diagonal(ElemMul(a, b), n, n), i)
    {
      DiagonalProductRow(a, b, n, i);
    }
    SameRowsSameMatrix(SpMM(Diagonal(a, n, n), Diagonal(b, n, n)), Diagonal(ElemMul(a, b), n, n));
  }

  /** For C = A·B with A, B diagonal and the upstream gradient of
      `C.val.sum()`, the gradient of A's values is B's values and that of B's
      values is A's values. */
  lemma DiagonalProductGradients(a: seq<real>, b: seq<real>, n: nat)
    requires |a| == |b| == n
    ensures var A, B := Diagonal(a, n, n), Diagonal(b, n, n);
      SpMMGradA(A, B, OnesLike(SpMM(A, B))) == b && SpMMGradB(A, B, OnesLike(SpMM(A, B))) == a
  {
    var A, B := Diagonal(a, n, n), Diagonal(b, n, n);
    DiagonalProduct(a, b, n);
    assert OnesLike(SpMM(A, B)) == Diagonal(Ones(n), n, n);
    DiagonalGradA(a, b, n);
    DiagonalGradB(a, b, n);
  }

  /** With A, B and dC = I all diagonal, dC·Bᵀ read on A's pattern is b. */
  lemma DiagonalGradA(a: seq<real>, b: seq<real>, n: nat)
    requires |a| == |b| == n
    ensures SpMMGradA(Diagonal(a, n, n), Diagonal(b, n, n), Diagonal(Ones(n), n, n)) == b
  {
    var A, B, I := Diagonal(a, n, n), Diagonal(b, n, n), Diagonal(Ones(n), n, n);
    var g := SpMMGradA(A, B, I);
    DiagonalGradLengths(a, b, n);
    forall t | 0 <= t < n ensures g[t] == b[t] {
      DiagonalGradAAt(a, b, n, t);
    }
  }

  lemma DiagonalGradAAt(a: seq<real>, b: seq<real>, n: nat, t: int)
    requires |a| == |b| == n && 0 <= t < n
    ensures var g := SpMMGradA(Diagonal(a, n, n), Diagonal(b, n, n), Diagonal(Ones(n), n, n));
      |g| == n && g[t] == b[t]
  {
    var A, B, I := Diagonal(a, n, n), Diagonal(b, n, n), Diagonal(Ones(n), n, n);
    DiagonalValid(a, n, n);
    DiagonalValid(Ones(n), n, n);
    assert A.rowPtr[t] == t && A.rowPtr[t + 1] == t + 1 && A.colIdx[t] == t;
    GradAEntry(A, B, I, t, t);
    forall k ensures Get(I, t, k) == if k == t then 1.0 else 0.0 {
      DiagonalGet(Ones(n), n, n, t, k);
    }
    DiagonalGet(b, n, n, t, t);
    DotAtPoint(j => Get(I, t, j), j => Get(B, t, j), n, t, 1.0, b[t]);
  }

  /** One entry of SpMMGradAAt. */
  lemma GradAEntry(A: Csr, B: Csr, dC: Csr, i: int, t: int)
    requires Valid(A) && Valid(dC) && 0 <= i < A.rows && A.rowPtr[i] <= t < A.rowPtr[i + 1]
    ensures |SpMMGradA(A, B, dC)| == Nnz(A) && 0 <= t < Nnz(A)
    ensures SpMMGradA(A, B, dC)[t] == Dot(0, dC.cols, j => Get(dC, i, j), j => Get(B, A.colIdx[t], j))
  {
    SpMMGradAAt(A, B, dC);
    assert A.rowPtr[i + 1] <= A.rowPtr[A.rows];
  }

  lemma DiagonalGradLengths(a: seq<real>, b: seq<real>, n: nat)
    requires |a| == |b| == n
    ensures |SpMMGradA(Diagonal(a, n, n), Diagonal(b, n, n), Diagonal(Ones(n), n, n))| == n
    ensures |SpMMGradB(Diagonal(a, n, n), Diagonal(b, n, n), Diagonal(Ones(n), n, n))| == n
  {
    DiagonalValid(a, n, n);
    DiagonalValid(b, n, n);
    DiagonalValid(Ones(n), n, n);
    SpMMGradAAt(Diagonal(a, n, n), Diagonal(b, n, n), Diagonal(Ones(n), n, n));
    SpMMGradBAt(Diagonal(a, n, n), Diagonal(b, n, n), Diagonal(Ones(n), n, n));
  }

  /** With A, B and dC = I all diagonal, Aᵀ·dC read on B's pattern is a. */
  lemma DiagonalGradB(a: seq<real>, b: seq<real>, n: nat)
    requires |a| == |b| == n
    ensures SpMMGradB(Diagonal(a, n, n), Diagonal(b, n, n), Diagonal(Ones(n), n, n)) == a
  {
    var A, B, I := Diagonal(a, n, n), Diagonal(b, n, n), Diagonal(Ones(n), n, n);
    var g := SpMMGradB(A, B, I);
    DiagonalGradLengths(a, b, n);
    forall t | 0 <= t < n ensures g[t] == a[t] {
      DiagonalGradBAt(a, b, n, t);
    }
  }

  lemma DiagonalGradBAt(a: seq<real>, b: seq<real>, n: nat, t: int)
    requires |a| == |b| == n && 0 <= t < n
    ensures var g := SpMMGradB(Diagonal(a, n, n), Diagonal(b, n, n), Diagonal(Ones(n), n, n));
      |g| == n && g[t] == a[t]
  {
    var A, B, I := Diagonal(a, n, n), Diagonal(b, n, n), Diagonal(Ones(n), n, n);
    DiagonalValid(a, n, n);
    DiagonalValid(b, n, n);
    assert B.rowPtr[t] == t && B.rowPtr[t + 1] == t + 1 && B.colIdx[t] == t;
    GradBEntry(A, B, I, t, t);
    forall k ensures Get(A, k, t) == if k == t then a[t] else 0.0 {
      DiagonalGet(a, n, n, k, t);
    }
    DiagonalGet(Ones(n), n, n, t, t);
    DotAtPoint(i => Get(A, i, t), i => Get(I, i, t), n, t, a[t], 1.0);
  }

  /** One entry of SpMMGradBAt. */
  lemma GradBEntry(A: Csr, B: Csr, dC: Csr, k: int, t: int)
    requires Valid(A) && Valid(B) && 0 <= k < B.rows && B.rowPtr[k] <= t < B.rowPtr[k + 1]
    ensures |SpMMGradB(A, B, dC)| == Nnz(B) && 0 <= t < Nnz(B)
    ensures SpMMGradB(A, B, dC)[t] == Dot(0, A.rows, i => Get(A, i, k), i => Get(dC, i, B.colIdx[t]))
  {
    SpMMGradBAt(A, B, dC);
    assert B.rowPtr[k + 1] <= B.rowPtr[B.rows];
  }

  /** test_multiply_same_sparsity: diag(0, 1, 2, 3)·diag(3, 6, 1, 8) stores
      [0, 6, 2, 24]. */
  lemma MultiplySameSparsity(a: seq<real>, b: seq<real>)
    requires a == [0.0, 1.0, 2.0, 3.0] && b == [3.0, 6.0, 1.0, 8.0]
    ensures FromCoo(Range(4), Range(4), a, 4, 4).Ok? && FromCoo(Range(4), Range(4), b, 4, 4).Ok?
    ensures SpMM(FromCoo(Range(4), Range(4), a, 4, 4).value, FromCoo(Range(4), Range(4), b, 4, 4).value).val
         == [0.0, 6.0, 2.0, 24.0]
  {
    FromCooDiagonal(a, 4, 4);
    FromCooDiagonal(b, 4, 4);
    DiagonalProduct(a, b, 4);
    ElemMulLiterals(a, b);
  }

  lemma ElemMulLiterals(a: seq<real>, b: seq<real>)
    requires a == [0.0, 1.0, 2.0, 3.0] && b == [3.0, 6.0, 1.0, 8.0]
    ensures ElemMul(a, b) == [0.0, 6.0, 2.0, 24.0]
  {
    ElemMulAt(a, b, 0);
    ElemMulAt(a, b, 1);
    ElemMulAt(a, b, 2);
    ElemMulAt(a, b, 3);
  }

  /** test_multiply_same_sparsity: the gradient of A's values is
      [3, 6, 1, 8] and that of B's values is [0, 1, 2, 3]. */
  lemma MultiplySameSparsityGradients(a: seq<real>, b: seq<real>)
    requires a == [0.0, 1.0, 2.0, 3.0] && b == [3.0, 6.0, 1.0, 8.0]
    ensures FromCoo(Range(4), Range(4), a, 4, 4).Ok? && FromCoo(Range(4), Range(4), b, 4, 4).Ok?
    ensures var A, B := FromCoo(Range(4), Range(4), a, 4, 4).value, FromCoo(Range(4), Range(4), b, 4, 4).value;
      SpMMGradA(A, B, OnesLike(SpMM(A, B))) == b && SpMMGradB(A, B, OnesLike(SpMM(A, B))) == a
  {
    FromCooDiagonal(a, 4, 4);
    FromCooDiagonal(b, 4, 4);
    DiagonalProductGradients(a, b, 4);
  }

  /** test_add_same_sparsity: adding from_coo(arange(4), arange(4), [0, 1, 2, 3])
      to itself keeps its row pointer and columns and stores [0, 2, 4, 6]. */
  lemma AddSameSparsity(v: seq<real>)
    requires v == [0.0, 1.0, 2.0, 3.0]
    ensures FromCoo(Range(4), Range(4), v, 4, 4).Ok?
    ensures var A := FromCoo(Range(4), Range(4), v, 4, 4).value;
      SpAdd(A, A).rowPtr == A.rowPtr && SpAdd(A, A).colIdx == A.colIdx && SpAdd(A, A).val == [0.0, 2.0, 4.0, 6.0]
  {
    FromCooDiagonal(v, 4, 4);
    var A := Diagonal(v, 4, 4);
    DiagonalProps(v, 4, 4);
    SpAddSamePattern(A, A);
  }

  /** test_add_different_sparsity: I + B, where B = from_coo([0, 1, 2, 3],
      [1, 1, 2, 3], ones(4)), has row pointer [0, 2, 3, 4, 5], columns
      [0, 1, 1, 2, 3] and values [1, 1, 2, 2, 2]. */
  lemma AddDifferentSparsity(one: seq<real>, ci: seq<int>)
    requires one == [1.0, 1.0, 1.0, 1.0] && ci == [1, 1, 2, 3]
    ensures FromCoo(Range(4), Range(4), one, 4, 4).Ok? && FromCoo(Range(4), ci, one, 4, 4).Ok?
    ensures var C := SpAdd(FromCoo(Range(4), Range(4), one, 4, 4).value, FromCoo(Range(4), ci, one, 4, 4).value);
      C.rowPtr == [0, 2, 3, 4, 5] && C.colIdx == [0, 1, 1, 2, 3] && C.val == [1.0, 1.0, 2.0, 2.0, 2.0]
  {
    FromCooDiagonal(one, 4, 4);
    var A, B := Diagonal(one, 4, 4), FromCoo(Range(4), ci, one, 4, 4).value;
    var D := Csr([0, 2, 3, 4, 5], [0, 1, 1, 2, 3], [1.0, 1.0, 2.0, 2.0, 2.0], 4, 4);
    DiagonalValid(one, 4, 4);
    SpAddGet(A, B);
    AddDifferentRows(D);
    forall i | 0 <= i < 4 ensures Row(SpAdd(A, B), i) == Row(D, i) {
      AddDifferentRow(one, ci, i);
    }
    SameRowsSameMatrix(SpAdd(A, B), D);
  }

  /** Row i of I + B for the matrices of test_add_different_sparsity. */
  lemma AddDifferentRow(one: seq<real>, ci: seq<int>, i: int)
    requires one == [1.0, 1.0, 1.0, 1.0] && ci == [1, 1, 2, 3] && 0 <= i < 4
    requires FromCoo(Range(4), ci, one, 4, 4).Ok?
    ensures Row(SpAdd(Diagonal(one, 4, 4), FromCoo(Range(4), ci, one, 4, 4).value), i)
         == if i == 0 then [Entry(0, 1.0), Entry(1, 1.0)] else [Entry(i, 2.0)]
  {
    var A, B := Diagonal(one, 4, 4), FromCoo(Range(4), ci, one, 4, 4).value;
    DiagonalRow(one, 4, 4, i);
    FromCooOneRow(ci, one, 4, 4, i);
    SpAddRow(A, B, i);
    MergeSingles(Entry(i, 1.0), Entry(ci[i], 1.0));
  }

  /** Row i of spadd(A, B) is the merge of the two rows i. */
  lemma SpAddRow(A: Csr, B: Csr, i: int)
    requires 0 <= i < A.rows
    ensures Row(SpAdd(A, B), i) == Merge(Row(A, i), Row(B, i))
  {
    FromRowsRows(seq(A.rows, i => Merge(Row(A, i), Row(B, i))), A.cols);
  }

  /** Merging two one-entry rows. */
  lemma MergeSingles(x: Entry, y: Entry)
    ensures x.col < y.col ==> Merge([x], [y]) == [x, y]
    ensures x.col == y.col ==> Merge([x], [y]) == [Entry(x.col, x.v + y.v)]
  {
    assert [x][1..] == [] && [y][1..] == [];
  }

  /** The literal matrix expected by test_add_different_sparsity. */
  lemma AddDifferentRows(D: Csr)
    requires D == Csr([0, 2, 3, 4, 5], [0, 1, 1, 2, 3], [1.0, 1.0, 2.0, 2.0, 2.0], 4, 4)
    ensures Valid(D)
    ensures forall i :: 0 <= i < 4 ==>
      Row(D, i) == if i == 0 then [Entry(0, 1.0), Entry(1, 1.0)] else [Entry(i, 2.0)]
  {
    assert Row(D, 0) == [Entry(0, 1.0), Entry(1, 1.0)];
    assert Row(D, 1) == [Entry(1, 2.0)];
    assert Row(D, 2) == [Entry(2, 2.0)];
    assert Row(D, 3) == [Entry(3, 2.0)];
    assert SortedFrom([Entry(0, 1.0), Entry(1, 1.0)], 0, 4) by {
      assert [Entry(0, 1.0), Entry(1, 1.0)][1..] == [Entry(1, 1.0)];
      assert [Entry(1, 1.0)][1..] == [];
    }
    forall i | 1 <= i < 4 ensures SortedFrom([Entry(i, 2.0)], 0, 4) {
      assert [Entry(i, 2.0)][1..] == [];
    }
  }

  /** test_multiply_different_sparsity: A = from_coo([0, 0, 1, 2, 3], [0, 3, 1, 2, 3],
      ones(5)) times B = from_coo([0, 1, 2, 3], [1, 1, 2, 3], ones(4)) has row
      pointer [0, 2, 3, 4, 5], columns [1, 3, 1, 2, 3] and values ones(5). */
  lemma MultiplyDifferentSparsity(ri: seq<int>, ci: seq<int>, one5: seq<real>, cb: seq<int>, one4: seq<real>)
    requires ri == [0, 0, 1, 2, 3] && ci == [0, 3, 1, 2, 3] && one5 == [1.0, 1.0, 1.0, 1.0, 1.0]
    requires cb == [1, 1, 2, 3] && one4 == [1.0, 1.0, 1.0, 1.0]
    ensures FromCoo(ri, ci, one5, 4, 4).Ok? && FromCoo(Range(4), cb, one4, 4, 4).Ok?
    ensures var C := SpMM(FromCoo(ri, ci, one5, 4, 4).value, FromCoo(Range(4), cb, one4, 4, 4).value);
      C.rowPtr == [0, 2, 3, 4, 5] && C.colIdx == [1, 3, 1, 2, 3] && C.val == one5
  {
    MultiplyDifferentLeft(ri, ci, one5);
    MultiplyDifferentRight(cb, one4);
    var A, B := FromCoo(ri, ci, one5, 4, 4).value, FromCoo(Range(4), cb, one4, 4, 4).value;
    ProductOfRows(A, B, Csr([0, 2, 3, 4, 5], [1, 3, 1, 2, 3], one5, 4, 4));
  }

  /** test_multiply_different_sparsity: the gradients of the values of A and B
      have A.nnz = 5 and B.nnz = 4 entries. */
  lemma MultiplyDifferentSparsityGradients(ri: seq<int>, ci: seq<int>, one5: seq<real>, cb: seq<int>, one4: seq<real>)
    requires ri == [0, 0, 1, 2, 3] && ci == [0, 3, 1, 2, 3] && one5 == [1.0, 1.0, 1.0, 1.0, 1.0]
    requires cb == [1, 1, 2, 3] && one4 == [1.0, 1.0, 1.0, 1.0]
    ensures FromCoo(ri, ci, one5, 4, 4).Ok? && FromCoo(Range(4), cb, one4, 4, 4).Ok?
    ensures var A, B := FromCoo(ri, ci, one5, 4, 4).value, FromCoo(Range(4), cb, one4, 4, 4).value;
      |SpMMGradA(A, B, OnesLike(SpMM(A, B)))| == 5 && |SpMMGradB(A, B, OnesLike(SpMM(A, B)))| == 4
  {
    MultiplyDifferentLeft(ri, ci, one5);
    MultiplyDifferentRight(cb, one4);
    var A, B := FromCoo(ri, ci, one5, 4, 4).value, FromCoo(Range(4), cb, one4, 4, 4).value;
    SpMMGradLengths(A, B, OnesLike(SpMM(A, B)));
  }

  /** The rows of A = from_coo([0, 0, 1, 2, 3], [0, 3, 1, 2, 3], ones(5)). */
  lemma MultiplyDifferentLeft(ri: seq<int>, ci: seq<int>, one: seq<real>)
    requires ri == [0, 0, 1, 2, 3] && ci == [0, 3, 1, 2, 3] && one == [1.0, 1.0, 1.0, 1.0, 1.0]
    ensures FromCoo(ri, ci, one, 4, 4).Ok?
    ensures var A := FromCoo(ri, ci, one, 4, 4).value;
      Nnz(A) == 5 &&
      Row(A, 0) == [Entry(0, 1.0), Entry(3, 1.0)] && Row(A, 1) == [Entry(1, 1.0)] &&
      Row(A, 2) == [Entry(2, 1.0)] && Row(A, 3) == [Entry(3, 1.0)]
  {
    Coo2CsrRowPointer(ri, ci, one);
    Coo2CsrRows(ri, ci, one);
  }

  /** The rows of B = from_coo([0, 1, 2, 3], [1, 1, 2, 3], ones(4)). */
  lemma MultiplyDifferentRight(cb: seq<int>, one: seq<real>)
    requires cb == [1, 1, 2, 3] && one == [1.0, 1.0, 1.0, 1.0]
    ensures FromCoo(Range(4), cb, one, 4, 4).Ok?
    ensures var B := FromCoo(Range(4), cb, one, 4, 4).value;
      Nnz(B) == 4 &&
      Row(B, 0) == [Entry(1, 1.0)] && Row(B, 1) == [Entry(1, 1.0)] &&
      Row(B, 2) == [Entry(2, 1.0)] && Row(B, 3) == [Entry(3, 1.0)]
  {
    var B := FromCoo(Range(4), cb, one, 4, 4).value;
    forall i | 0 <= i < 4 ensures Row(B, i) == [Entry(cb[i], one[i])] && B.rowPtr[i + 1] - B.rowPtr[i] == 1 {
      FromCooOneRow(cb, one, 4, 4, i);
      ValidRow(B, i);
    }
    assert B.rowPtr[1] - B.rowPtr[0] == 1 && B.rowPtr[2] - B.rowPtr[1] == 1;
    assert B.rowPtr[3] - B.rowPtr[2] == 1 && B.rowPtr[4] - B.rowPtr[3] == 1;
  }

  /** A valid row i whose row pointer delimits two entries, whose columns
      are among c0 < c1 and whose dense values there are x0 and x1. */
  lemma RowOfTwo(M: Csr, i: int, c0: int, c1: int, x0: real, x1: real)
    requires Valid(M) && 0 <= i < M.rows && M.rowPtr[i + 1] - M.rowPtr[i] == 2 && c0 < c1
    requires forall j :: j in ColSet(Row(M, i)) ==> j == c0 || j == c1
    requires Get(M, i, c0) == x0 && Get(M, i, c1) == x1
    ensures Row(M, i) == [Entry(c0, x0), Entry(c1, x1)]
  {
    var r := Row(M, i);
    ValidRow(M, i);
    ColSetMembers(r);
    SortedFromBounds(r, 0, M.cols);
    assert r[0].col in ColSet(r) && r[1].col in ColSet(r);
    ValidGetStored(M, i, 0);
    ValidGetStored(M, i, 1);
    assert r == [r[0], r[1]];
  }

  /** A valid row i whose row pointer delimits one entry, whose column is c
      and whose dense value there is x. */
  lemma RowOfOne(M: Csr, i: int, c: int, x: real)
    requires Valid(M) && 0 <= i < M.rows && M.rowPtr[i + 1] - M.rowPtr[i] == 1
    requires forall j :: j in ColSet(Row(M, i)) ==> j == c
    requires Get(M, i, c) == x
    ensures Row(M, i) == [Entry(c, x)]
  {
    var r := Row(M, i);
    ValidRow(M, i);
    ColSetMembers(r);
    assert r[0].col in ColSet(r);
    ValidGetStored(M, i, 0);
    assert r == [r[0]];
  }

  /** The positions of the triplets of A in test_multiply_different_sparsity. */
  lemma LeftTriplet(ri: seq<int>, ci: seq<int>, i: int, c: int)
    requires ri == [0, 0, 1, 2, 3] && ci == [0, 3, 1, 2, 3] && InCoo(ri, ci, i, c)
    ensures if i == 0 then c == 0 || c == 3 else c == i
  {
    var k :| 0 <= k < |ri| && Match(ri, ci, k, i, c);
    assert k == 0 || k == 1 || k == 2 || k == 3 || k == 4;
  }

  /** The product of the two matrices of test_multiply_different_sparsity, given by their rows. */
  lemma ProductOfRows(A: Csr, B: Csr, D: Csr)
    requires Valid(A) && Valid(B) && A.rows == 4 && A.cols == 4 && B.rows == 4 && B.cols == 4
    requires Row(A, 0) == [Entry(0, 1.0), Entry(3, 1.0)] && Row(A, 1) == [Entry(1, 1.0)]
    requires Row(A, 2) == [Entry(2, 1.0)] && Row(A, 3) == [Entry(3, 1.0)]
    requires Row(B, 0) == [Entry(1, 1.0)] && Row(B, 1) == [Entry(1, 1.0)]
    requires Row(B, 2) == [Entry(2, 1.0)] && Row(B, 3) == [Entry(3, 1.0)]
    requires D == Csr([0, 2, 3, 4, 5], [1, 3, 1, 2, 3], [1.0, 1.0, 1.0, 1.0, 1.0], 4, 4)
    ensures SpMM(A, B) == D
  {
    SpMMGet(A, B);
    MultiplyDifferentRows(D);
    SpMMRow(A, B, 0);
    MultiplyDifferentFirstRow(Row(A, 0), B);
    SpMMRow(A, B, 1);
    ProductRowOfDiagonals(A, B, 1, 1.0, 1.0);
    SpMMRow(A, B, 2);
    ProductRowOfDiagonals(A, B, 2, 1.0, 1.0);
    SpMMRow(A, B, 3);
    ProductRowOfDiagonals(A, B, 3, 1.0, 1.0);
    SameRowsSameMatrix(SpMM(A, B), D);
  }

  /** Row i of spmm(A, B) is the product row of A's row i. */
  lemma SpMMRow(A: Csr, B: Csr, i: int)
    requires 0 <= i < A.rows
    ensures Row(SpMM(A, B), i) == ProdRow(Row(A, i), B, 0)
  {
    FromRowsRows(seq(A.rows, i => ProdRow(Row(A, i), B, 0)), B.cols);
  }

  /** Row 0 of the product in test_multiply_different_sparsity. */
  lemma MultiplyDifferentFirstRow(a: seq<Entry>, B: Csr)
    requires a == [Entry(0, 1.0), Entry(3, 1.0)]
    requires B.cols == 4 && Row(B, 0) == [Entry(1, 1.0)] && Row(B, 3) == [Entry(3, 1.0)]
    ensures ProdRow(a, B, 0) == [Entry(1, 1.0), Entry(3, 1.0)]
  {
    assert a[1..] == [Entry(3, 1.0)] && a[1..][1..] == [];
    assert ColSet(Row(B, 0)) == {1} by { assert Row(B, 0)[1..] == []; }
    assert ColSet(Row(B, 3)) == {3} by { assert Row(B, 3)[1..] == []; }
    assert ProdCols(a[1..], B) == {3};
    assert ProdCols(a, B) == {1, 3};
    SingleGet(B, 0, Entry(1, 1.0));
    SingleGet(B, 3, Entry(3, 1.0));
    PairRowDot(a, k => Get(B, k, 1));
    PairRowDot(a, k => Get(B, k, 3));
    assert ProdRow(a, B, 4) == [];
    assert ProdRow(a, B, 3) == [Entry(3, 1.0)];
    assert ProdRow(a, B, 2) == [Entry(3, 1.0)];
    assert ProdRow(a, B, 1) == [Entry(1, 1.0), Entry(3, 1.0)];
  }

  lemma SingleGet(B: Csr, k: int, e: Entry)
    requires Row(B, k) == [e]
    ensures forall c :: Get(B, k, c) == if c == e.col then e.v else 0.0
  {
    forall c ensures Get(B, k, c) == if c == e.col then e.v else 0.0 {
      assert Row(B, k)[1..] == [];
      assert RowGet(Row(B, k)[1..], c) == 0.0;
    }
  }

  lemma PairRowDot(a: seq<Entry>, f: int -> real)
    requires a == [Entry(0, 1.0), Entry(3, 1.0)]
    ensures RowDot(a, f) == f(0) + f(3)
  {
    assert a[1..] == [Entry(3, 1.0)] && a[1..][1..] == [];
    assert RowDot(a[1..][1..], f) == 0.0;
    assert RowDot(a[1..], f) == 1.0 * f(3);
    assert RowDot(a, f) == 1.0 * f(0) + 1.0 * f(3);
  }

  /** The literal matrix expected by test_multiply_different_sparsity. */
  lemma MultiplyDifferentRows(D: Csr)
    requires D == Csr([0, 2, 3, 4, 5], [1, 3, 1, 2, 3], [1.0, 1.0, 1.0, 1.0, 1.0], 4, 4)
    ensures Valid(D)
    ensures Row(D, 0) == [Entry(1, 1.0), Entry(3, 1.0)] && Row(D, 1) == [Entry(1, 1.0)]
    ensures Row(D, 2) == [Entry(2, 1.0)] && Row(D, 3) == [Entry(3, 1.0)]
  {
    assert Row(D, 0) == [Entry(1, 1.0), Entry(3, 1.0)];
    assert Row(D, 1) == [Entry(1, 1.0)];
    assert Row(D, 2) == [Entry(2, 1.0)];
    assert Row(D, 3) == [Entry(3, 1.0)];
    assert SortedFrom([Entry(1, 1.0), Entry(3, 1.0)], 0, 4) by {
      assert [Entry(1, 1.0), Entry(3, 1.0)][1..] == [Entry(3, 1.0)];
      assert [Entry(3, 1.0)][1..] == [];
    }
    forall i | 1 <= i < 4 ensures SortedFrom([Entry(i, 1.0)], 0, 4) {
      assert [Entry(i, 1.0)][1..] == [];
    }
  }
}
