/** The adjoint (gradient) rules of the sparse kernels, as explicit
    functions: the backward pass of `spmv` with respect to the vector and to
    the stored values, of `spadd` with respect to the values of each operand,
    and of `spmm` with respect to the values of each factor (gradients are
    kept only on the operand's own pattern). */
module SparseGrad {
  import opened Sums
  import opened Sparse
  import opened SparseOps

  // ---------------------------------------------------------------------------
  // spmv backward with respect to v

  /** The gradient of `spmv(A, v)` with respect to v for upstream gradient dy:
      the product of the transpose of A with dy. */
  function SpMVGradVector(A: Csr, dy: seq<real>): (dv: seq<real>)
    ensures |dv| == A.cols
  {
    SpMV(Transpose(A), dy)
  }

  /** dv[j] is the sum, over the stored entries of column j, of the value
      times dy at the entry's row. */
  lemma SpMVGradVectorGet(A: Csr, dy: seq<real>)
    requires Valid(A)
    ensures forall j :: 0 <= j < A.cols ==>
      SpMVGradVector(A, dy)[j] == Dot(0, A.rows, i => Get(A, i, j), i => At(dy, i))
  {
    var T := Transpose(A);
    TransposeGet(A);
    SpMVGet(T, dy);
    forall j | 0 <= j < A.cols
      ensures SpMVGradVector(A, dy)[j] == Dot(0, A.rows, i => Get(A, i, j), i => At(dy, i))
    {
      DotExt(0, A.rows, i => Get(T, j, i), i => At(dy, i), i => Get(A, i, j), i => At(dy, i));
    }
  }

  // ---------------------------------------------------------------------------
  // Gradients with respect to stored values: one value per stored entry

  /** Row r of row index i with every value replaced by f(i, column). */
  function MapRow(r: seq<Entry>, i: int, f: (int, int) -> real): seq<Entry>
  {
    seq(|r|, t requires 0 <= t < |r| => Entry(r[t].col, f(i, r[t].col)))
  }

  /** M's pattern carrying the values f(i, j) at its stored positions. */
  function OnPattern(M: Csr, f: (int, int) -> real): Csr
  {
    FromRows(seq(M.rows, i => MapRow(Row(M, i), i, f)), M.cols)
  }

  lemma {:induction false} SortedSameCols(a: seq<Entry>, b: seq<Entry>, lo: int, n: int)
    requires ColsOf(a) == ColsOf(b) && SortedFrom(a, lo, n)
    ensures SortedFrom(b, lo, n)
    decreases |a|
  {
    assert |a| == |ColsOf(a)| == |ColsOf(b)| == |b|;
    if a != [] {
      assert a[0].col == ColsOf(a)[0] == ColsOf(b)[0] == b[0].col;
      assert ColsOf(a[1..]) == ColsOf(a)[1..];
      assert ColsOf(b[1..]) == ColsOf(b)[1..];
      SortedSameCols(a[1..], b[1..], a[0].col + 1, n);
    }
  }

  /** The value array of OnPattern(M, f) has one entry per stored entry of M:
      f at that entry's row and column. */
  lemma OnPatternProps(M: Csr, f: (int, int) -> real)
    requires Valid(M)
    ensures Valid(OnPattern(M, f)) && SamePattern(OnPattern(M, f), M)
    ensures |OnPattern(M, f).val| == Nnz(M)
    ensures forall i, k :: 0 <= i < M.rows && M.rowPtr[i] <= k < M.rowPtr[i + 1] ==>
      OnPattern(M, f).val[k] == f(i, M.colIdx[k])
  {
    var rs := seq(M.rows, i => MapRow(Row(M, i), i, f));
    forall i | 0 <= i < M.rows ensures ColsOf(rs[i]) == ColsOf(Row(M, i)) {
    }
    forall i | 0 <= i < M.rows ensures SortedFrom(rs[i], 0, M.cols) {
      SortedSameCols(Row(M, i), rs[i], 0, M.cols);
    }
    FromRowsValid(rs, M.cols);
    KeepPatternOfRows(M, rs);
    forall i, k | 0 <= i < M.rows && M.rowPtr[i] <= k < M.rowPtr[i + 1]
      ensures OnPattern(M, f).val[k] == f(i, M.colIdx[k])
    {
      OnPatternValue(M, f, i, k);
    }
  }

  lemma OnPatternValue(M: Csr, f: (int, int) -> real, i: int, k: int)
    requires Valid(M) && Valid(OnPattern(M, f)) && SamePattern(OnPattern(M, f), M)
    requires 0 <= i < M.rows && M.rowPtr[i] <= k < M.rowPtr[i + 1]
    ensures OnPattern(M, f).val[k] == f(i, M.colIdx[k])
  {
    var P := OnPattern(M, f);
    OnPatternRow(M, f, i);
    RowEntryAt(M, i, k);
    RowEntryAt(P, i, k);
    var t := k - M.rowPtr[i];
    assert Row(P, i)[t] == MapRow(Row(M, i), i, f)[t];
  }

  lemma OnPatternRow(M: Csr, f: (int, int) -> real, i: int)
    requires 0 <= i < M.rows
    ensures Row(OnPattern(M, f), i) == MapRow(Row(M, i), i, f)
  {
    var rs := seq(M.rows, i => MapRow(Row(M, i), i, f));
    FromRowsRows(rs, M.cols);
  }

  /** dy[i] * v[j], the outer product read at (i, j). */
  function Outer(dy: seq<real>, v: seq<real>, i: int, j: int): real
  {
    At(dy, i) * At(v, j)
  }

  /** The gradient of `spmv(A, v)` with respect to A's values: dval[k] = dy[row k] * v[col k]. */
  function SpMVGradValues(A: Csr, v: seq<real>, dy: seq<real>): seq<real>
  {
    OnPattern(A, (i, j) => Outer(dy, v, i, j)).val
  }

  lemma SpMVGradValuesAt(A: Csr, v: seq<real>, dy: seq<real>)
    requires Valid(A)
    ensures |SpMVGradValues(A, v, dy)| == Nnz(A)
    ensures forall i, k :: 0 <= i < A.rows && A.rowPtr[i] <= k < A.rowPtr[i + 1] ==>
      SpMVGradValues(A, v, dy)[k] == At(dy, i) * At(v, A.colIdx[k])
  {
    OnPatternProps(A, (i, j) => Outer(dy, v, i, j));
  }

  /** The upstream gradient of `C.val.sum()`: ones on C's pattern. */
  function OnesLike(C: Csr): Csr
  {
    C.(val := Ones(|C.val|))
  }

  // ---------------------------------------------------------------------------
  // spadd backward: C = A + B holds each stored value of either operand with
  // unit weight, so each operand's gradient is dC read on its own pattern

  /** The gradient of `spadd` with respect to the values of the operand M
      (A or B) for upstream gradient dC. */
  function SpAddGrad(M: Csr, dC: Csr): seq<real>
  {
    OnPattern(M, (i, j) => Get(dC, i, j)).val
  }

  /** At A's stored entry k in row i the sum holds A.val[k] plus what B holds
      there, and A's gradient is dC at that position; likewise for B. */
  lemma SpAddGradAt(A: Csr, B: Csr, dC: Csr)
    requires Valid(A) && Valid(B) && A.rows == B.rows && A.cols == B.cols
    ensures |SpAddGrad(A, dC)| == Nnz(A) && |SpAddGrad(B, dC)| == Nnz(B)
    ensures forall i, k :: 0 <= i < A.rows && A.rowPtr[i] <= k < A.rowPtr[i + 1] ==>
      Get(SpAdd(A, B), i, A.colIdx[k]) == A.val[k] + Get(B, i, A.colIdx[k]) &&
      SpAddGrad(A, dC)[k] == Get(dC, i, A.colIdx[k])
    ensures forall i, k :: 0 <= i < B.rows && B.rowPtr[i] <= k < B.rowPtr[i + 1] ==>
      Get(SpAdd(A, B), i, B.colIdx[k]) == Get(A, i, B.colIdx[k]) + B.val[k] &&
      SpAddGrad(B, dC)[k] == Get(dC, i, B.colIdx[k])
  {
    SpAddGet(A, B);
    SpAddGradOperand(A, dC);
    SpAddGradOperand(B, dC);
  }

  /** One operand's side of SpAddGradAt: its gradient value and its own value
      at each stored entry. */
  lemma SpAddGradOperand(M: Csr, dC: Csr)
    requires Valid(M)
    ensures |SpAddGrad(M, dC)| == Nnz(M)
    ensures forall i, k :: 0 <= i < M.rows && M.rowPtr[i] <= k < M.rowPtr[i + 1] ==>
      Get(M, i, M.colIdx[k]) == M.val[k] && SpAddGrad(M, dC)[k] == Get(dC, i, M.colIdx[k])
  {
    OnPatternProps(M, (i, j) => Get(dC, i, j));
    ValidGetIndexed(M);
  }

  // ---------------------------------------------------------------------------
  // spmm backward: for C = A·B and upstream gradient dC, the gradient of A's
  // values is dC·Bᵀ and that of B's values is Aᵀ·dC, each read on the
  // factor's own pattern.

  /** Row i of dC against row k of B: the sparse dot product that gives the
      gradient at A's stored entry (i, k). */
  function GradAAt(dC: Csr, B: Csr, i: int, k: int): real
  {
    RowDot(Row(dC, i), j => Get(B, k, j))
  }

  /** Row k of Aᵀ against column j of dC: the gradient at B's stored entry (k, j). */
  function GradBAt(A: Csr, dC: Csr, k: int, j: int): real
  {
    RowDot(Row(Transpose(A), k), i => Get(dC, i, j))
  }

  function SpMMGradA(A: Csr, B: Csr, dC: Csr): seq<real>
  {
    OnPattern(A, (i, k) => GradAAt(dC, B, i, k)).val
  }

  function SpMMGradB(A: Csr, B: Csr, dC: Csr): seq<real>
  {
    OnPattern(B, (k, j) => GradBAt(A, dC, k, j)).val
  }

  /** The A-gradient at (i, k) is the sum over j of dC[i,j] * B[k,j]. */
  lemma GradAAtDense(dC: Csr, B: Csr, i: int, k: int)
    requires Valid(dC)
    ensures GradAAt(dC, B, i, k) == Dot(0, dC.cols, j => Get(dC, i, j), j => Get(B, k, j))
  {
    var f := j => Get(B, k, j);
    ValidRowInRange(dC, i);
    RowDotDense(Row(dC, i), f, dC.cols);
    DotExt(0, dC.cols, j => RowGet(Row(dC, i), j), f, j => Get(dC, i, j), j => Get(B, k, j));
  }

  /** The B-gradient at (k, j) is the sum over i of A[i,k] * dC[i,j]. */
  lemma GradBAtDense(A: Csr, dC: Csr, k: int, j: int)
    requires Valid(A)
    ensures GradBAt(A, dC, k, j) == Dot(0, A.rows, i => Get(A, i, k), i => Get(dC, i, j))
  {
    var T := Transpose(A);
    var f := i => Get(dC, i, j);
    TransposeGet(A);
    ValidRowInRange(T, k);
    RowDotDense(Row(T, k), f, A.rows);
    DotExt(0, A.rows, i => RowGet(Row(T, k), i), f, i => Get(A, i, k), i => Get(dC, i, j));
  }

  /** One gradient value per stored entry of A; at a stored (i, k) it is
      the sum over j of dC[i,j] * B[k,j]. */
  lemma SpMMGradAAt(A: Csr, B: Csr, dC: Csr)
    requires Valid(A) && Valid(dC)
    ensures |SpMMGradA(A, B, dC)| == Nnz(A)
    ensures forall i, t :: 0 <= i < A.rows && A.rowPtr[i] <= t < A.rowPtr[i + 1] ==>
      SpMMGradA(A, B, dC)[t] == Dot(0, dC.cols, j => Get(dC, i, j), j => Get(B, A.colIdx[t], j))
  {
    OnPatternProps(A, (i, k) => GradAAt(dC, B, i, k));
    forall i, t | 0 <= i < A.rows && A.rowPtr[i] <= t < A.rowPtr[i + 1]
      ensures SpMMGradA(A, B, dC)[t] == Dot(0, dC.cols, j => Get(dC, i, j), j => Get(B, A.colIdx[t], j))
    {
      GradAAtDense(dC, B, i, A.colIdx[t]);
    }
  }

  /** One gradient value per stored entry of B; at a stored (k, j) it is
      the sum over i of A[i,k] * dC[i,j]. */
  lemma SpMMGradBAt(A: Csr, B: Csr, dC: Csr)
    requires Valid(A) && Valid(B)
    ensures |SpMMGradB(A, B, dC)| == Nnz(B)
    ensures forall k, t :: 0 <= k < B.rows && B.rowPtr[k] <= t < B.rowPtr[k + 1] ==>
      SpMMGradB(A, B, dC)[t] == Dot(0, A.rows, i => Get(A, i, k), i => Get(dC, i, B.colIdx[t]))
  {
    OnPatternProps(B, (k, j) => GradBAt(A, dC, k, j));
    forall k, t | 0 <= k < B.rows && B.rowPtr[k] <= t < B.rowPtr[k + 1]
      ensures SpMMGradB(A, B, dC)[t] == Dot(0, A.rows, i => Get(A, i, k), i => Get(dC, i, B.colIdx[t]))
    {
      GradBAtDense(A, dC, k, B.colIdx[t]);
    }
  }

  /** Whatever the upstream gradient, each factor of a product receives one
      gradient value per stored entry. */
  lemma SpMMGradLengths(A: Csr, B: Csr, dC: Csr)
    requires Valid(A) && Valid(B)
    ensures |SpMMGradA(A, B, dC)| == Nnz(A) && |SpMMGradB(A, B, dC)| == Nnz(B)
  {
    OnPatternProps(A, (i, k) => GradAAt(dC, B, i, k));
    OnPatternProps(B, (k, j) => GradBAt(A, dC, k, j));
  }
}
