/** The three matrix constructions that the builders of `MattingSystem`
    (matting/modules.py) share: the graph Laplacian diag(rowsum(W)) − W, the
    symmetrisation 0.5·(W + Wᵀ) and the Gram product Lᵀ·L. */
module Laplacian {
  import opened Sums
  import opened Sparse
  import opened Coo
  import opened SparseOps

  /** diag(rowsum(W)) − W for an N×N matrix W, in the source's steps: the row
      sums are spmv(W, ones(N)); `W.mul_(-1)` negates W; the diagonal is
      `from_coo(arange(N), arange(N), row_sum, (N, N))`; the two are added. */
  function GraphLaplacian(W: Csr, N: nat): Result<Csr>
  {
    var rowSum := SpMV(W, Ones(N));
    var diag :- FromCoo(Range(N), Range(N), rowSum, N, N);
    Ok(SpAdd(diag, Scale(W, -1.0)))
  }

  /** The diagonal step of GraphLaplacian never fails and builds diag(rowsum(W)). */
  lemma RowSumDiagonal(W: Csr, N: nat)
    requires Valid(W) && W.rows == N && W.cols == N
    ensures FromCoo(Range(N), Range(N), SpMV(W, Ones(N)), N, N) == Ok(Diagonal(SpMV(W, Ones(N)), N, N))
    ensures Valid(Diagonal(SpMV(W, Ones(N)), N, N))
    ensures forall i, j :: Get(Diagonal(SpMV(W, Ones(N)), N, N), i, j)
                        == if 0 <= i < N && i == j then RowSum(W, i) else 0.0
  {
    var rowSum := SpMV(W, Ones(N));
    SpMVOnes(W);
    FromCooDiagonal(rowSum, N, N);
    DiagonalProps(rowSum, N, N);
  }

  /** The Laplacian of a valid N×N matrix is a valid N×N matrix holding
      rowsum(W)[i] on the diagonal minus W. */
  lemma GraphLaplacianGet(W: Csr, N: nat)
    requires Valid(W) && W.rows == N && W.cols == N
    ensures GraphLaplacian(W, N).Ok?
    ensures Valid(GraphLaplacian(W, N).value)
    ensures GraphLaplacian(W, N).value.rows == N && GraphLaplacian(W, N).value.cols == N
    ensures forall i, j :: Get(GraphLaplacian(W, N).value, i, j)
                        == (if 0 <= i < N && i == j then RowSum(W, i) else 0.0) - Get(W, i, j)
  {
    var D := Diagonal(SpMV(W, Ones(N)), N, N);
    RowSumDiagonal(W, N);
    ScaleGet(W, -1.0);
    SpAddGet(D, Scale(W, -1.0));
  }

  /** Every row of the Laplacian sums to zero. */
  lemma GraphLaplacianRowSums(W: Csr, N: nat)
    requires Valid(W) && W.rows == N && W.cols == N
    ensures GraphLaplacian(W, N).Ok?
    ensures forall i :: 0 <= i < N ==> RowSum(GraphLaplacian(W, N).value, i) == 0.0
  {
    GraphLaplacianGet(W, N);
    var L := GraphLaplacian(W, N).value;
    forall i | 0 <= i < N ensures RowSum(L, i) == 0.0 {
      var d := j => if 0 <= i < N && i == j then RowSum(W, i) else 0.0;
      var w := j => Get(W, i, j);
      var negW := j => -1.0 * Get(W, i, j);
      SumPoint(0, N, d, i);
      SumScale(0, N, w, negW, -1.0);
      SumAdd(0, N, d, negW, j => Get(L, i, j));
    }
  }

  /** The Laplacian of a symmetric matrix is symmetric. */
  lemma GraphLaplacianSymmetric(W: Csr, N: nat)
    requires Valid(W) && W.rows == N && W.cols == N && Symmetric(W)
    ensures GraphLaplacian(W, N).Ok? && Symmetric(GraphLaplacian(W, N).value)
  {
    GraphLaplacianGet(W, N);
  }

  /** Left-multiplying by a diagonal matrix scales row i by its weight
      (`spmm(diag, Wcm)` in `_color_mixture`). */
  lemma DiagonalTimes(vals: seq<real>, n: nat, W: Csr)
    requires |vals| == n && Valid(W) && W.rows == n
    ensures Valid(SpMM(Diagonal(vals, n, n), W))
    ensures SpMM(Diagonal(vals, n, n), W).rows == n && SpMM(Diagonal(vals, n, n), W).cols == W.cols
    ensures forall i, j :: Get(SpMM(Diagonal(vals, n, n), W), i, j)
                        == if 0 <= i < n then At(vals, i) * Get(W, i, j) else 0.0
  {
    DiagonalProps(vals, n, n);
    ScaledRows(Diagonal(vals, n, n), vals, n, W);
  }

  /** The same for any valid n×n matrix holding vals on its diagonal and zero elsewhere. */
  lemma ScaledRows(D: Csr, vals: seq<real>, n: nat, W: Csr)
    requires |vals| == n && Valid(W) && W.rows == n
    requires Valid(D) && D.rows == n && D.cols == n
    requires forall i, j :: Get(D, i, j) == if 0 <= i < n && i == j then vals[i] else 0.0
    ensures Valid(SpMM(D, W)) && SpMM(D, W).rows == n && SpMM(D, W).cols == W.cols
    ensures forall i, j :: Get(SpMM(D, W), i, j) == if 0 <= i < n then At(vals, i) * Get(W, i, j) else 0.0
  {
    SpMMGet(D, W);
    forall i, j ensures Get(SpMM(D, W), i, j) == if 0 <= i < n then At(vals, i) * Get(W, i, j) else 0.0 {
      ScaledEntry(D, vals, n, W, i, j);
    }
  }

  lemma ScaledEntry(D: Csr, vals: seq<real>, n: nat, W: Csr, i: int, j: int)
    requires |vals| == n && Valid(W) && W.rows == n
    requires Valid(D) && D.rows == n && D.cols == n
    requires forall i, j :: Get(D, i, j) == if 0 <= i < n && i == j then vals[i] else 0.0
    ensures Get(SpMM(D, W), i, j) == if 0 <= i < n then At(vals, i) * Get(W, i, j) else 0.0
  {
    SpMMGetAt(D, W, i, j);
    if 0 <= i < n {
      UnitRowDot(D, vals, n, W, i, j);
    } else {
      DotZeroLeft(0, n, k => Get(D, i, k), k => Get(W, k, j));
    }
  }

  /** A row of D holding vals[i] at column i and zeros elsewhere picks
      vals[i] * W[i, j] out of column j of W. */
  lemma UnitRowDot(D: Csr, vals: seq<real>, n: nat, W: Csr, i: int, j: int)
    requires 0 <= i < n
    requires Get(D, i, i) == At(vals, i)
    requires forall k :: k != i ==> Get(D, i, k) == 0.0
    ensures Dot(0, n, k => Get(D, i, k), k => Get(W, k, j)) == At(vals, i) * Get(W, i, j)
  {
    PointDot(n, k => Get(D, i, k), k => Get(W, k, j), i, At(vals, i), Get(W, i, j));
  }

  lemma PointDot(n: nat, a: int -> real, b: int -> real, i: int, d: real, x: real)
    requires 0 <= i < n
    requires forall k :: 0 <= k < n && k != i ==> a(k) == 0.0
    requires a(i) == d && b(i) == x
    ensures Dot(0, n, a, b) == d * x
  {
    DotPoint(0, n, a, b, i);
    ProdCong(a(i), b(i), d, x);
  }

  /** `spadd(W, transpose(W))` followed by `mul_(0.5)`. */
  function Symmetrize(W: Csr): Csr
  {
    Scale(SpAdd(W, Transpose(W)), 0.5)
  }

  /** 0.5·(W + Wᵀ) of a valid square matrix is valid, of the same size,
      symmetric, and holds the mean of W[i,j] and W[j,i]. */
  lemma SymmetrizeGet(W: Csr)
    requires Valid(W) && W.rows == W.cols
    ensures Valid(Symmetrize(W))
    ensures Symmetrize(W).rows == W.rows && Symmetrize(W).cols == W.cols
    ensures forall i, j :: Get(Symmetrize(W), i, j) == 0.5 * (Get(W, i, j) + Get(W, j, i))
    ensures Symmetric(Symmetrize(W))
  {
    TransposeGet(W);
    SpAddGet(W, Transpose(W));
    ScaleGet(SpAdd(W, Transpose(W)), 0.5);
  }

  /** `spmm(transpose(L), L)`. */
  function Gram(L: Csr): Csr
  {
    SpMM(Transpose(L), L)
  }

  /** Lᵀ·L of a valid square matrix is valid, of the same size, and holds at
      (i, j) the dot product of columns i and j of L. */
  lemma GramGet(L: Csr)
    requires Valid(L) && L.rows == L.cols
    ensures Valid(Gram(L)) && Gram(L).rows == L.rows && Gram(L).cols == L.cols
    ensures forall i, j :: Get(Gram(L), i, j) == Dot(0, L.rows, k => Get(L, k, i), k => Get(L, k, j))
  {
    var T := Transpose(L);
    TransposeGet(L);
    SpMMGet(T, L);
    forall i, j ensures Get(Gram(L), i, j) == Dot(0, L.rows, k => Get(L, k, i), k => Get(L, k, j)) {
      DotExt(0, L.rows, k => Get(T, i, k), k => Get(L, k, j), k => Get(L, k, i), k => Get(L, k, j));
    }
  }

  /** Lᵀ·L is symmetric. */
  lemma GramSymmetric(L: Csr)
    requires Valid(L) && L.rows == L.cols
    ensures Symmetric(Gram(L))
  {
    GramGet(L);
    forall i, j ensures Get(Gram(L), i, j) == Get(Gram(L), j, i) {
      DotComm(0, L.rows, k => Get(L, k, i), k => Get(L, k, j));
    }
  }

  /** When every row of L sums to zero, so does every row of Lᵀ·L. */
  lemma GramRowSums(L: Csr)
    requires Valid(L) && L.rows == L.cols
    requires forall k :: 0 <= k < L.rows ==> RowSum(L, k) == 0.0
    ensures forall i :: 0 <= i < L.rows ==> RowSum(Gram(L), i) == 0.0
  {
    GramGet(L);
    forall i | 0 <= i < L.rows ensures RowSum(Gram(L), i) == 0.0 {
      GramRowSum(L, i);
    }
  }

  lemma GramRowSum(L: Csr, i: int)
    requires Valid(L) && L.rows == L.cols
    requires forall k :: 0 <= k < L.rows ==> RowSum(L, k) == 0.0
    requires forall j :: Get(Gram(L), i, j) == Dot(0, L.rows, k => Get(L, k, i), k => Get(L, k, j))
    requires Gram(L).cols == L.cols
    ensures RowSum(Gram(L), i) == 0.0
  {
    var n := L.rows;
    var G := Gram(L);
    var a := k => Get(L, k, i);
    var F := (k, j) => Get(L, k, j);
    var lhs := j => Get(G, i, j);
    var mid := j => Dot(0, n, a, k => F(k, j));
    forall j | 0 <= j < n ensures lhs(j) == mid(j) {
      DotExt(0, n, a, k => Get(L, k, j), a, k => F(k, j));
    }
    SumExt(0, n, lhs, mid);
    SumOfDots(0, n, 0, n, a, F);
    var rs := k => Sum(0, n, j => F(k, j));
    forall k | 0 <= k < n ensures rs(k) == 0.0 {
      SumExt(0, n, j => F(k, j), j => Get(L, k, j));
      assert RowSum(L, k) == Sum(0, n, j => Get(L, k, j)) == 0.0;
    }
    DotZeroRight(0, n, a, rs);
  }

  /** The Laplacian of the symmetrised matrix, as `_matting_laplacian` and
      `_intra_unknowns` build it, is a valid, symmetric N×N matrix whose
      rows sum to zero. */
  lemma SymmetrizedLaplacian(W: Csr, N: nat)
    requires Valid(W) && W.rows == N && W.cols == N
    ensures GraphLaplacian(Symmetrize(W), N).Ok?
    ensures Valid(GraphLaplacian(Symmetrize(W), N).value)
    ensures GraphLaplacian(Symmetrize(W), N).value.rows == N && GraphLaplacian(Symmetrize(W), N).value.cols == N
    ensures Symmetric(GraphLaplacian(Symmetrize(W), N).value)
    ensures forall i :: 0 <= i < N ==> RowSum(GraphLaplacian(Symmetrize(W), N).value, i) == 0.0
  {
    SymmetrizeGet(W);
    GraphLaplacianGet(Symmetrize(W), N);
    GraphLaplacianRowSums(Symmetrize(W), N);
    GraphLaplacianSymmetric(Symmetrize(W), N);
  }

  /** The Gram product of a Laplacian, as `_color_mixture` builds it: the
      Laplacian's rows sum to zero, and Lᵀ·L is a valid, symmetric N×N
      matrix whose rows sum to zero. */
  lemma GramOfLaplacian(W: Csr, N: nat)
    requires Valid(W) && W.rows == N && W.cols == N
    ensures GraphLaplacian(W, N).Ok?
    ensures forall i :: 0 <= i < N ==> RowSum(GraphLaplacian(W, N).value, i) == 0.0
    ensures Valid(Gram(GraphLaplacian(W, N).value))
    ensures Gram(GraphLaplacian(W, N).value).rows == N && Gram(GraphLaplacian(W, N).value).cols == N
    ensures Symmetric(Gram(GraphLaplacian(W, N).value))
    ensures forall i :: 0 <= i < N ==> RowSum(Gram(GraphLaplacian(W, N).value), i) == 0.0
  {
    GraphLaplacianGet(W, N);
    GraphLaplacianRowSums(W, N);
    var L := GraphLaplacian(W, N).value;
    GramGet(L);
    GramSymmetric(L);
    GramRowSums(L);
  }
}
