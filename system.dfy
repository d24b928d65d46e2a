/** `MattingSystem` of matting/modules.py: the three graph-Laplacian builders
    (colour mixture, matting Laplacian, intra-unknowns) and `forward`, which
    assembles the linear system A·x = b from them. Each builder is a method
    that follows the source step by step, including the in-place `mul_`
    calls on a SparseMatrix object, and is proved equal to a function
    (CmLaplacian, MatLaplacian, CsLaplacian, System) whose properties are
    stated as lemmas. */
module MattingSystem {
  import opened Sums
  import opened Sparse
  import opened Coo
  import opened SparseOps
  import opened Laplacian
  import opened SparseObject

  /** The precomputed arrays of the `sample` dictionary that `MattingSystem`
      reads. Shapes: wcm* are COO triplets; locInInd has P entries and
      locFlows is 9×9×P; iuInInd, iuNeighInd and iuFlows have one row per
      unknown pixel (the last two with at least 5 columns); width is the
      image width. */
  datatype Sample = Sample(
    wcmRow: seq<int>, wcmCol: seq<int>, wcmData: seq<real>,
    width: int, locInInd: seq<int>, locFlows: seq<seq<seq<real>>>,
    iuInInd: seq<int>, iuNeighInd: seq<seq<int>>, iuFlows: seq<seq<real>>,
    kToUconf: seq<real>, known: seq<real>, kToU: seq<real>)

  /** `weights[idx]`: the entries of weights at the given indices. */
  function Gather(weights: seq<real>, idx: seq<int>): (g: seq<real>)
    requires forall p :: 0 <= p < |idx| ==> 0 <= idx[p] < |weights|
    ensures |g| == |idx|
  {
    seq(|idx|, p requires 0 <= p < |idx| => weights[idx[p]])
  }

  /** `Sparse(arange(N+1), arange(N), vals, (N, N))`, the diagonal matrix
      idiom used for CM_weights, KU and known. */
  function DiagonalOf(N: nat, vals: seq<real>): Result<Csr>
  {
    MakeSparse(Range(N + 1), Range(N), vals, N, N)
  }

  /** Building a diagonal fails exactly when vals does not have N entries;
      otherwise the matrix is valid, has row pointer 0..N and columns
      0..N-1, and holds vals[i] at (i, i) and nothing else. */
  lemma DiagonalOfProps(N: nat, vals: seq<real>)
    ensures DiagonalOf(N, vals).Err? <==> |vals| != N
    ensures DiagonalOf(N, vals).Err? ==> DiagonalOf(N, vals).error == ColValMismatch
    ensures DiagonalOf(N, vals).Ok? ==>
      var D := DiagonalOf(N, vals).value;
      Valid(D) && D.rows == N && D.cols == N && D.rowPtr == Range(N + 1) && D.colIdx == Range(N) && D.val == vals
    ensures DiagonalOf(N, vals).Ok? ==>
      forall i, j :: Get(DiagonalOf(N, vals).value, i, j) == if 0 <= i < N && i == j then vals[i] else 0.0
  {
    if |vals| == N {
      DiagonalProps(vals, N, N);
    }
  }

  // ---------------------------------------------------------------------------
  // Shared tail of the builders: diag(rowsum(W)) − W with W negated in place

  /** The lines `row_sum = spmv(W, ones)`, `W.mul_(-1)`,
      `diag = from_coo(arange(N), arange(N), row_sum, (N, N))` and
      `spadd(diag, W)` that end every builder. */
  method LaplacianInPlace(W: SparseMatrix, N: nat) returns (r: Result<Csr>)
    modifies W.val
    ensures r == GraphLaplacian(old(W.Value()), N)
  {
    var rowSum := SpMV(W.Value(), Ones(N));
    W.Mul(-1.0);
    var diag :- FromCoo(Range(N), Range(N), rowSum, N, N);
    r := Ok(SpAdd(diag, W.Value()));
  }

  // ---------------------------------------------------------------------------
  // _color_mixture

  /** Lcm = Lᵀ·L with L = diag(rowsum(D·Wcm)) − D·Wcm and D = diag(CM_weights). */
  function CmLaplacian(N: nat, s: Sample, cmWeights: seq<real>): Result<Csr>
  {
    var Wcm :- FromCoo(s.wcmRow, s.wcmCol, s.wcmData, N, N);
    var D :- DiagonalOf(N, cmWeights);
    var L :- GraphLaplacian(SpMM(D, Wcm), N);
    Ok(Gram(L))
  }

  method ColorMixture(N: nat, s: Sample, cmWeights: seq<real>) returns (r: Result<Csr>)
    ensures r == CmLaplacian(N, s, cmWeights)
  {
    var Wcm :- FromCoo(s.wcmRow, s.wcmCol, s.wcmData, N, N);
    var D :- DiagonalOf(N, cmWeights);
    var scaled := new SparseMatrix(SpMM(D, Wcm));
    var L :- LaplacianInPlace(scaled, N);
    r := Ok(Gram(L));
  }

  /** The intermediate L of `_color_mixture`. */
  function CmGraph(N: nat, s: Sample, cmWeights: seq<real>): Result<Csr>
  {
    var Wcm :- FromCoo(s.wcmRow, s.wcmCol, s.wcmData, N, N);
    var D :- DiagonalOf(N, cmWeights);
    GraphLaplacian(SpMM(D, Wcm), N)
  }

  /** The colour-mixture builder fails exactly when the triplets are
      rejected by `from_coo` or CM_weights does not have N entries. On
      success the intermediate L (whose D·Wcm scales row i of Wcm by
      CM_weights[i], see DiagonalTimes) has rows summing to zero, and Lcm = Lᵀ·L is a valid symmetric N×N
      matrix with zero row sums. */
  lemma CmLaplacianProps(N: nat, s: Sample, cmWeights: seq<real>)
    ensures CmLaplacian(N, s, cmWeights).Ok? <==>
      |s.wcmRow| == |s.wcmCol| == |s.wcmData| <= N * N && |cmWeights| == N
    ensures CmLaplacian(N, s, cmWeights).Ok? ==>
      CmGraph(N, s, cmWeights).Ok? &&
      forall i :: 0 <= i < N ==> RowSum(CmGraph(N, s, cmWeights).value, i) == 0.0
    ensures CmLaplacian(N, s, cmWeights).Ok? ==>
      var Lcm := CmLaplacian(N, s, cmWeights).value;
      Valid(Lcm) && Lcm.rows == N && Lcm.cols == N && Symmetric(Lcm) &&
      forall i :: 0 <= i < N ==> RowSum(Lcm, i) == 0.0
  {
    DiagonalOfProps(N, cmWeights);
    var W := FromCoo(s.wcmRow, s.wcmCol, s.wcmData, N, N);
    if W.Ok? && |cmWeights| == N {
      DiagonalTimes(cmWeights, N, W.value);
      GramOfLaplacian(SpMM(Diagonal(cmWeights, N, N), W.value), N);
    }
  }

  // ---------------------------------------------------------------------------
  // _matting_laplacian

  /** The column offsets of the 3×3 neighbourhood, in the order of the
      concatenation that builds neighInds. */
  function Offsets(w: int): seq<int>
  {
    [-1 - w, -1, -1 + w, -w, 0, w, 1 - w, 1, 1 + w]
  }

  /** neighInds[p, c]: the c-th neighbour of pixel inInd[p]. */
  function Neighbour(inInd: seq<int>, w: int, p: int, c: int): int
    requires 0 <= p < |inInd| && 0 <= c < 9
  {
    inInd[p] + Offsets(w)[c]
  }

  /** flows is 9×9×P. */
  predicate FlowShape(flows: seq<seq<seq<real>>>, P: nat)
  {
    |flows| == 9 && forall a :: 0 <= a < 9 ==> |flows[a]| == 9 && forall b :: 0 <= b < 9 ==> |flows[a][b]| == P
  }

  /** `iRows.view(-1)`: neighInds[:, i], each entry repeated 9 times. */
  function LocRows(inInd: seq<int>, w: int, i: int): seq<int>
    requires 0 <= i < 9
  {
    seq(9 * |inInd|, t requires 0 <= t < 9 * |inInd| => Neighbour(inInd, w, t / 9, i))
  }

  /** `neighInds.view(-1)`, row-major. */
  function LocCols(inInd: seq<int>, w: int): seq<int>
  {
    seq(9 * |inInd|, t requires 0 <= t < 9 * |inInd| => Neighbour(inInd, w, t / 9, t % 9))
  }

  /** `iFlows.view(-1)` for the weighted flows: flows[c, i, p] * weights[p]
      at position 9p + c. */
  function LocVals(flows: seq<seq<seq<real>>>, weights: seq<real>, i: int): seq<real>
    requires 0 <= i < 9 && FlowShape(flows, |weights|)
  {
    seq(9 * |weights|, t requires 0 <= t < 9 * |weights| => flows[t % 9][i][t / 9] * weights[t / 9])
  }

  /** `iWmat` of loop iteration i. */
  function LocSlice(N: nat, inInd: seq<int>, w: int, flows: seq<seq<seq<real>>>, weights: seq<real>, i: int): Result<Csr>
    requires 0 <= i < 9 && |weights| == |inInd| && FlowShape(flows, |inInd|)
  {
    FromCoo(LocRows(inInd, w, i), LocCols(inInd, w), LocVals(flows, weights, i), N, N)
  }

  lemma DivMod9(p: int, c: int)
    requires 0 <= p && 0 <= c < 9
    ensures (9 * p + c) / 9 == p && (9 * p + c) % 9 == c
  {
    var t := 9 * p + c;
    assert t == 9 * (t / 9) + t % 9;
  }

  lemma DivMod5(p: int, c: int)
    requires 0 <= p && 0 <= c < 5
    ensures (5 * p + c) / 5 == p && (5 * p + c) % 5 == c
  {
    var t := 5 * p + c;
    assert t == 5 * (t / 5) + t % 5;
  }

  /** The triplets of slice 0 read at position 9p + c: row inInd[p]-1-w
      (the first neighbour of pixel p, repeated for each c), column
      neighInds[p, c], value flows[c, 0, p] * weights[p]. */
  lemma LocSliceTriplet(inInd: seq<int>, w: int, flows: seq<seq<seq<real>>>, weights: seq<real>, p: int, c: int)
    requires |weights| == |inInd| && FlowShape(flows, |inInd|)
    requires 0 <= p < |inInd| && 0 <= c < 9
    ensures |LocRows(inInd, w, 0)| == |LocCols(inInd, w)| == |LocVals(flows, weights, 0)| == 9 * |inInd|
    ensures LocRows(inInd, w, 0)[9 * p + c] == inInd[p] - 1 - w
    ensures LocCols(inInd, w)[9 * p + c] == inInd[p] + Offsets(w)[c]
    ensures LocVals(flows, weights, 0)[9 * p + c] == flows[c][0][p] * weights[p]
  {
    DivMod9(p, c);
  }

  /** The loop over the 9 neighbour slices. Its body ends in an
      unconditional `break`, so only slice 0 is built and the
      `spadd(Wmat, Wmat)` branch is never taken. */
  method MattingWeights(N: nat, inInd: seq<int>, w: int, flows: seq<seq<seq<real>>>, weights: seq<real>)
    returns (r: Result<Csr>)
    requires |weights| == |inInd| && FlowShape(flows, |inInd|)
    ensures r == LocSlice(N, inInd, w, flows, weights, 0)
  {
    var Wmat: Csr;
    for i := 0 to 9
      invariant i == 0
    {
      var iWmat :- LocSlice(N, inInd, w, flows, weights, i);
      if i == 0 {
        Wmat := iWmat;
      } else {
        Wmat := SpAdd(Wmat, Wmat);
      }
      break;
    }
    r := Ok(Wmat);
  }

  /** The shape and index conditions `_matting_laplacian` relies on. */
  predicate LocShaped(s: Sample, locWeights: seq<real>)
  {
    FlowShape(s.locFlows, |s.locInInd|) &&
    forall p :: 0 <= p < |s.locInInd| ==> 0 <= s.locInInd[p] < |locWeights|
  }

  /** Lmat = diag(rowsum(Wsym)) − Wsym with Wsym = 0.5·(Wmat + Wmatᵀ). */
  function MatLaplacian(N: nat, s: Sample, locWeights: seq<real>): Result<Csr>
    requires LocShaped(s, locWeights)
  {
    var W :- LocSlice(N, s.locInInd, s.width, s.locFlows, Gather(locWeights, s.locInInd), 0);
    GraphLaplacian(Symmetrize(W), N)
  }

  method MattingLaplacian(N: nat, s: Sample, locWeights: seq<real>) returns (r: Result<Csr>)
    requires LocShaped(s, locWeights)
    ensures r == MatLaplacian(N, s, locWeights)
  {
    var weights := Gather(locWeights, s.locInInd);
    var Wmat :- MattingWeights(N, s.locInInd, s.width, s.locFlows, weights);
    var sym := new SparseMatrix(SpAdd(Wmat, Transpose(Wmat)));
    sym.Mul(0.5);
    r := LaplacianInPlace(sym, N);
  }

  /** The matting Laplacian fails exactly when its 9P triplets exceed N×N;
      otherwise it is a valid symmetric N×N matrix with zero row sums. */
  lemma MatLaplacianProps(N: nat, s: Sample, locWeights: seq<real>)
    requires LocShaped(s, locWeights)
    ensures MatLaplacian(N, s, locWeights).Ok? <==> 9 * |s.locInInd| <= N * N
    ensures MatLaplacian(N, s, locWeights).Ok? ==>
      var L := MatLaplacian(N, s, locWeights).value;
      Valid(L) && L.rows == N && L.cols == N && Symmetric(L) &&
      forall i :: 0 <= i < N ==> RowSum(L, i) == 0.0
  {
    var weights := Gather(locWeights, s.locInInd);
    var W := LocSlice(N, s.locInInd, s.width, s.locFlows, weights, 0);
    if W.Ok? {
      SymmetrizedLaplacian(W.value, N);
    }
  }

  // ---------------------------------------------------------------------------
  // _intra_unknowns

  /** The shape and index conditions `_intra_unknowns` relies on. */
  predicate IuShaped(s: Sample, iuWeights: seq<real>)
  {
    |s.iuNeighInd| == |s.iuInInd| && |s.iuFlows| == |s.iuInInd| &&
    forall p :: 0 <= p < |s.iuInInd| ==>
      |s.iuNeighInd[p]| >= 5 && |s.iuFlows[p]| >= 5 && 0 <= s.iuInInd[p] < |iuWeights|
  }

  /** `inInd.repeat(1, 5).view(-1)`. */
  function IuRows(inInd: seq<int>): seq<int>
  {
    seq(5 * |inInd|, t requires 0 <= t < 5 * |inInd| => inInd[t / 5])
  }

  /** `IU_neighInd[:, :5].view(-1)`: only the first 5 neighbour columns. */
  function IuCols(neigh: seq<seq<int>>): seq<int>
    requires forall p :: 0 <= p < |neigh| ==> |neigh[p]| >= 5
  {
    seq(5 * |neigh|, t requires 0 <= t < 5 * |neigh| => neigh[t / 5][t % 5])
  }

  /** The first 5 flow columns, each row scaled by its weight. */
  function IuVals(flows: seq<seq<real>>, weights: seq<real>): seq<real>
    requires |flows| == |weights| && forall p :: 0 <= p < |flows| ==> |flows[p]| >= 5
  {
    seq(5 * |flows|, t requires 0 <= t < 5 * |flows| => flows[t / 5][t % 5] * weights[t / 5])
  }

  /** The intra-unknowns affinity matrix Wcs. */
  function IuWeights(N: nat, s: Sample, iuWeights: seq<real>): Result<Csr>
    requires IuShaped(s, iuWeights)
  {
    FromCoo(IuRows(s.iuInInd), IuCols(s.iuNeighInd), IuVals(s.iuFlows, Gather(iuWeights, s.iuInInd)), N, N)
  }

  /** Row IU_inInd[p] receives five triplets, at positions 5p..5p+4: the
      columns IU_neighInd[p, 0..4] with values IU_flows[p, c] * weights[p];
      the sixth flow column is never read. */
  lemma IuTriplet(s: Sample, iuWeights: seq<real>, p: int, c: int)
    requires IuShaped(s, iuWeights)
    requires 0 <= p < |s.iuInInd| && 0 <= c < 5
    ensures |IuRows(s.iuInInd)| == |IuCols(s.iuNeighInd)| == 5 * |s.iuInInd|
    ensures |IuVals(s.iuFlows, Gather(iuWeights, s.iuInInd))| == 5 * |s.iuInInd|
    ensures IuRows(s.iuInInd)[5 * p + c] == s.iuInInd[p]
    ensures IuCols(s.iuNeighInd)[5 * p + c] == s.iuNeighInd[p][c]
    ensures IuVals(s.iuFlows, Gather(iuWeights, s.iuInInd))[5 * p + c] == s.iuFlows[p][c] * iuWeights[s.iuInInd[p]]
  {
    DivMod5(p, c);
    assert Gather(iuWeights, s.iuInInd)[p] == iuWeights[s.iuInInd[p]];
  }

  /** Lcs = diag(rowsum(Wsym)) − Wsym with Wsym = 0.5·(Wcs + Wcsᵀ). */
  function CsLaplacian(N: nat, s: Sample, iuWeights: seq<real>): Result<Csr>
    requires IuShaped(s, iuWeights)
  {
    var W :- IuWeights(N, s, iuWeights);
    GraphLaplacian(Symmetrize(W), N)
  }

  method IntraUnknowns(N: nat, s: Sample, iuWeights: seq<real>) returns (r: Result<Csr>)
    requires IuShaped(s, iuWeights)
    ensures r == CsLaplacian(N, s, iuWeights)
  {
    var weights := Gather(iuWeights, s.iuInInd);
    var Wcs :- FromCoo(IuRows(s.iuInInd), IuCols(s.iuNeighInd), IuVals(s.iuFlows, weights), N, N);
    var sym := new SparseMatrix(SpAdd(Wcs, Transpose(Wcs)));
    sym.Mul(0.5);
    r := LaplacianInPlace(sym, N);
  }

  /** The intra-unknowns Laplacian fails exactly when its 5P triplets
      exceed N×N; otherwise it is a valid symmetric N×N matrix with zero
      row sums. */
  lemma CsLaplacianProps(N: nat, s: Sample, iuWeights: seq<real>)
    requires IuShaped(s, iuWeights)
    ensures CsLaplacian(N, s, iuWeights).Ok? <==> 5 * |s.iuInInd| <= N * N
    ensures CsLaplacian(N, s, iuWeights).Ok? ==>
      var L := CsLaplacian(N, s, iuWeights).value;
      Valid(L) && L.rows == N && L.cols == N && Symmetric(L) &&
      forall i :: 0 <= i < N ==> RowSum(L, i) == 0.0
  {
    var W := IuWeights(N, s, iuWeights);
    if W.Ok? {
      SymmetrizedLaplacian(W.value, N);
    }
  }

  // ---------------------------------------------------------------------------
  // forward

  /** The linear system A·x = b that the solver is given. */
  datatype LinearSystem = LinearSystem(A: Csr, b: seq<real>)

  /** `KU_weights.mul(kToUconf)`, elementwise. */
  function ElemMul(a: seq<real>, b: seq<real>): (c: seq<real>)
    requires |a| == |b|
    ensures |c| == |a|
  {
    if a == [] then [] else [a[0] * b[0]] + ElemMul(a[1..], b[1..])
  }

  lemma {:induction false} ElemMulAt(a: seq<real>, b: seq<real>, i: int)
    requires |a| == |b| && 0 <= i < |a|
    ensures ElemMul(a, b)[i] == a[i] * b[i]
    decreases |a|
  {
    if i > 0 {
      ElemMulAt(a[1..], b[1..], i - 1);
    }
  }

  /** `lmbda * known`. */
  function ScaleVec(c: real, v: seq<real>): (w: seq<real>)
    ensures |w| == |v|
  {
    if v == [] then [] else [c * v[0]] + ScaleVec(c, v[1..])
  }

  lemma {:induction false} ScaleVecAt(c: real, v: seq<real>, i: int)
    requires 0 <= i < |v|
    ensures ScaleVec(c, v)[i] == c * v[i]
    decreases |v|
  {
    if i > 0 {
      ScaleVecAt(c, v[1..], i - 1);
    }
  }

  /** The shape and index conditions `forward` relies on. */
  predicate Shaped(s: Sample, locWeights: seq<real>, iuWeights: seq<real>, kuWeights: seq<real>)
  {
    LocShaped(s, locWeights) && IuShaped(s, iuWeights) && |kuWeights| == |s.kToUconf|
  }

  /** A = Lcs + (Lmat + ((Lcm + KU) + known)) and b = (KU + known)·kToU,
      with KU = diag(KU_weights * kToUconf) and known = diag(lmbda * known). */
  function System(N: nat, s: Sample, cmWeights: seq<real>, locWeights: seq<real>, iuWeights: seq<real>,
                  kuWeights: seq<real>, lmbda: real): Result<LinearSystem>
    requires Shaped(s, locWeights, iuWeights, kuWeights)
  {
    var Lcm :- CmLaplacian(N, s, cmWeights);
    var Lmat :- MatLaplacian(N, s, locWeights);
    var Lcs :- CsLaplacian(N, s, iuWeights);
    var KU :- DiagonalOf(N, ElemMul(kuWeights, s.kToUconf));
    var Known :- DiagonalOf(N, ScaleVec(lmbda, s.known));
    Ok(LinearSystem(SpAdd(Lcs, SpAdd(Lmat, SpAdd(SpAdd(Lcm, KU), Known))), SpMV(SpAdd(KU, Known), s.kToU)))
  }

  method Forward(N: nat, s: Sample, cmWeights: seq<real>, locWeights: seq<real>, iuWeights: seq<real>,
                 kuWeights: seq<real>, lmbda: real) returns (r: Result<LinearSystem>)
    requires Shaped(s, locWeights, iuWeights, kuWeights)
    ensures r == System(N, s, cmWeights, locWeights, iuWeights, kuWeights, lmbda)
  {
    var Lcm :- ColorMixture(N, s, cmWeights);
    var Lmat :- MattingLaplacian(N, s, locWeights);
    var Lcs :- IntraUnknowns(N, s, iuWeights);
    var KU :- DiagonalOf(N, ElemMul(kuWeights, s.kToUconf));
    var Known :- DiagonalOf(N, ScaleVec(lmbda, s.known));
    var A := SpAdd(Lcs, SpAdd(Lmat, SpAdd(SpAdd(Lcm, KU), Known)));
    var b := SpMV(SpAdd(KU, Known), s.kToU);
    r := Ok(LinearSystem(A, b));
  }

  /** The weight on the diagonal of KU + known at row i. */
  function DiagonalWeight(s: Sample, kuWeights: seq<real>, lmbda: real, i: int): real
    requires |kuWeights| == |s.kToUconf| && 0 <= i < |kuWeights| && i < |s.known|
  {
    ElemMul(kuWeights, s.kToUconf)[i] + ScaleVec(lmbda, s.known)[i]
  }

  /** `forward` fails exactly when one of the builders fails or KU_weights
      or known does not have N entries. */
  lemma SystemOk(N: nat, s: Sample, cmWeights: seq<real>, locWeights: seq<real>, iuWeights: seq<real>,
                 kuWeights: seq<real>, lmbda: real)
    requires Shaped(s, locWeights, iuWeights, kuWeights)
    ensures System(N, s, cmWeights, locWeights, iuWeights, kuWeights, lmbda).Ok? <==>
      |s.wcmRow| == |s.wcmCol| == |s.wcmData| <= N * N && |cmWeights| == N &&
      9 * |s.locInInd| <= N * N && 5 * |s.iuInInd| <= N * N &&
      |kuWeights| == N && |s.known| == N
  {
    CmLaplacianProps(N, s, cmWeights);
    MatLaplacianProps(N, s, locWeights);
    CsLaplacianProps(N, s, iuWeights);
    DiagonalOfProps(N, ElemMul(kuWeights, s.kToUconf));
    DiagonalOfProps(N, ScaleVec(lmbda, s.known));
  }

  /** A row sum of a sum is the sum of the row sums. */
  lemma RowSumSpAdd(A: Csr, B: Csr, i: int)
    requires Valid(A) && Valid(B) && A.rows == B.rows && A.cols == B.cols
    ensures RowSum(SpAdd(A, B), i) == RowSum(A, i) + RowSum(B, i)
  {
    SpAddGet(A, B);
    SumAdd(0, A.cols, j => Get(A, i, j), j => Get(B, i, j), j => Get(SpAdd(A, B), i, j));
  }

  /** A + B + C + D + E, nested as `forward` nests it. */
  function Assemble(Lcs: Csr, Lmat: Csr, Lcm: Csr, KU: Csr, Known: Csr): Csr
  {
    SpAdd(Lcs, SpAdd(Lmat, SpAdd(SpAdd(Lcm, KU), Known)))
  }

  lemma AssembleGet(Lcs: Csr, Lmat: Csr, Lcm: Csr, KU: Csr, Known: Csr, N: nat)
    requires Valid(Lcs) && Valid(Lmat) && Valid(Lcm) && Valid(KU) && Valid(Known)
    requires Lcs.rows == Lmat.rows == Lcm.rows == KU.rows == Known.rows == N
    requires Lcs.cols == Lmat.cols == Lcm.cols == KU.cols == Known.cols == N
    ensures Valid(Assemble(Lcs, Lmat, Lcm, KU, Known))
    ensures Assemble(Lcs, Lmat, Lcm, KU, Known).rows == N && Assemble(Lcs, Lmat, Lcm, KU, Known).cols == N
    ensures forall i, j ::
              Get(Assemble(Lcs, Lmat, Lcm, KU, Known), i, j)
              == Get(Lcs, i, j) + Get(Lmat, i, j) + Get(Lcm, i, j) + Get(KU, i, j) + Get(Known, i, j)
    ensures forall i ::
              RowSum(Assemble(Lcs, Lmat, Lcm, KU, Known), i)
              == RowSum(Lcs, i) + RowSum(Lmat, i) + RowSum(Lcm, i) + RowSum(KU, i) + RowSum(Known, i)
  {
    var S1 := SpAdd(Lcm, KU);
    SpAddGet(Lcm, KU);
    var S2 := SpAdd(S1, Known);
    SpAddGet(S1, Known);
    var S3 := SpAdd(Lmat, S2);
    SpAddGet(Lmat, S2);
    SpAddGet(Lcs, S3);
    forall i ensures RowSum(Assemble(Lcs, Lmat, Lcm, KU, Known), i)
      == RowSum(Lcs, i) + RowSum(Lmat, i) + RowSum(Lcm, i) + RowSum(KU, i) + RowSum(Known, i)
    {
      RowSumSpAdd(Lcm, KU, i);
      RowSumSpAdd(S1, Known, i);
      RowSumSpAdd(Lmat, S2, i);
      RowSumSpAdd(Lcs, S3, i);
    }
  }

  /** A row of a diagonal matrix sums to its diagonal entry. */
  lemma DiagonalRowSum(vals: seq<real>, N: nat, i: int)
    requires |vals| == N && 0 <= i < N
    ensures RowSum(Diagonal(vals, N, N), i) == vals[i]
  {
    DiagonalProps(vals, N, N);
    SumPoint(0, N, j => Get(Diagonal(vals, N, N), i, j), i);
  }

  /** Three symmetric N×N Laplacians with zero row sums plus two diagonal
      matrices: the sum is symmetric, holds ku[i] + kn[i] on top of the
      Laplacians' diagonal, and each row sums to ku[i] + kn[i]. */
  lemma AssembleDiagonal(Lcs: Csr, Lmat: Csr, Lcm: Csr, ku: seq<real>, kn: seq<real>, N: nat)
    requires Valid(Lcs) && Valid(Lmat) && Valid(Lcm) && |ku| == N && |kn| == N
    requires Lcs.rows == Lmat.rows == Lcm.rows == N && Lcs.cols == Lmat.cols == Lcm.cols == N
    requires Symmetric(Lcs) && Symmetric(Lmat) && Symmetric(Lcm)
    requires forall i :: 0 <= i < N ==> RowSum(Lcs, i) == 0.0 && RowSum(Lmat, i) == 0.0 && RowSum(Lcm, i) == 0.0
    ensures Valid(Assemble(Lcs, Lmat, Lcm, Diagonal(ku, N, N), Diagonal(kn, N, N)))
    ensures Symmetric(Assemble(Lcs, Lmat, Lcm, Diagonal(ku, N, N), Diagonal(kn, N, N)))
    ensures forall i, j ::
              Get(Assemble(Lcs, Lmat, Lcm, Diagonal(ku, N, N), Diagonal(kn, N, N)), i, j)
              == Get(Lcs, i, j) + Get(Lmat, i, j) + Get(Lcm, i, j)
                 + (if 0 <= i < N && i == j then ku[i] + kn[i] else 0.0)
    ensures forall i :: 0 <= i < N ==>
              RowSum(Assemble(Lcs, Lmat, Lcm, Diagonal(ku, N, N), Diagonal(kn, N, N)), i) == ku[i] + kn[i]
  {
    DiagonalProps(ku, N, N);
    DiagonalProps(kn, N, N);
    forall i | 0 <= i < N ensures RowSum(Diagonal(ku, N, N), i) == ku[i] && RowSum(Diagonal(kn, N, N), i) == kn[i] {
      DiagonalRowSum(ku, N, i);
      DiagonalRowSum(kn, N, i);
    }
    AssembleWeighted(Lcs, Lmat, Lcm, Diagonal(ku, N, N), Diagonal(kn, N, N), ku, kn, N);
  }

  lemma AssembleWeighted(Lcs: Csr, Lmat: Csr, Lcm: Csr, KU: Csr, Known: Csr, ku: seq<real>, kn: seq<real>, N: nat)
    requires Valid(Lcs) && Valid(Lmat) && Valid(Lcm) && Valid(KU) && Valid(Known) && |ku| == N && |kn| == N
    requires Lcs.rows == Lmat.rows == Lcm.rows == KU.rows == Known.rows == N
    requires Lcs.cols == Lmat.cols == Lcm.cols == KU.cols == Known.cols == N
    requires Symmetric(Lcs) && Symmetric(Lmat) && Symmetric(Lcm)
    requires forall i :: 0 <= i < N ==> RowSum(Lcs, i) == 0.0 && RowSum(Lmat, i) == 0.0 && RowSum(Lcm, i) == 0.0
    requires forall i, j :: Get(KU, i, j) == if 0 <= i < N && i == j then ku[i] else 0.0
    requires forall i, j :: Get(Known, i, j) == if 0 <= i < N && i == j then kn[i] else 0.0
    requires forall i :: 0 <= i < N ==> RowSum(KU, i) == ku[i] && RowSum(Known, i) == kn[i]
    ensures Valid(Assemble(Lcs, Lmat, Lcm, KU, Known))
    ensures Symmetric(Assemble(Lcs, Lmat, Lcm, KU, Known))
    ensures forall i, j ::
              Get(Assemble(Lcs, Lmat, Lcm, KU, Known), i, j)
              == Get(Lcs, i, j) + Get(Lmat, i, j) + Get(Lcm, i, j)
                 + (if 0 <= i < N && i == j then ku[i] + kn[i] else 0.0)
    ensures forall i :: 0 <= i < N ==> RowSum(Assemble(Lcs, Lmat, Lcm, KU, Known), i) == ku[i] + kn[i]
  {
    AssembleGet(Lcs, Lmat, Lcm, KU, Known, N);
  }

  /** diag(ku) + diag(kn) is the valid N×N diagonal matrix of ku[i] + kn[i]. */
  lemma DiagonalSumGet(ku: seq<real>, kn: seq<real>, N: nat)
    requires |ku| == N && |kn| == N
    ensures Valid(SpAdd(Diagonal(ku, N, N), Diagonal(kn, N, N)))
    ensures SpAdd(Diagonal(ku, N, N), Diagonal(kn, N, N)).rows == N
    ensures SpAdd(Diagonal(ku, N, N), Diagonal(kn, N, N)).cols == N
    ensures forall i, j :: Get(SpAdd(Diagonal(ku, N, N), Diagonal(kn, N, N)), i, j)
                        == if 0 <= i < N && i == j then ku[i] + kn[i] else 0.0
  {
    DiagonalProps(ku, N, N);
    DiagonalProps(kn, N, N);
    SpAddGet(Diagonal(ku, N, N), Diagonal(kn, N, N));
  }

  /** A row holding d at column i and zeros elsewhere maps v to d * v[i]. */
  lemma DiagonalRowTimes(S: Csr, d: real, N: nat, v: seq<real>, i: int)
    requires 0 <= i < N
    requires forall k :: Get(S, i, k) == if i == k then d else 0.0
    ensures Dot(0, N, j => Get(S, i, j), j => At(v, j)) == d * At(v, i)
  {
    var a := j => Get(S, i, j);
    var b := j => At(v, j);
    DotPoint(0, N, a, b, i);
    ProdCong(a(i), b(i), d, At(v, i));
  }

  /** On success, `forward` built KU and known as the diagonals of
      KU_weights * kToUconf and lmbda * known. */
  lemma SystemParts(N: nat, s: Sample, cmWeights: seq<real>, locWeights: seq<real>, iuWeights: seq<real>,
                    kuWeights: seq<real>, lmbda: real)
    requires Shaped(s, locWeights, iuWeights, kuWeights)
    requires System(N, s, cmWeights, locWeights, iuWeights, kuWeights, lmbda).Ok?
    ensures |kuWeights| == N && |s.known| == N
    ensures CmLaplacian(N, s, cmWeights).Ok? && MatLaplacian(N, s, locWeights).Ok? && CsLaplacian(N, s, iuWeights).Ok?
    ensures System(N, s, cmWeights, locWeights, iuWeights, kuWeights, lmbda).value
         == LinearSystem(
              Assemble(CsLaplacian(N, s, iuWeights).value, MatLaplacian(N, s, locWeights).value,
                       CmLaplacian(N, s, cmWeights).value,
                       Diagonal(ElemMul(kuWeights, s.kToUconf), N, N), Diagonal(ScaleVec(lmbda, s.known), N, N)),
              SpMV(SpAdd(Diagonal(ElemMul(kuWeights, s.kToUconf), N, N), Diagonal(ScaleVec(lmbda, s.known), N, N)), s.kToU))
  {
    SystemOk(N, s, cmWeights, locWeights, iuWeights, kuWeights, lmbda);
    DiagonalOfProps(N, ElemMul(kuWeights, s.kToUconf));
    DiagonalOfProps(N, ScaleVec(lmbda, s.known));
  }

  /** The diagonal weight is KU_weights[i] * kToUconf[i] + lmbda * known[i]. */
  lemma DiagonalWeightIs(s: Sample, kuWeights: seq<real>, lmbda: real, i: int)
    requires |kuWeights| == |s.kToUconf| && 0 <= i < |kuWeights| && i < |s.known|
    ensures DiagonalWeight(s, kuWeights, lmbda, i) == kuWeights[i] * s.kToUconf[i] + lmbda * s.known[i]
  {
    ElemMulAt(kuWeights, s.kToUconf, i);
    ScaleVecAt(lmbda, s.known, i);
  }

  /** The assembled matrix: a valid symmetric N×N matrix holding the sum of
      the three Laplacians plus the diagonal weights of KU and known. */
  lemma SystemMatrix(N: nat, s: Sample, cmWeights: seq<real>, locWeights: seq<real>, iuWeights: seq<real>,
                     kuWeights: seq<real>, lmbda: real)
    requires Shaped(s, locWeights, iuWeights, kuWeights)
    requires System(N, s, cmWeights, locWeights, iuWeights, kuWeights, lmbda).Ok?
    ensures |kuWeights| == N && |s.known| == N
    ensures var A := System(N, s, cmWeights, locWeights, iuWeights, kuWeights, lmbda).value.A;
      Valid(A) && A.rows == N && A.cols == N && Symmetric(A)
    ensures forall i, j ::
              Get(System(N, s, cmWeights, locWeights, iuWeights, kuWeights, lmbda).value.A, i, j)
              == Get(CsLaplacian(N, s, iuWeights).value, i, j) + Get(MatLaplacian(N, s, locWeights).value, i, j)
                 + Get(CmLaplacian(N, s, cmWeights).value, i, j)
                 + (if 0 <= i < N && i == j then DiagonalWeight(s, kuWeights, lmbda, i) else 0.0)
  {
    SystemParts(N, s, cmWeights, locWeights, iuWeights, kuWeights, lmbda);
    CmLaplacianProps(N, s, cmWeights);
    MatLaplacianProps(N, s, locWeights);
    CsLaplacianProps(N, s, iuWeights);
    var ku := ElemMul(kuWeights, s.kToUconf);
    var kn := ScaleVec(lmbda, s.known);
    AssembleDiagonal(CsLaplacian(N, s, iuWeights).value, MatLaplacian(N, s, locWeights).value,
                     CmLaplacian(N, s, cmWeights).value, ku, kn, N);
  }

  /** Each row of the assembled matrix sums to its diagonal weight, since
      the Laplacians' rows sum to zero. */
  lemma SystemRowSums(N: nat, s: Sample, cmWeights: seq<real>, locWeights: seq<real>, iuWeights: seq<real>,
                      kuWeights: seq<real>, lmbda: real)
    requires Shaped(s, locWeights, iuWeights, kuWeights)
    requires System(N, s, cmWeights, locWeights, iuWeights, kuWeights, lmbda).Ok?
    ensures |kuWeights| == N && |s.known| == N
    ensures forall i :: 0 <= i < N ==>
              RowSum(System(N, s, cmWeights, locWeights, iuWeights, kuWeights, lmbda).value.A, i)
              == DiagonalWeight(s, kuWeights, lmbda, i)
  {
    SystemParts(N, s, cmWeights, locWeights, iuWeights, kuWeights, lmbda);
    CmLaplacianProps(N, s, cmWeights);
    MatLaplacianProps(N, s, locWeights);
    CsLaplacianProps(N, s, iuWeights);
    var ku := ElemMul(kuWeights, s.kToUconf);
    var kn := ScaleVec(lmbda, s.known);
    AssembleDiagonal(CsLaplacian(N, s, iuWeights).value, MatLaplacian(N, s, locWeights).value,
                     CmLaplacian(N, s, cmWeights).value, ku, kn, N);
  }

  /** b = (KU + known)·kToU: entry i is the diagonal weight of row i times
      kToU[i] (kToU read as 0 beyond its end). */
  lemma SystemRhs(N: nat, s: Sample, cmWeights: seq<real>, locWeights: seq<real>, iuWeights: seq<real>,
                  kuWeights: seq<real>, lmbda: real)
    requires Shaped(s, locWeights, iuWeights, kuWeights)
    requires System(N, s, cmWeights, locWeights, iuWeights, kuWeights, lmbda).Ok?
    ensures |kuWeights| == N && |s.known| == N
    ensures |System(N, s, cmWeights, locWeights, iuWeights, kuWeights, lmbda).value.b| == N
    ensures forall i :: 0 <= i < N ==>
              System(N, s, cmWeights, locWeights, iuWeights, kuWeights, lmbda).value.b[i]
              == DiagonalWeight(s, kuWeights, lmbda, i) * At(s.kToU, i)
  {
    SystemParts(N, s, cmWeights, locWeights, iuWeights, kuWeights, lmbda);
    RhsOfDiagonals(System(N, s, cmWeights, locWeights, iuWeights, kuWeights, lmbda).value.b, s, kuWeights, lmbda, N);
  }

  /** (diag(KU_weights * kToUconf) + diag(lmbda * known))·kToU, row by row. */
  lemma RhsOfDiagonals(b: seq<real>, s: Sample, kuWeights: seq<real>, lmbda: real, N: nat)
    requires |kuWeights| == |s.kToUconf| == |s.known| == N
    requires b == SpMV(SpAdd(Diagonal(ElemMul(kuWeights, s.kToUconf), N, N), Diagonal(ScaleVec(lmbda, s.known), N, N)), s.kToU)
    ensures |b| == N
    ensures forall i :: 0 <= i < N ==> b[i] == DiagonalWeight(s, kuWeights, lmbda, i) * At(s.kToU, i)
  {
    var ku, kn := ElemMul(kuWeights, s.kToUconf), ScaleVec(lmbda, s.known);
    DiagonalSumGet(ku, kn, N);
    RhsOf(b, SpAdd(Diagonal(ku, N, N), Diagonal(kn, N, N)), s, kuWeights, lmbda, N);
  }

  /** S·kToU, row by row, for a diagonal S holding the diagonal weights. */
  lemma RhsOf(b: seq<real>, S: Csr, s: Sample, kuWeights: seq<real>, lmbda: real, N: nat)
    requires |kuWeights| == |s.kToUconf| == |s.known| == N
    requires Valid(S) && S.rows == N && S.cols == N
    requires forall r, c :: Get(S, r, c) == if 0 <= r < N && r == c then DiagonalWeight(s, kuWeights, lmbda, r) else 0.0
    requires b == SpMV(S, s.kToU)
    ensures |b| == N
    ensures forall i :: 0 <= i < N ==> b[i] == DiagonalWeight(s, kuWeights, lmbda, i) * At(s.kToU, i)
  {
    SpMVGet(S, s.kToU);
    forall i | 0 <= i < N ensures b[i] == DiagonalWeight(s, kuWeights, lmbda, i) * At(s.kToU, i) {
      DiagonalRowTimes(S, DiagonalWeight(s, kuWeights, lmbda, i), N, s.kToU, i);
    }
  }
}
