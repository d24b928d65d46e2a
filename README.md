# Sparse matting system — a verified Dafny model

This project models two layers of the deep-matting pipeline.

- **The CSR sparse-matrix layer of `matting/sparse.py`.** A `Sparse` object
  holds a row pointer `csr_row_idx`, a column array `col_idx`, a value array
  `val` and a size. The model covers:
  - `from_coo`, which checks its triplets and converts them to CSR;
  - the three checks of the `Sparse` constructor;
  - `nnz` and the in-place `mul_`;
  - `spadd`, `spmv` and `spmm`, with their gradient (adjoint) rules;
  - the `transpose` that the builders call.
- **`MattingSystem` of `matting/modules.py`.** It builds three graph
  Laplacians from precomputed index and flow arrays: colour mixture,
  matting Laplacian and intra-unknowns. `forward` then assembles the
  sparse linear system A·x = b.

Float32 arithmetic is modelled with exact `real` numbers.

A matrix is the datatype `Sparse.Csr(rowPtr, colIdx, val, rows, cols)`.
- `Valid` holds when:
  - the row pointer has rows+1 entries, starts at 0, never decreases and ends at nnz;
  - every row's columns are in range and strictly increasing.
- `Get(M, i, j)` is the dense denotation: the value stored at (i, j), or zero.
- `Sums.Sum` and `Sums.Dot` are dense sums and dot products over an index range.

Every operation is a total function on the representation. Its lemmas
state what it denotes in terms of `Get`, `Sum` and `Dot`.

What changes state is modelled as imperative code.
- `mul_` is a method with a loop on the class `SparseObject.SparseMatrix`.
  The class's value buffer is an `array<real>`.
- Each `MattingSystem` builder is a method that follows the source step by
  step, including the in-place `mul_` calls. The loop of
  `_matting_laplacian` keeps its unconditional `break`.
- Each method is proved equal to a function: `CmLaplacian`,
  `MatLaplacian`, `CsLaplacian` or `System`.

The lemmas then prove, for those functions:
- every Laplacian is symmetric and its rows sum to zero;
- the assembled A is the stated sum;
- b[i] = (KU_weights[i]·kToUconf[i] + lmbda·known[i])·kToU[i].

The module `Examples` derives the concrete assertions of
matting/test/test_sparse.py from the general lemmas.

Files:
- `sums.dfy`, module `Sums`: finite sums and dot products.
- `sparse.dfy`, module `Sparse`: the CSR representation, `Valid`, `Get`, the constructor checks and `FromRows`.
- `coo.dfy`, module `Coo`: `from_coo`.
- `ops.dfy`, module `SparseOps`: `mul_` as a function, `spadd`, `spmv`, `spmm` and `transpose`.
- `grad.dfy`, module `SparseGrad`: the gradients of `spadd`, `spmv` and `spmm`.
- `tensor.dfy`, module `SparseObject`: the mutable `Sparse` object.
- `laplacian.dfy`, module `Laplacian`: diag(rowsum(W)) − W, symmetrisation and the Gram product.
- `system.dfy`, module `MattingSystem`: the builders and `forward`.
- `cases.dfy`, module `Examples`: the test cases.

## Model

| member | source | states |
|---|---|---|
| Sparse.MakeSparse | matting/sparse.py:21-31 | The constructor fails with the row-pointer-length error, then the column/value-length error, then the too-many-entries error, in that order. It succeeds exactly when the row pointer has rows+1 entries and the column and value arrays have equal length at most rows·cols. It then stores the arrays unchanged, and nnz is the value count. |
| Sparse.ValidPassesConstructor | matting/sparse.py:21-31 | Every valid CSR matrix passes the constructor's three checks. This covers the results of `spadd` and `spmm`, which are handed to the constructor. |
| Sparse.ValidNnzBound | matting/sparse.py:26-27 | A valid matrix stores at most rows·cols entries. |
| Sparse.DiagonalProps | matting/modules.py:118-122 | `Sparse(arange(n+1), arange(n), vals, (n, cols))` passes the constructor. It is valid, row i holds the single entry (i, vals[i]), and it denotes vals[i] at (i, i) and zero elsewhere. |
| Sparse.SameRowsSameMatrix | matting/sparse.py:19-31 | Two valid matrices of one size whose rows agree are equal. The CSR form is canonical. |
| Coo.FromCoo | matting/sparse.py:7-16 | `from_coo` fails with the row/column-length error, then the row/value-length error, then the too-many-entries error. It succeeds exactly when all three lengths agree and are at most rows·cols. Its result is then a valid matrix of the requested size. |
| Coo.FromCooGet | matting/sparse.py:15 | At each in-range position, the converted matrix denotes the sum of the values of the triplets there, and zero elsewhere. |
| Coo.FromCooAt | matting/test/test_sparse.py:21-36 | With no duplicate (row, col) pairs, every in-range triplet's value is found at its position. |
| Coo.FromCooPattern | matting/sparse.py:15 | Column j is stored in row i exactly when j is in range and some triplet lies at (i, j). |
| Coo.FromCooRowLength | matting/test/test_sparse.py:115-132 | With distinct triplets whose columns are in range, rowPtr[i+1] − rowPtr[i] is the number of triplets in row i. |
| Coo.FromCooOneRow | matting/test/test_sparse.py:158-175 | With one triplet per row, `from_coo(arange(n), ci, vals)` stores row i as the single entry (ci[i], vals[i]). |
| Coo.FromCooDiagonal | matting/modules.py:144 | `from_coo(arange(n), arange(n), vals)` is the diagonal matrix of vals. |
| SparseObject.SparseMatrix.Create | matting/sparse.py:21-31 | The constructor fails exactly when its checks fail, with the same error. Otherwise it yields a fresh object that holds the given arrays. |
| SparseObject.SparseMatrix.Nnz | matting/sparse.py:39-41 | `nnz` is the number of stored values. For a valid matrix it also equals the column count and the row pointer's last entry. |
| SparseObject.SparseMatrix.Mul | matting/sparse.py:43-44 | `mul_(s)` multiplies every stored value by s in place. The row pointer, the columns and the size are unchanged, and a valid matrix stays valid with the same pattern. |
| SparseOps.ScaleGet | matting/sparse.py:43-44 | Scaling keeps validity, the pattern and nnz, and multiplies the denotation by s everywhere. |
| SparseOps.SpAddGet | matting/sparse.py:54-60 | For matrices of one size, `spadd` is valid and has size A.size. It denotes Get(A) + Get(B), and each row's pattern is the union of the two rows' patterns. |
| SparseOps.SpAddSamePattern | matting/test/test_sparse.py:135-152 | Adding two matrices of the same pattern keeps the row pointer and column array and adds the value arrays position by position. |
| SparseOps.SpAddComm | matting/sparse.py:54-60 | `spadd` is commutative. |
| SparseOps.SpMVGet | matting/sparse.py:63-65 | `spmv(A, v)` has one entry per row, and y[i] = Σ_j A[i,j]·v[j]. |
| SparseOps.SpMVOnes | matting/modules.py:141-142 | Multiplying by a vector of ones gives the row sums. |
| SparseOps.TransposeGet | matting/modules.py:145 | The transpose is valid and denotes Get(A, j, i) at (i, j). Column j is stored in row i of the transpose exactly when i is stored in row j of A. |
| SparseOps.SpMMGet | matting/sparse.py:68-74 | For A.cols = B.rows, `spmm` is valid of size (A.rows, B.cols) and denotes Σ_k A[i,k]·B[k,j]. Its row i stores exactly the columns reachable from row i of A through B. |
| SparseGrad.SpMVGradVectorGet | matting/test/test_sparse.py:59-77 | The gradient of `spmv` with respect to v is dv[j] = Σ_i A[i,j]·dy[i]. |
| SparseGrad.SpMVGradValuesAt | matting/test/test_sparse.py:59-77 | The gradient of `spmv` with respect to the values has nnz entries. At the stored entry k of row i it is dy[i]·v[col[k]]. |
| SparseGrad.SpMMGradAAt | matting/test/test_sparse.py:80-112 | The gradient of `spmm` with respect to A's values has A.nnz entries. At A's stored (i, k) it is Σ_j dC[i,j]·B[k,j]. |
| SparseGrad.SpMMGradBAt | matting/test/test_sparse.py:80-112 | The gradient of `spmm` with respect to B's values has B.nnz entries. At B's stored (k, j) it is Σ_i A[i,k]·dC[i,j]. |
| SparseGrad.SpAddGradAt | matting/test/test_sparse.py:39-56 | For matrices of one size, the sum holds each stored value of A (and of B) with unit weight at its position, so each operand's value gradient has that operand's nnz entries and at its stored (i, j) equals dC[i,j]. |
| SparseGrad.SpMMGradLengths | matting/test/test_sparse.py:273-274 | For any upstream gradient, each factor's value gradient has as many entries as that factor's nnz. |
| Laplacian.GraphLaplacianGet | matting/modules.py:141-144 | For a valid N×N W, diag(rowsum(W)) − W is built without error. It is valid and N×N, and it denotes rowsum_i·[i = j] − W[i,j]. |
| Laplacian.GraphLaplacianRowSums | matting/modules.py:141-144 | Every row of diag(rowsum(W)) − W sums to zero. |
| Laplacian.GraphLaplacianSymmetric | matting/modules.py:179-183 | For a symmetric W, diag(rowsum(W)) − W is symmetric. |
| Laplacian.DiagonalTimes | matting/modules.py:139-140 | diag(c)·W is valid and scales row i of W by c[i]. |
| Laplacian.SymmetrizeGet | matting/modules.py:176-178 | 0.5·(W + Wᵀ) is valid, denotes 0.5·(W[i,j] + W[j,i]), and is symmetric. |
| Laplacian.GramGet | matting/modules.py:145-146 | Lᵀ·L is valid and N×N, and denotes Σ_k L[k,i]·L[k,j]. |
| Laplacian.GramSymmetric | matting/modules.py:145-146 | Lᵀ·L is symmetric. |
| Laplacian.GramRowSums | matting/modules.py:145-146 | If every row of L sums to zero, so does every row of Lᵀ·L. |
| Laplacian.SymmetrizedLaplacian | matting/modules.py:176-183 | The Laplacian of 0.5·(W + Wᵀ) is valid, N×N and symmetric, with zero row sums. |
| Laplacian.GramOfLaplacian | matting/modules.py:141-146 | For L = diag(rowsum(W)) − W, L's rows sum to zero, and Lᵀ·L is valid, N×N and symmetric, with zero row sums. |
| MattingSystem.DiagonalOfProps | matting/modules.py:121-122 | The diagonal idiom fails exactly when vals does not have N entries, with the column/value-length error. Otherwise its row pointer is 0..N, its columns are 0..N−1, its values are vals, and it denotes vals[i] at (i, i). |
| MattingSystem.LaplacianInPlace | matting/modules.py:141-144 | Row sums first, then W.mul_(−1) in place, then `from_coo` of the diagonal and `spadd`: the result equals diag(rowsum(W₀)) − W₀ of the matrix W₀ held on entry. |
| MattingSystem.ColorMixture | matting/modules.py:131-147 | The step-by-step builder equals CmLaplacian. |
| MattingSystem.CmLaplacianProps | matting/modules.py:131-147 | The colour-mixture builder fails exactly when `from_coo` rejects the Wcm triplets or CM_weights does not have N entries. Otherwise the intermediate L has zero row sums, and Lcm = Lᵀ·L is valid, N×N and symmetric, with zero row sums. |
| MattingSystem.LocSliceTriplet | matting/modules.py:156-170 | Triplet 9p+c of slice 0 has row inInd[p]−1−w, column inInd[p] + offset c, and value flows[c][0][p]·weights[p]. |
| MattingSystem.MattingWeights | matting/modules.py:167-175 | Because of the unconditional `break`, the loop returns exactly slice 0. The `spadd(Wmat, Wmat)` branch is never taken. |
| MattingSystem.MattingLaplacian | matting/modules.py:149-184 | The step-by-step builder equals MatLaplacian. |
| MattingSystem.MatLaplacianProps | matting/modules.py:149-184 | The matting Laplacian fails exactly when its 9P triplets exceed N·N. Otherwise Lmat is valid, N×N and symmetric, with zero row sums. |
| MattingSystem.IuTriplet | matting/modules.py:189-197 | Row IU_inInd[p] receives five triplets, at positions 5p..5p+4. They hold the columns IU_neighInd[p, 0..4] and the values IU_flows[p, c]·weights[p]. The sixth flow column is never read. |
| MattingSystem.IntraUnknowns | matting/modules.py:186-206 | The step-by-step builder equals CsLaplacian. |
| MattingSystem.CsLaplacianProps | matting/modules.py:186-206 | The intra-unknowns Laplacian fails exactly when its 5P triplets exceed N·N. Otherwise Lcs is valid, N×N and symmetric, with zero row sums. |
| MattingSystem.ElemMulAt | matting/modules.py:121 | `KU_weights.mul(kToUconf)` is the elementwise product. |
| MattingSystem.ScaleVecAt | matting/modules.py:122 | `lmbda*known` scales each entry by lmbda. |
| MattingSystem.Forward | matting/modules.py:108-129 | `forward` equals System: A = Lcs + (Lmat + ((Lcm + KU) + known)) and b = spmv(KU + known, kToU). |
| MattingSystem.SystemOk | matting/modules.py:108-125 | `forward` fails exactly when a builder fails or KU_weights or known does not have N entries. |
| MattingSystem.DiagonalWeightIs | matting/modules.py:121-122 | The weight on the diagonal of KU + known at i is KU_weights[i]·kToUconf[i] + lmbda·known[i]. |
| MattingSystem.SystemMatrix | matting/modules.py:124 | A is valid, N×N and symmetric. It denotes Lcs + Lmat + Lcm plus the KU + known weight on the diagonal. |
| MattingSystem.SystemRowSums | matting/modules.py:124 | Row i of A sums to the diagonal weight KU_weights[i]·kToUconf[i] + lmbda·known[i]. |
| MattingSystem.SystemRhs | matting/modules.py:125 | b has N entries, and b[i] = (KU_weights[i]·kToUconf[i] + lmbda·known[i])·kToU[i]. |
| Examples.Coo2CsrRowPointer | matting/test/test_sparse.py:115-130 | Triplet rows [0,0,1,2,3] with columns [0,3,1,2,3] in a 4×4 matrix give the row pointer [0,2,3,4,5]. |
| Examples.Coo2CsrValues | matting/test/test_sparse.py:115-132 | For these already row-ordered triplets and any five values (0..4 in the test), the CSR column array is exactly [0,3,1,2,3] and the value array is exactly the given values, each found at its triplet's position. |
| Examples.Coo2CsrRows | matting/test/test_sparse.py:115-132 | For these triplets and any five values, row 0 holds columns 0 and 3 with the first two values and rows 1-3 each hold their diagonal entry with the next value. |
| Examples.AddSameSparsity | matting/test/test_sparse.py:135-152 | The diagonal matrix of [0,1,2,3] plus itself keeps the row pointer and columns and has values [0,2,4,6]. |
| Examples.AddDifferentSparsity | matting/test/test_sparse.py:158-186 | I + B, for B with columns [1,1,2,3], has row pointer [0,2,3,4,5], columns [0,1,1,2,3] and values [1,1,2,2,2]. |
| Examples.MatrixVectorProduct | matting/test/test_sparse.py:189-204 | The 4×5 diagonal matrix of [0,1,2,3] times ones(5) is [0,1,2,3]. |
| Examples.MatrixVectorGradVector | matting/test/test_sparse.py:205-209 | With upstream gradient ones(4), the gradient with respect to v is [0,1,2,3,0]. |
| Examples.MatrixVectorGradValues | matting/test/test_sparse.py:205-210 | With upstream gradient ones(4), the gradient with respect to the values is [1,1,1,1]. |
| Examples.DiagonalProduct | matting/test/test_sparse.py:213-230 | The product of two n×n diagonal matrices is the diagonal matrix of the elementwise product. |
| Examples.MultiplySameSparsity | matting/test/test_sparse.py:213-230 | diag([0,1,2,3])·diag([3,6,1,8]) has values [0,6,2,24]. |
| Examples.DiagonalProductGradients | matting/test/test_sparse.py:231-236 | For diagonal factors and upstream gradient ones, dA.val = B.val and dB.val = A.val. |
| Examples.MultiplySameSparsityGradients | matting/test/test_sparse.py:231-236 | In the test, dA.val = [3,6,1,8] and dB.val = [0,1,2,3]. |
| Examples.MultiplyDifferentSparsity | matting/test/test_sparse.py:239-268 | A with rows [0,0,1,2,3] and columns [0,3,1,2,3], times B with columns [1,1,2,3], has row pointer [0,2,3,4,5], columns [1,3,1,2,3] and values all ones. |
| Examples.MultiplyDifferentSparsityGradients | matting/test/test_sparse.py:270-274 | The value gradients of A and B have A.nnz = 5 and B.nnz = 4 entries. |

## Left out

- Float32 rounding: values are exact reals, so the tests' 1e-5 tolerances become equalities.
- Integer widths: the int32 index arrays are unbounded integers; no index overflows in the model.
- The coo2csr, SpAdd, SpMV, SpMM and transpose kernels (`matting.functions.sparse` and the CUDA code declared in matting/src/sparse.h) are not part of this model.
  - Each kernel is specified by its observable result: canonical CSR, sorted columns, and duplicates summed.
  - Triplets outside the matrix are dropped by the model; the kernels' behaviour for them is unspecified.
- `transpose` is called at matting/modules.py:145, 176 and 198, but its source is not part of this model. `SparseOps.Transpose` is a specification of it by its denotation.
- The two scalar coefficients that the SpAdd kernel also accepts (both 1.0 at matting/test/test_sparse.py:55; `spadd` at matting/sparse.py:56-59 passes none): `SparseOps.SpAdd` and `SparseGrad.SpAddGrad` are the unit-coefficient sum A + B and its gradient.
- The spmm backward pass when C.nnz is 0, which the test skips (matting/test/test_sparse.py:98-99).
- `make_variable`, `Variable` wrapping and `.data` detaching: the autograd graph is not modelled. The gradients are explicit functions, checked where the tests assert them.
- `__str__`, and `sp_gram` and `sp_laplacian`, which only raise `NotImplemented` (matting/sparse.py:77-85).
- The conjugate-gradient solver called at matting/modules.py:95, `MattingSolver` and `MattingCNN`: the solver's source is not part of this model.
- Timing, logging (matting/modules.py:109, 126-127) and CUDA device placement.
- The unused image height `h` (matting/modules.py:153).
- MattingSystem.LocShaped, IuShaped and Shaped: the builders require the flow, neighbour and index arrays to have the shapes the source indexes. In the source a misshaped sample raises an indexing or broadcasting error; the model does not represent those errors.
- MattingSystem.Forward: `kToU` is read with zero outside its length, so a `kToU` of the wrong length is not an error in the model as it would be in the source's `spmv`.
- SparseOps.SpAdd and SparseOps.SpMM: the result of these functions on matrices of mismatched sizes or on invalid input is unspecified. The lemmas require valid operands of matching sizes, as every caller in matting/modules.py supplies.
- Coo.FromCooAt and Coo.FromCooRowLength: these require distinct triplets. The source's callers guarantee this, and the test generator removes duplicates (matting/test/test_sparse.py:21-36).
- `_matting_laplacian` is specified at the neighbour slice i = 0 that the source's `break` leaves. The slices i = 1..8 are defined but never combined.
