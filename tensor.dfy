/** The `Sparse` object of matting/sparse.py as a mutable object: its index
    arrays and size are fixed at construction, its value buffer is updated in
    place by `mul_`. */
module SparseObject {
  import opened Sparse
  import opened SparseOps

  class SparseMatrix {
    var csrRowIdx: seq<int>
    var colIdx: seq<int>
    const val: array<real>
    var rows: nat
    var cols: nat

    /** The CSR value the object currently holds. */
    function Value(): (M: Csr)
      reads this, val
      ensures |M.val| == val.Length
    {
      Csr(csrRowIdx, colIdx, val[..], rows, cols)
    }

    /** Wraps arrays that have passed the constructor's checks. */
    constructor (M: Csr)
      ensures Value() == M
      ensures fresh(val)
    {
      csrRowIdx := M.rowPtr;
      colIdx := M.colIdx;
      rows := M.rows;
      cols := M.cols;
      val := new real[|M.val|](k requires 0 <= k < |M.val| => M.val[k]);
    }

    /** `Sparse(csr_row_idx, col_idx, val, size)`: the three ValueError checks,
        then a fresh object holding the arrays. */
    static method Create(rowPtr: seq<int>, colIdx: seq<int>, val: seq<real>, rows: nat, cols: nat)
      returns (r: Result<SparseMatrix>)
      ensures r.Err? <==> MakeSparse(rowPtr, colIdx, val, rows, cols).Err?
      ensures r.Err? ==> r.error == MakeSparse(rowPtr, colIdx, val, rows, cols).error
      ensures r.Ok? ==>
        fresh(r.value) && fresh(r.value.val) && r.value.Value() == Csr(rowPtr, colIdx, val, rows, cols)
    {
      var m := MakeSparse(rowPtr, colIdx, val, rows, cols);
      if m.Err? {
        return Err(m.error);
      }
      var obj := new SparseMatrix(m.value);
      return Ok(obj);
    }

    /** The `nnz` property: the length of the value buffer, which for a valid
        matrix is also the number of columns stored and the row pointer's end. */
    function Nnz(): (n: nat)
      reads this, val
      ensures n == |Value().val|
      ensures Valid(Value()) ==> n == |colIdx| && n == csrRowIdx[rows]
    {
      val.Length
    }

    /** `mul_(s)`: every stored value is multiplied by s in place; the row
        pointer, the columns and the size are untouched. */
    method Mul(s: real)
      modifies val
      ensures Value() == Scale(old(Value()), s)
      ensures csrRowIdx == old(csrRowIdx) && colIdx == old(colIdx) && rows == old(rows) && cols == old(cols)
      ensures old(Valid(Value())) ==> Valid(Value()) && SamePattern(Value(), old(Value()))
    {
      ghost var before := Value();
      for k := 0 to val.Length
        invariant forall t :: 0 <= t < k ==> val[t] == s * old(val[t])
        invariant forall t :: k <= t < val.Length ==> val[t] == old(val[t])
      {
        val[k] := s * val[k];
      }
      assert before.val == old(val[..]);
      forall t | 0 <= t < val.Length ensures val[..][t] == Scale(before, s).val[t] {
        assert val[..][t] == val[t] == s * before.val[t];
      }
      assert val[..] == Scale(before, s).val;
      if Valid(before) {
        ScaleGet(before, s);
      }
    }
  }
}
