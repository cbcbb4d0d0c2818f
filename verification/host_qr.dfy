/** The host kernel (QrOp): output shapes for one matrix and the structural
    part of QrOp::ComputeMatrix. The Householder factorization itself is done
    by a dense linear-algebra library; its two answers for the m x n input
    are given here as a Factorization: the packed factor matrixQR() (m x n,
    R on and above the diagonal, reflectors below) and the accumulated
    product householderQ() (m x m). */
module HostQr {
  import opened Shapes
  import opened Matrices

  /** What the library's HouseholderQR reports for one m x n matrix. */
  datatype Factorization = Factorization(packed: Matrix<int>, householder: Matrix<int>)

  predicate WellShaped(f: Factorization, m: nat, n: nat) {
    IsMatrix(f.packed, m, n) && IsMatrix(f.householder, m, m)
  }

  /** The two outputs of one decomposition. */
  datatype QR = QR(q: Matrix<int>, r: Matrix<int>)

  /** The outputs have exactly the shapes the shape derivation announces. */
  predicate HasShapes(out: QR, o: OutputShapes)
    requires |o.q| == 2 && |o.r| == 2
  {
    IsMatrix(out.q, o.q[0], o.q[1]) && IsMatrix(out.r, o.r[0], o.r[1])
  }

  /** QrOp::ComputeMatrix. Full mode returns the whole Householder product and
      the upper view of the packed factor. Reduced mode multiplies the product
      by Identity(m, k), k = min(m, n), and takes the upper view of the top k
      rows of the packed factor. */
  function ComputeMatrix(f: Factorization, m: nat, n: nat, full: bool): (out: QR)
    requires WellShaped(f, m, n)
    ensures HasShapes(out, HostOutputShapes(m, n, full))
    ensures IsUpper(out.r)
    ensures forall i, j :: 0 <= i <= j && i < |out.r| && j < n ==> out.r[i][j] == f.packed[i][j]
    ensures forall i, j :: 0 <= i < m && 0 <= j < |out.q[i]| ==> out.q[i][j] == f.householder[i][j]
  {
    var k := Min(m, n);
    UpperViewSpec(f.packed);
    UpperViewSpec(TopRows(f.packed, k));
    IdentityExtensionSelectsColumns(f.householder, m, k);
    if full then
      QR(f.householder, UpperView(f.packed))
    else
      QR(MatMul(f.householder, Identity(m, k), k), UpperView(TopRows(f.packed, k)))
  }

  /** The reduced outputs are the full outputs cut down to k = min(m, n): Q
      loses its columns past k and R its rows past k. */
  lemma ReducedIsCropOfFull(f: Factorization, m: nat, n: nat)
    requires WellShaped(f, m, n)
    ensures var full := ComputeMatrix(f, m, n, true);
            var reduced := ComputeMatrix(f, m, n, false);
            && reduced.q == LeftCols(full.q, Min(m, n))
            && reduced.r == TopRows(full.r, Min(m, n))
  {
    var k := Min(m, n);
    var full := ComputeMatrix(f, m, n, true);
    var reduced := ComputeMatrix(f, m, n, false);
    IdentityExtensionSelectsColumns(f.householder, m, k);
    forall i | 0 <= i < k
      ensures reduced.r[i] == full.r[i]
    {
    }
  }

  /** In both modes Q's column count equals R's row count, so the product Q R
      is defined and is m x n, the shape of the input. */
  lemma ProductIsWellShaped(f: Factorization, m: nat, n: nat, full: bool)
    requires WellShaped(f, m, n)
    ensures var out := ComputeMatrix(f, m, n, full);
            && (forall i :: 0 <= i < m ==> |out.q[i]| == |out.r|)
            && IsMatrix(out.r, |out.r|, n)
            && IsMatrix(MatMul(out.q, out.r, n), m, n)
  {
  }
}
