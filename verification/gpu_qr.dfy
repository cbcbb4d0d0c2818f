/** The data path of the accelerator kernel (QrOpGpu::ComputeAsync), one
    matrix of the batch at a time. The solver works in column-major storage,
    so the kernel keeps every matrix in a scratch buffer holding its
    transpose: an m x n column-major matrix is an n x m row-major one.

    The solver calls are modelled by what they leave in that buffer, in terms
    of the same Factorization the host library reports:
    - Geqrf leaves the packed factor (column-major);
    - Orgqr (m >= n) leaves the first n columns of the Householder product
      (column-major), over the packed factor it replaces. */
module GpuQr {
  import opened Shapes
  import opened Matrices
  import opened HostQr
  import Permutation

  datatype Option<T> = None | Some(value: T)

  /** The kernel generates Q only outside the case m != n && (full || m < n),
      for which it reports Unimplemented. */
  predicate QSupported(m: nat, n: nat, full: bool) {
    !(m != n && (full || m < n))
  }

  /** The branch condition, stated positively: Q is generated exactly for
      square inputs, and for tall inputs in reduced mode. */
  lemma QSupportedCases(m: nat, n: nat, full: bool)
    ensures QSupported(m, n, full) <==> m == n || (!full && m > n)
    ensures !QSupported(4, 6, true) && !QSupported(4, 6, false) && QSupported(6, 4, false)
  {
  }

  /** A batch of rows x cols matrices viewed as the rank-3 tensor
      (batch, rows, cols) that flat_inner_dims<Scalar, 3> addresses; indices
      outside the tensor read as `fill`. */
  function FromBatch<T>(mats: seq<Matrix<T>>, rows: nat, cols: nat, fill: T): (t: Permutation.Tensor<T>)
    requires forall b :: 0 <= b < |mats| ==> IsMatrix(mats[b], rows, cols)
    ensures t.shape == [|mats|, rows, cols]
  {
    Permutation.Tensor([|mats|, rows, cols], (o: seq<nat>) =>
      if |o| == 3 && o[0] < |mats| && o[1] < rows && o[2] < cols then
        var mat := mats[o[0]];
        assert IsMatrix(mat, rows, cols);
        mat[o[1]][o[2]]
      else fill)
  }

  /** DoTranspose with the kernel's permutation on a batch transposes every
      matrix of the batch on its own: this is why the per-matrix data path
      below uses the matrix transpose. */
  lemma BatchTransposeIsMatrixTranspose<T>(mats: seq<Matrix<T>>, rows: nat, cols: nat, fill: T)
    requires forall b :: 0 <= b < |mats| ==> IsMatrix(mats[b], rows, cols)
    ensures var u := Permutation.Transpose(FromBatch(mats, rows, cols, fill), Permutation.TransposePerm(3));
            var ts := seq(|mats|, b requires 0 <= b < |mats| => TransposeM(mats[b], rows, cols));
            && u.shape == [|mats|, cols, rows]
            && forall o :: Permutation.InBounds(o, u.shape) ==> u.at(o) == FromBatch(ts, cols, rows, fill).at(o)
  {
    var t := FromBatch(mats, rows, cols, fill);
    var u := Permutation.Transpose(t, Permutation.TransposePerm(3));
    var ts := seq(|mats|, b requires 0 <= b < |mats| => TransposeM(mats[b], rows, cols));
    Permutation.TransposeSwapsMatrixAxes(t);
    assert u.shape == [|mats|, cols, rows];
    forall o: seq<nat> | Permutation.InBounds(o, u.shape)
      ensures u.at(o) == FromBatch(ts, cols, rows, fill).at(o)
    {
      var x := Permutation.SwapLastTwo(o);
      assert x == [o[0], o[2], o[1]];
      assert u.at(o) == mats[o[0]][o[2]][o[1]];
    }
  }

  /** The scratch buffer after the in-place Geqrf: the packed factor in
      column-major storage. */
  function GeqrfBuffer(f: Factorization, m: nat, n: nat): (buf: Matrix<int>)
    requires WellShaped(f, m, n)
    ensures IsMatrix(buf, n, m)
  {
    TransposeM(f.packed, m, n)
  }

  /** Geam(OP_T, OP_N, n, k, 1, A, lda = m, 0, -, C, ldc = n): reads the
      leading k x n block of the column-major m x n matrix in `buf` and writes
      its transpose in column-major storage, which is the k x n block itself
      in row-major storage. */
  function GeamTransposeCrop(buf: Matrix<int>, m: nat, n: nat, k: nat): (c: Matrix<int>)
    requires IsMatrix(buf, n, m) && k <= m
    ensures IsMatrix(c, k, n)
  {
    seq(k, i requires 0 <= i < k => seq(n, j requires 0 <= j < n => buf[j][i]))
  }

  /** The scratch buffer after the in-place Orgqr: the first n columns of the
      Householder product in column-major storage. */
  function OrgqrBuffer(f: Factorization, m: nat, n: nat): (buf: Matrix<int>)
    requires WellShaped(f, m, n) && n <= m
    ensures IsMatrix(buf, n, m)
  {
    TransposeM(LeftCols(f.householder, n), m, n)
  }

  /** R: in full mode or for a square input the whole buffer is transposed
      back; otherwise Geam crops the top k rows while converting the layout.
      Then the band part with no lower and every upper diagonal is applied. */
  function ExtractR(f: Factorization, m: nat, n: nat, full: bool): (r: Matrix<int>)
    requires WellShaped(f, m, n)
    ensures IsUpper(r)
  {
    var buf := GeqrfBuffer(f, m, n);
    var k := Min(m, n);
    var raw := if full || m == n then TransposeM(buf, n, m) else GeamTransposeCrop(buf, m, n, k);
    BandPartUpperIsUpperView(raw);
    UpperViewSpec(raw);
    BandPart(raw, 0, -1)
  }

  /** Q: None in the unsupported case; otherwise Orgqr in place, then the
      buffer transposed back to row-major. */
  function ExpandQ(f: Factorization, m: nat, n: nat, full: bool): (q: Option<Matrix<int>>)
    requires WellShaped(f, m, n)
    ensures q.Some? <==> QSupported(m, n, full)
  {
    if !QSupported(m, n, full) then None
    else Some(TransposeM(OrgqrBuffer(f, m, n), n, m))
  }

  /** One matrix through the accelerator path: None when Q cannot be
      generated. */
  function ComputeMatrixGpu(f: Factorization, m: nat, n: nat, full: bool): (out: Option<QR>)
    requires WellShaped(f, m, n)
    ensures out.Some? <==> QSupported(m, n, full)
  {
    match ExpandQ(f, m, n, full)
    case None => None
    case Some(q) => Some(QR(q, ExtractR(f, m, n, full)))
  }

  /** On every branch, the accelerator's R equals the host kernel's R: the
      whole-buffer transpose and the Geam crop both recover the top rows of
      the packed factor, and the band part is the upper view. */
  lemma GpuRMatchesHost(f: Factorization, m: nat, n: nat, full: bool)
    requires WellShaped(f, m, n)
    ensures ExtractR(f, m, n, full) == ComputeMatrix(f, m, n, full).r
  {
    var k := Min(m, n);
    var buf := GeqrfBuffer(f, m, n);
    TransposeTwiceM(f.packed, m, n);
    var raw := if full || m == n then TransposeM(buf, n, m) else GeamTransposeCrop(buf, m, n, k);
    BandPartUpperIsUpperView(raw);
    if full || m == n {
      assert raw == f.packed;
      if !full {
        assert TopRows(f.packed, k) == f.packed;
      }
    } else {
      forall i | 0 <= i < k
        ensures raw[i] == f.packed[i]
      {
      }
      assert raw == TopRows(f.packed, k);
    }
  }

  /** Wherever the accelerator path produces Q, it produces exactly the host
      kernel's outputs: Orgqr's first n columns are the whole product when
      m == n, and the identity-extension product when m > n in reduced mode. */
  lemma GpuMatchesHost(f: Factorization, m: nat, n: nat, full: bool)
    requires WellShaped(f, m, n)
    ensures QSupported(m, n, full) ==> ComputeMatrixGpu(f, m, n, full) == Some(ComputeMatrix(f, m, n, full))
  {
    if QSupported(m, n, full) {
      GpuRMatchesHost(f, m, n, full);
      var k := Min(m, n);
      var l := LeftCols(f.householder, n);
      TransposeTwiceM(l, m, n);
      IdentityExtensionSelectsColumns(f.householder, m, k);
      if m == n {
        forall i | 0 <= i < m
          ensures l[i] == f.householder[i]
        {
        }
        assert l == f.householder;
      }
    }
  }

  /** An allocated output the kernel never writes. Its contents are
      unspecified; the model fills it with zeros. */
  function Unwritten(rows: nat, cols: nat): (a: Matrix<int>)
    ensures IsMatrix(a, rows, cols)
  {
    seq(rows, i => seq(cols, j => 0))
  }

  /** The outputs allocated for one matrix of an empty input. */
  function EmptyOutputs(m: nat, n: nat, full: bool): (out: QR)
    ensures HasShapes(out, HostOutputShapes(m, n, full))
  {
    var o := HostOutputShapes(m, n, full);
    QR(Unwritten(o.q[0], o.q[1]), Unwritten(o.r[0], o.r[1]))
  }

  /** A matrix with no entries is determined by its shape. */
  lemma EmptyMatrixUnique(a: Matrix<int>, b: Matrix<int>, rows: nat, cols: nat)
    requires IsMatrix(a, rows, cols) && IsMatrix(b, rows, cols) && (rows == 0 || cols == 0)
    ensures a == b
  {
    if rows > 0 {
      forall i | 0 <= i < rows
        ensures a[i] == b[i]
      {
      }
    }
  }

  /** The whole batch. An input with no elements (an empty batch, or m or n
      zero) completes at once with its outputs allocated and nothing written.
      Otherwise R is extracted for every matrix (the Geqrf and R stages run
      before the Q branch is decided), then Q is generated for every matrix,
      or the batch fails when Q is unsupported. */
  method ComputeBatch(fs: seq<Factorization>, m: nat, n: nat, full: bool) returns (out: Option<seq<QR>>)
    requires forall b :: 0 <= b < |fs| ==> WellShaped(fs[b], m, n)
    ensures out.Some? <==> |fs| == 0 || m == 0 || n == 0 || QSupported(m, n, full)
    ensures out.Some? ==> |out.value| == |fs|
    ensures out.Some? ==> forall b :: 0 <= b < |fs| ==> HasShapes(out.value[b], HostOutputShapes(m, n, full))
    ensures out.Some? ==> forall b :: 0 <= b < |fs| ==> out.value[b].r == ComputeMatrix(fs[b], m, n, full).r
    ensures out.Some? && !(full && n == 0 < m) ==>
              forall b :: 0 <= b < |fs| ==> out.value[b] == ComputeMatrix(fs[b], m, n, full)
  {
    if |fs| == 0 || m == 0 || n == 0 {
      var empty := EmptyOutputs(m, n, full);
      var o := HostOutputShapes(m, n, full);
      forall b | 0 <= b < |fs|
        ensures empty.r == ComputeMatrix(fs[b], m, n, full).r
        ensures !(full && n == 0 < m) ==> empty == ComputeMatrix(fs[b], m, n, full)
      {
        var host := ComputeMatrix(fs[b], m, n, full);
        EmptyMatrixUnique(empty.r, host.r, o.r[0], o.r[1]);
        if !(full && n == 0 < m) {
          EmptyMatrixUnique(empty.q, host.q, o.q[0], o.q[1]);
        }
      }
      return Some(seq(|fs|, b => empty));
    }
    var rs: seq<Matrix<int>> := [];
    for b := 0 to |fs|
      invariant |rs| == b
      invariant forall c :: 0 <= c < b ==> rs[c] == ComputeMatrix(fs[c], m, n, full).r
    {
      GpuRMatchesHost(fs[b], m, n, full);
      rs := rs + [ExtractR(fs[b], m, n, full)];
    }
    if !QSupported(m, n, full) {
      return None;
    }
    var outs: seq<QR> := [];
    for b := 0 to |fs|
      invariant |outs| == b
      invariant forall c :: 0 <= c < b ==> outs[c] == ComputeMatrix(fs[c], m, n, full)
    {
      GpuMatchesHost(fs[b], m, n, full);
      var q := ExpandQ(fs[b], m, n, full).value;
      outs := outs + [QR(q, rs[b])];
    }
    return Some(outs);
  }
}
