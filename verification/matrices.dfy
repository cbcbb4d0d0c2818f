/** Dense row-major matrices and the structural operations the QR kernels
    apply around the factorization: transposition, the upper-triangular view,
    the band-part mask, the top-rows crop, and multiplication by a rectangular
    identity. Entries are integers, which is enough for every operation here
    except the factorization itself. */
module Matrices {

  /** A matrix as its sequence of rows. */
  type Matrix<T> = seq<seq<T>>

  /** The matrix has `rows` rows of `cols` entries each. */
  predicate IsMatrix<T>(a: Matrix<T>, rows: nat, cols: nat) {
    |a| == rows && forall i :: 0 <= i < rows ==> |a[i]| == cols
  }

  /** The transpose of a rows x cols matrix. */
  function TransposeM<T>(a: Matrix<T>, rows: nat, cols: nat): (t: Matrix<T>)
    requires IsMatrix(a, rows, cols)
    ensures IsMatrix(t, cols, rows)
  {
    seq(cols, j requires 0 <= j < cols => seq(rows, i requires 0 <= i < rows => a[i][j]))
  }

  /** Entry (j, i) of the transpose is entry (i, j) of the matrix. */
  lemma TransposeEntries<T>(a: Matrix<T>, rows: nat, cols: nat)
    requires IsMatrix(a, rows, cols)
    ensures forall j, i :: 0 <= j < cols && 0 <= i < rows ==>
              TransposeM(a, rows, cols)[j][i] == a[i][j]
  {
  }

  /** Transposing twice gives back the matrix. */
  lemma TransposeTwiceM<T>(a: Matrix<T>, rows: nat, cols: nat)
    requires IsMatrix(a, rows, cols)
    ensures TransposeM(TransposeM(a, rows, cols), cols, rows) == a
  {
    var t := TransposeM(TransposeM(a, rows, cols), cols, rows);
    forall i | 0 <= i < rows
      ensures t[i] == a[i]
    {
    }
  }

  /** Every entry strictly below the main diagonal is zero. */
  predicate IsUpper(a: Matrix<int>) {
    forall i, j :: 0 <= j < i < |a| && j < |a[i]| ==> a[i][j] == 0
  }

  /** Eigen's triangularView<Upper>: the entries on and above the main diagonal,
      with zero below it. */
  function UpperView(a: Matrix<int>): (u: Matrix<int>)
    ensures |u| == |a|
    ensures forall i :: 0 <= i < |a| ==> |u[i]| == |a[i]|
  {
    seq(|a|, i requires 0 <= i < |a| =>
      seq(|a[i]|, j requires 0 <= j < |a[i]| => if i <= j then a[i][j] else 0))
  }

  /** The band-part mask: entry (i, j) survives when i - j is at most
      numLower and j - i is at most numUpper, a negative bound meaning
      "no bound"; every other entry becomes zero. */
  function BandPart(a: Matrix<int>, numLower: int, numUpper: int): (b: Matrix<int>)
    ensures |b| == |a|
    ensures forall i :: 0 <= i < |a| ==> |b[i]| == |a[i]|
  {
    seq(|a|, i requires 0 <= i < |a| =>
      seq(|a[i]|, j requires 0 <= j < |a[i]| =>
        if (numLower < 0 || i - j <= numLower) && (numUpper < 0 || j - i <= numUpper)
        then a[i][j] else 0))
  }

  /** The upper view zeroes exactly the strictly lower part: the result is
      upper triangular, and it agrees with the matrix on and above the
      diagonal. */
  lemma UpperViewSpec(a: Matrix<int>)
    ensures IsUpper(UpperView(a))
    ensures forall i, j :: 0 <= i <= j && i < |a| && j < |a[i]| ==> UpperView(a)[i][j] == a[i][j]
  {
  }

  /** A matrix is left unchanged by the upper view exactly when it is already
      upper triangular; in particular the view is idempotent. */
  lemma UpperViewFixedPoints(a: Matrix<int>)
    ensures UpperView(a) == a <==> IsUpper(a)
    ensures UpperView(UpperView(a)) == UpperView(a)
  {
    if IsUpper(a) {
      forall i | 0 <= i < |a|
        ensures UpperView(a)[i] == a[i]
      {
      }
    }
    var u := UpperView(a);
    forall i | 0 <= i < |a|
      ensures UpperView(u)[i] == u[i]
    {
    }
  }

  /** The band part with no lower diagonals and every upper diagonal is the
      upper-triangular view. */
  lemma BandPartUpperIsUpperView(a: Matrix<int>)
    ensures BandPart(a, 0, -1) == UpperView(a)
  {
    forall i | 0 <= i < |a|
      ensures BandPart(a, 0, -1)[i] == UpperView(a)[i]
    {
    }
  }

  /** Eigen's block(0, 0, k, n) of an m x n matrix: its first k rows. */
  function TopRows<T>(a: Matrix<T>, k: nat): (b: Matrix<T>)
    requires k <= |a|
    ensures |b| == k
    ensures forall i :: 0 <= i < k ==> b[i] == a[i]
  {
    a[..k]
  }

  /** The first k columns of a matrix whose rows all have at least k entries. */
  function LeftCols<T>(a: Matrix<T>, k: nat): (b: Matrix<T>)
    requires forall i :: 0 <= i < |a| ==> k <= |a[i]|
    ensures IsMatrix(b, |a|, k)
    ensures forall i, j :: 0 <= i < |a| && 0 <= j < k ==> b[i][j] == a[i][j]
  {
    seq(|a|, i requires 0 <= i < |a| => a[i][..k])
  }

  /** Matrix::Identity(rows, cols): ones on the main diagonal, zero elsewhere. */
  function Identity(rows: nat, cols: nat): (e: Matrix<int>)
    ensures IsMatrix(e, rows, cols)
  {
    seq(rows, i requires 0 <= i < rows => seq(cols, j requires 0 <= j < cols => if i == j then 1 else 0))
  }

  /** Sum of the products of corresponding entries. */
  function Dot(u: seq<int>, v: seq<int>): int
    requires |u| == |v|
  {
    if |u| == 0 then 0 else u[0] * v[0] + Dot(u[1..], v[1..])
  }

  /** Column j of a matrix. */
  function Column(b: Matrix<int>, j: nat): (c: seq<int>)
    requires forall l :: 0 <= l < |b| ==> j < |b[l]|
    ensures |c| == |b|
  {
    seq(|b|, l requires 0 <= l < |b| => b[l][j])
  }

  /** The product of a matrix whose rows have |b| entries with a |b| x cols
      matrix. */
  function MatMul(a: Matrix<int>, b: Matrix<int>, cols: nat): (c: Matrix<int>)
    requires forall i :: 0 <= i < |a| ==> |a[i]| == |b|
    requires IsMatrix(b, |b|, cols)
    ensures IsMatrix(c, |a|, cols)
  {
    seq(|a|, i requires 0 <= i < |a| =>
      seq(cols, j requires 0 <= j < cols => Dot(a[i], Column(b, j))))
  }

  /** A dot product with a vector of zeros is zero. */
  lemma {:induction false} DotZero(u: seq<int>, v: seq<int>)
    requires |u| == |v|
    requires forall l :: 0 <= l < |v| ==> v[l] == 0
    ensures Dot(u, v) == 0
    decreases |u|
  {
    if |u| > 0 {
      DotZero(u[1..], v[1..]);
    }
  }

  /** A dot product with the j-th unit vector selects entry j. */
  lemma {:induction false} DotUnit(u: seq<int>, v: seq<int>, j: nat)
    requires |u| == |v| && j < |u|
    requires v[j] == 1
    requires forall l :: 0 <= l < |v| && l != j ==> v[l] == 0
    ensures Dot(u, v) == u[j]
    decreases |u|
  {
    if j == 0 {
      DotZero(u[1..], v[1..]);
    } else {
      DotUnit(u[1..], v[1..], j - 1);
      assert v[0] == 0;
    }
  }

  /** The identity-extension trick of the reduced host path: multiplying an
      m x m matrix by Identity(m, k) yields exactly its first k columns. */
  lemma IdentityExtensionSelectsColumns(q: Matrix<int>, m: nat, k: nat)
    requires IsMatrix(q, m, m) && k <= m
    ensures MatMul(q, Identity(m, k), k) == LeftCols(q, k)
  {
    var e := Identity(m, k);
    var p := MatMul(q, e, k);
    forall i | 0 <= i < m
      ensures p[i] == LeftCols(q, k)[i]
    {
      forall j | 0 <= j < k
        ensures p[i][j] == q[i][j]
      {
        var c := Column(e, j);
        assert c[j] == 1;
        DotUnit(q[i], c, j);
      }
    }
  }
}
