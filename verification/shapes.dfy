/** Tensor shapes of the QR operator: the output shapes of the host kernel
    (QrOp::GetOutputMatrixShapes), the output and scratch shapes of the batched
    accelerator kernel (QrOpGpu::ComputeAsync), and the element counts that
    decide the empty-input short-circuit. */
module Shapes {

  /** A tensor shape: one extent per axis, outermost first. */
  type Shape = seq<nat>

  function Min(a: nat, b: nat): nat {
    if a <= b then a else b
  }

  function Max(a: nat, b: nat): nat {
    if a <= b then b else a
  }

  /** Number of elements of a tensor of this shape (TensorShape::num_elements). */
  function NumElements(s: Shape): nat {
    if |s| == 0 then 1 else NumElements(s[..|s| - 1]) * s[|s| - 1]
  }

  /** Row count m of the trailing matrices of a batched shape. */
  function Rows(s: Shape): nat
    requires |s| >= 2
  {
    s[|s| - 2]
  }

  /** Column count n of the trailing matrices of a batched shape. */
  function Cols(s: Shape): nat
    requires |s| >= 2
  {
    s[|s| - 1]
  }

  /** The leading (batch) axes of a batched shape. */
  function BatchDims(s: Shape): Shape
    requires |s| >= 2
  {
    s[..|s| - 2]
  }

  /** Number of matrices in a batched tensor: the leading axes collapsed, as
      flat_inner_dims<Scalar, 3>().dimension(0) computes it. */
  function BatchSize(s: Shape): nat
    requires |s| >= 2
  {
    NumElements(BatchDims(s))
  }

  /** The two output shapes of one invocation: Q first, then R. */
  datatype OutputShapes = OutputShapes(q: Shape, r: Shape)

  /** Output matrix shapes of the host kernel for one m x n input matrix. */
  function HostOutputShapes(m: nat, n: nat, full: bool): (o: OutputShapes)
    ensures |o.q| == 2 && |o.r| == 2
    ensures o.q[0] == m && o.r[1] == n
    ensures o.q[1] == o.r[0]
    ensures full ==> o.q[1] == m
    ensures !full ==> o.q[1] <= m && o.q[1] <= n && (o.q[1] == m || o.q[1] == n)
  {
    var k := Min(m, n);
    if full then OutputShapes([m, m], [m, n])
    else OutputShapes([m, k], [k, n])
  }

  /** Output shapes of the accelerator kernel: copies of the input shape in which
      Q has its last axis and R its second-to-last axis rewritten. */
  function GpuOutputShapes(input: Shape, full: bool): (o: OutputShapes)
    requires |input| >= 2
    ensures |o.q| == |input| && |o.r| == |input|
  {
    var nd := |input|;
    var m := Rows(input);
    var n := Cols(input);
    var k := Min(m, n);
    OutputShapes(input[nd - 1 := if full then m else k],
                 input[nd - 2 := if full then m else k])
  }

  /** Shape of the scratch copy of the input with its last two axes swapped. */
  function TransposedShape(input: Shape): (t: Shape)
    requires |input| >= 2
    ensures |t| == |input|
    ensures BatchDims(t) == BatchDims(input)
    ensures Rows(t) == Cols(input) && Cols(t) == Rows(input)
  {
    var nd := |input|;
    input[nd - 2 := input[nd - 1]][nd - 1 := input[nd - 2]]
  }

  /** Shape of the scratch buffer of Householder coefficients: one row of
      min(m, n) scalars per matrix of the batch. */
  function TauShape(input: Shape): (t: Shape)
    requires |input| >= 2
    ensures |t| == 2
    ensures t[0] * Rows(input) * Cols(input) == NumElements(input)
    ensures t[1] <= Rows(input) && t[1] <= Cols(input)
    ensures t[1] == Rows(input) || t[1] == Cols(input)
  {
    NumElementsBatched(input);
    [BatchSize(input), Min(Rows(input), Cols(input))]
  }

  /** A batched tensor holds BatchSize matrices of m x n elements each, so it is
      empty exactly when the batch is empty or either matrix extent is zero. */
  lemma NumElementsBatched(s: Shape)
    requires |s| >= 2
    ensures NumElements(s) == BatchSize(s) * Rows(s) * Cols(s)
    ensures NumElements(s) == 0 <==> BatchSize(s) == 0 || Rows(s) == 0 || Cols(s) == 0
  {
    var init := s[..|s| - 1];
    assert init[..|init| - 1] == BatchDims(s);
    assert NumElements(init) == BatchSize(s) * Rows(s);
    MulZero(BatchSize(s), Rows(s));
    MulZero(BatchSize(s) * Rows(s), Cols(s));
  }

  lemma MulSwapLast(x: nat, y: nat, z: nat)
    ensures x * z * y == x * y * z
  {
    assert x * z * y == x * (z * y);
  }

  lemma MulZero(x: nat, y: nat)
    ensures x * y == 0 <==> x == 0 || y == 0
  {
    if x > 0 && y > 0 {
      assert x * y >= y;
    }
  }

  /** The accelerator output shapes keep every batch axis, and their trailing
      two axes are exactly the host kernel's output shapes for m x n. */
  lemma GpuShapesAgreeWithHost(input: Shape, full: bool)
    requires |input| >= 2
    ensures var o := GpuOutputShapes(input, full);
            var h := HostOutputShapes(Rows(input), Cols(input), full);
            && BatchDims(o.q) == BatchDims(input)
            && BatchDims(o.r) == BatchDims(input)
            && o.q[|o.q| - 2..] == h.q
            && o.r[|o.r| - 2..] == h.r
  {
  }

  /** The scratch transpose has as many elements as the input. */
  lemma TransposedShapeSameSize(input: Shape)
    requires |input| >= 2
    ensures NumElements(TransposedShape(input)) == NumElements(input)
  {
    var t := TransposedShape(input);
    NumElementsBatched(input);
    NumElementsBatched(t);
    var b, m, n := BatchSize(input), Rows(input), Cols(input);
    assert BatchSize(t) == b;
    MulSwapLast(b, m, n);
  }

  /** The documented shape law, instantiated: a 5 x 3 input, and a 3 x 5 input. */
  lemma HostShapeExamples()
    ensures HostOutputShapes(5, 3, false) == OutputShapes([5, 3], [3, 3])
    ensures HostOutputShapes(5, 3, true) == OutputShapes([5, 5], [5, 3])
    ensures HostOutputShapes(3, 5, false) == OutputShapes([3, 3], [3, 5])
  {
  }
}
