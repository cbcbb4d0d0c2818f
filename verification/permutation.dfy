/** The axis permutation of the accelerator kernel and the transposes it
    drives. The kernel builds `perm` as 0, 1, ..., ndims-1 with the last two
    entries swapped, and hands it to DoTranspose to convert between the
    row-major layout of the framework and the column-major layout of the
    accelerator's solver. A tensor is modelled as a shape plus an element
    lookup by multi-index, over an abstract element type. */
module Permutation {
  import opened Shapes

  /** 0, 1, ..., n-1 (std::iota). */
  function Iota(n: nat): (p: seq<nat>)
    ensures |p| == n
    ensures forall i :: 0 <= i < n ==> p[i] == i
  {
    seq(n, i => i)
  }

  /** The sequence with its last two entries exchanged (std::swap of the last
      two entries). */
  function SwapLastTwo<T>(s: seq<T>): (r: seq<T>)
    requires |s| >= 2
    ensures |r| == |s|
  {
    s[|s| - 2 := s[|s| - 1]][|s| - 1 := s[|s| - 2]]
  }

  /** The permutation the accelerator kernel transposes with. */
  function TransposePerm(ndims: nat): (perm: seq<nat>)
    requires ndims >= 2
    ensures |perm| == ndims
    ensures IsPermutation(perm)
  {
    SwapLastTwo(Iota(ndims))
  }

  /** Every entry names an axis, and no axis is named twice. */
  predicate IsPermutation(p: seq<nat>) {
    && (forall i :: 0 <= i < |p| ==> p[i] < |p|)
    && (forall i, j :: 0 <= i < j < |p| ==> p[i] != p[j])
  }

  /** Entry i of the result is entry p[i] of x: how a transpose rearranges the
      extents of a shape. */
  function Gather<T>(x: seq<T>, p: seq<nat>): (r: seq<T>)
    requires forall i :: 0 <= i < |p| ==> p[i] < |x|
    ensures |r| == |p|
  {
    seq(|p|, i requires 0 <= i < |p| => x[p[i]])
  }

  /** The first position of v in p, or |p| when v does not occur. */
  function IndexOf(p: seq<nat>, v: nat): (i: nat)
    ensures i <= |p|
    ensures i < |p| ==> p[i] == v
    ensures forall j :: 0 <= j < i ==> p[j] != v
  {
    if |p| == 0 then 0
    else if p[0] == v then 0
    else 1 + IndexOf(p[1..], v)
  }

  /** The inverse rearrangement of Gather: entry p[i] of the result is entry i
      of o. Positions outside o read as 0 so that the lookup is total. */
  function Scatter(o: seq<nat>, p: seq<nat>): (x: seq<nat>)
    ensures |x| == |p|
  {
    seq(|p|, j requires 0 <= j < |p| =>
      var i := IndexOf(p, j);
      if i < |o| then o[i] else 0)
  }

  /** A tensor: a shape and the element at every multi-index. */
  datatype Tensor<T> = Tensor(shape: Shape, at: seq<nat> -> T)

  predicate InBounds(idx: seq<nat>, shape: Shape) {
    |idx| == |shape| && forall i :: 0 <= i < |idx| ==> idx[i] < shape[i]
  }

  /** DoTranspose(src, perm, dst): axis i of the result is axis perm[i] of the
      source, so the result element at o is the source element at the index
      that Gather maps to o. */
  function Transpose<T>(t: Tensor<T>, perm: seq<nat>): (u: Tensor<T>)
    requires IsPermutation(perm) && |perm| == |t.shape|
    ensures |u.shape| == |t.shape|
  {
    Tensor(Gather(t.shape, perm), o => t.at(Scatter(o, perm)))
  }

  /** The kernel's permutation is the identity on every batch axis, swaps the
      two matrix axes, is a permutation, and undoes itself. */
  lemma TransposePermInvolution(ndims: nat)
    requires ndims >= 2
    ensures var perm := TransposePerm(ndims);
            && (forall i :: 0 <= i < ndims - 2 ==> perm[i] == i)
            && perm[ndims - 2] == ndims - 1
            && perm[ndims - 1] == ndims - 2
            && Gather(perm, perm) == Iota(ndims)
  {
  }

  /** Gathering with the kernel's permutation swaps the last two entries, and
      scattering with it does the same, for any sequence of the right length. */
  lemma GatherScatterSwap(x: seq<nat>)
    requires |x| >= 2
    ensures Gather(x, TransposePerm(|x|)) == SwapLastTwo(x)
    ensures Scatter(x, TransposePerm(|x|)) == SwapLastTwo(x)
  {
    var nd := |x|;
    var perm := TransposePerm(nd);
    forall j | 0 <= j < nd
      ensures IndexOf(perm, j) == perm[j]
    {
      IndexOfPerm(nd, j);
    }
  }

  /** Where each axis sits in the kernel's permutation. */
  lemma IndexOfPerm(nd: nat, j: nat)
    requires nd >= 2 && j < nd
    ensures IndexOf(TransposePerm(nd), j) == TransposePerm(nd)[j]
  {
    var perm := TransposePerm(nd);
    var w := perm[j];
    assert perm[w] == j;
  }

  /** For any permutation, gathering what was scattered restores the index: the
      transposed element at o is read from an index that the transpose maps
      back to o. */
  lemma {:induction false} GatherScatter(o: seq<nat>, p: seq<nat>)
    requires IsPermutation(p) && |o| == |p|
    ensures Gather(Scatter(o, p), p) == o
  {
    forall i | 0 <= i < |p|
      ensures Scatter(o, p)[p[i]] == o[i]
    {
      assert IndexOf(p, p[i]) == i;
    }
  }

  /** Transposing with the kernel's permutation swaps the two matrix extents of
      the shape, as the scratch shape is built, and the element at o of the
      result is the source element with o's last two coordinates swapped. */
  lemma TransposeSwapsMatrixAxes<T>(t: Tensor<T>)
    requires |t.shape| >= 2
    ensures var perm := TransposePerm(|t.shape|);
            var u := Transpose(t, perm);
            && u.shape == TransposedShape(t.shape)
            && forall o :: InBounds(o, u.shape) ==>
                 InBounds(SwapLastTwo(o), t.shape) && u.at(o) == t.at(SwapLastTwo(o))
  {
    var perm := TransposePerm(|t.shape|);
    GatherScatterSwap(t.shape);
    var u := Transpose(t, perm);
    forall o | InBounds(o, u.shape)
      ensures InBounds(SwapLastTwo(o), t.shape) && u.at(o) == t.at(SwapLastTwo(o))
    {
      TransposedIndex(t, o);
    }
  }

  /** One index of TransposeSwapsMatrixAxes. */
  lemma TransposedIndex<T>(t: Tensor<T>, o: seq<nat>)
    requires |t.shape| >= 2 && InBounds(o, SwapLastTwo(t.shape))
    ensures InBounds(SwapLastTwo(o), t.shape)
    ensures Transpose(t, TransposePerm(|t.shape|)).at(o) == t.at(SwapLastTwo(o))
  {
    GatherScatterSwap(o);
    var x := SwapLastTwo(o);
    var nd := |o|;
    forall i | 0 <= i < nd
      ensures x[i] < t.shape[i]
    {
      if i < nd - 2 {
        assert x[i] == o[i];
      }
    }
  }

  /** Scattering twice with the kernel's permutation restores the index. */
  lemma ScatterTwice(o: seq<nat>)
    requires |o| >= 2
    ensures Scatter(Scatter(o, TransposePerm(|o|)), TransposePerm(|o|)) == o
  {
    GatherScatterSwap(o);
    GatherScatterSwap(SwapLastTwo(o));
    assert SwapLastTwo(SwapLastTwo(o)) == o;
  }

  /** Transposing twice with the kernel's permutation restores the tensor: the
      same shape and the same element at every index. */
  lemma TransposeTwice<T>(t: Tensor<T>)
    requires |t.shape| >= 2
    ensures var perm := TransposePerm(|t.shape|);
            var u := Transpose(Transpose(t, perm), perm);
            && u.shape == t.shape
            && forall o :: |o| == |t.shape| ==> u.at(o) == t.at(o)
  {
    var nd := |t.shape|;
    var perm := TransposePerm(nd);
    var u1 := Transpose(t, perm);
    var u := Transpose(u1, perm);
    GatherScatterSwap(t.shape);
    GatherScatterSwap(u1.shape);
    assert SwapLastTwo(SwapLastTwo(t.shape)) == t.shape;
    forall o | |o| == nd
      ensures u.at(o) == t.at(o)
    {
      ScatterTwice(o);
    }
  }
}
