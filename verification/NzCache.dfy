/** `trans_nd_to_nz`: the last two dimensions of a cache tensor of any rank moved into NZ blocks. */
module NzCache {
  import opened Prelude
  import opened Arithmetic
  import opened Tensors
  import opened NzLayout
  import opened NzTransforms

  datatype DType = Int8 | Other

  datatype Error = TooFewDimensions | ReshapeMismatch

  function BlockWidth(dtype: DType): nat {
    if dtype.Int8? then 32 else 16
  }

  function Ceil(a: nat, b: nat): nat
    requires b > 0
  {
    (a + b - 1) / b
  }

  /** Axis i for i < offset, then the four block axes in the order 2, 0, 1, 3. */
  function Axes(offset: nat): (r: seq<nat>)
    ensures |r| == offset + 4
    ensures forall i :: 0 <= i < offset ==> r[i] == i
    ensures r[offset] == offset + 2 && r[offset + 1] == offset && r[offset + 2] == offset + 1
    ensures r[offset + 3] == offset + 3
  {
    seq(offset, i => i) + [offset + 2, offset, offset + 1, offset + 3]
  }

  /** The inverse order. */
  function BackAxes(offset: nat): (r: seq<nat>)
    ensures |r| == offset + 4
    ensures forall i :: 0 <= i < offset ==> r[i] == i
    ensures r[offset] == offset + 1 && r[offset + 1] == offset + 2 && r[offset + 2] == offset
    ensures r[offset + 3] == offset + 3
  {
    seq(offset, i => i) + [offset + 1, offset + 2, offset, offset + 3]
  }

  lemma InverseOf(axes: seq<nat>, back: seq<nat>)
    requires |axes| == |back|
    requires forall q :: 0 <= q < |axes| ==> axes[q] < |axes| && back[q] < |axes|
    requires forall q :: 0 <= q < |axes| ==> back[axes[q]] == q && axes[back[q]] == q
    ensures Inverse(axes, back)
  {
    forall p: nat | p < |axes|
      ensures p in axes && p in back
    {
      assert axes[back[p]] == p && back[axes[p]] == p;
    }
    forall i, j | 0 <= i < j < |axes|
      ensures axes[i] != axes[j] && back[i] != back[j]
    {
      assert back[axes[i]] == i && back[axes[j]] == j && axes[back[i]] == i && axes[back[j]] == j;
    }
  }

  lemma AxesInverse(offset: nat)
    ensures Inverse(Axes(offset), BackAxes(offset))
  {
    InverseOf(Axes(offset), BackAxes(offset));
  }

  function TransNdToNz(t: Tensor, dtype: DType): Outcome<Tensor, Error>
    requires t.Valid()
  {
    var n := |t.shape|;
    if n < 2 then Raised(TooFewDimensions)
    else
      var split := t.shape[..n - 2] + [Ceil(t.shape[n - 2], 16), 16, Ceil(t.shape[n - 1], BlockWidth(dtype)),
                                       BlockWidth(dtype)];
      if Size(split) != |t.data| then Raised(ReshapeMismatch)
      else
        AxesInverse(n - 2);
        Ok(Permute(Reshape(t, split), Axes(n - 2)))
  }

  /** Undoing the permutation and the reshape restores the tensor, for every element type and rank. */
  lemma TransRoundTrip(t: Tensor, dtype: DType)
    requires t.Valid() && TransNdToNz(t, dtype).Ok?
    ensures var u := TransNdToNz(t, dtype).value;
            && u.Valid() && |u.shape| == |t.shape| + 2 && Inverse(Axes(|t.shape| - 2), BackAxes(|t.shape| - 2))
            && Reshape(Permute(u, BackAxes(|t.shape| - 2)), t.shape) == t
  {
    var n := |t.shape|;
    AxesInverse(n - 2);
    var split := t.shape[..n - 2] + [Ceil(t.shape[n - 2], 16), 16, Ceil(t.shape[n - 1], BlockWidth(dtype)),
                                     BlockWidth(dtype)];
    PermuteRoundTrip(Reshape(t, split), Axes(n - 2), BackAxes(n - 2));
  }

  lemma CeilIsRoundUp(a: nat, b: nat)
    requires b > 0
    ensures Ceil(a, b) * b == RoundUp(a, b) >= a
    ensures Ceil(a, b) * b == a <==> a % b == 0
  {
    if a % b == 0 {
      var q := a / b;
      assert a == q * b;
      assert q * b <= RoundUp(a, b) < q * b + b;
      DivMod(q, b - 1, b);
    }
  }

  /** Equal products of larger factors are products of equal factors. */
  lemma EqualProducts(a: nat, b: nat, c: nat, d: nat)
    requires 0 < a <= c && 0 < b <= d && a * b == c * d
    ensures a == c && b == d
  {
    assert a * b <= a * d <= c * d;
    if a < c {
      MulLe(a + 1, c, d);
    } else if b < d {
      MulLe(b + 1, d, a);
    }
  }

  /**
   It succeeds exactly with two dimensions or more, for tensors without elements and for whole blocks of
   16 rows and 16 columns, or 32 for int8.
   */
  lemma TransSucceedsIff(t: Tensor, dtype: DType)
    requires t.Valid()
    ensures TransNdToNz(t, dtype) == Raised(TooFewDimensions) <==> |t.shape| < 2
    ensures var n := |t.shape|;
            TransNdToNz(t, dtype).Ok? <==>
            && n >= 2
            && (t.data == [] || (t.shape[n - 2] % 16 == 0 && t.shape[n - 1] % (if dtype == Int8 then 32 else 16) == 0))
  {
    if |t.shape| >= 2 {
      ReshapesIff(t, dtype);
    }
  }

  lemma ReshapesIff(t: Tensor, dtype: DType)
    requires t.Valid() && |t.shape| >= 2
    ensures var n := |t.shape|;
            TransNdToNz(t, dtype).Ok? <==>
            t.data == [] || (t.shape[n - 2] % 16 == 0 && t.shape[n - 1] % BlockWidth(dtype) == 0)
  {
    var n, b0 := |t.shape|, BlockWidth(dtype);
    var batch, a, b := t.shape[..n - 2], t.shape[n - 2], t.shape[n - 1];
    var c, d := Ceil(a, 16) * 16, Ceil(b, b0) * b0;
    assert t.shape == batch + [a, b];
    SizeConcat(batch, [a, b]);
    SizeOfMatrix(a, b);
    SizeConcat(batch, [Ceil(a, 16), 16, Ceil(b, b0), b0]);
    Size4(Ceil(a, 16), 16, Ceil(b, b0), b0);
    MulAssoc(Ceil(a, 16), 16, d);
    CeilIsRoundUp(a, 16);
    CeilIsRoundUp(b, b0);
    SizesEqualIff(Size(batch), a, b, c, d);
  }

  lemma SizesEqualIff(s: nat, a: nat, b: nat, c: nat, d: nat)
    requires a <= c && b <= d && (a == 0 ==> c == 0) && (b == 0 ==> d == 0)
    ensures s * (a * b) == s * (c * d) <==> s * (a * b) == 0 || (a == c && b == d)
  {
    if s == 0 || a == 0 || b == 0 {
    } else {
      assert a * b > 0 && c * d > 0;
      if s * (a * b) == s * (c * d) {
        CancelLeft(s, a * b, c * d);
        EqualProducts(a, b, c, d);
      }
      assert s * (a * b) > 0;
    }
  }

  lemma CancelLeft(s: nat, x: nat, y: nat)
    requires s > 0 && s * x == s * y
    ensures x == y
  {
    if x < y {
      MulLe(x + 1, y, s);
    } else if y < x {
      MulLe(y + 1, x, s);
    }
  }

  lemma AxesSource(offset: nat, bi: Index, a: nat, b: nat, c: nat, d: nat)
    requires |bi| == offset
    ensures IsPermutation(Axes(offset)) && SourceIndex(Axes(offset), bi + [a, b, c, d]) == bi + [b, c, a, d]
  {
    AxesInverse(offset);
    var axes, x, src := Axes(offset), bi + [a, b, c, d], SourceIndex(Axes(offset), bi + [a, b, c, d]);
    assert src[axes[offset]] == x[offset] && src[axes[offset + 1]] == x[offset + 1];
    assert src[axes[offset + 2]] == x[offset + 2] && src[axes[offset + 3]] == x[offset + 3];
    assert forall i :: 0 <= i < offset ==> src[axes[i]] == x[i] && axes[i] == i;
  }

  lemma AxesShape(offset: nat, batch: Shape, a: nat, b: nat, c: nat, d: nat)
    requires |batch| == offset
    ensures IsPermutation(Axes(offset)) && PermutedShape(batch + [a, b, c, d], Axes(offset)) == batch + [c, a, b, d]
  {
    AxesInverse(offset);
    var s := batch + [a, b, c, d];
    var p := PermutedShape(s, Axes(offset));
    assert forall i :: 0 <= i < offset ==> p[i] == s[Axes(offset)[i]] == batch[i];
    assert p[offset] == s[offset + 2] && p[offset + 1] == s[offset] && p[offset + 2] == s[offset + 1]
      && p[offset + 3] == s[offset + 3];
  }

  lemma CeilOfMultiple(q: nat, b: nat)
    requires b > 0
    ensures Ceil(q * b, b) == q
  {
    DivMod(q, b - 1, b);
  }

  /** What the transform does to a tensor of whole blocks. */
  lemma TransIs(t: Tensor, dtype: DType, batch: Shape, m1: nat, n1: nat)
    requires t.Valid() && t.shape == batch + [m1 * 16, n1 * BlockWidth(dtype)]
    ensures var w, offset := BlockWidth(dtype), |batch|;
            var split := Reshape(t, batch + [m1, 16, n1, w]);
            && split.Valid() && IsPermutation(Axes(offset))
            && TransNdToNz(t, dtype) == Ok(Permute(split, Axes(offset)))
            && PermutedShape(split.shape, Axes(offset)) == batch + [n1, m1, 16, w]
  {
    var w, n := BlockWidth(dtype), |t.shape|;
    assert t.shape[..n - 2] == batch && t.shape[n - 2] == m1 * 16 && t.shape[n - 1] == n1 * w;
    CeilOfMultiple(m1, 16);
    CeilOfMultiple(n1, w);
    SizeConcat(batch, [m1 * 16, n1 * w]);
    SizeConcat(batch, [m1, 16, n1, w]);
    SizeOfMatrix(m1 * 16, n1 * w);
    Size4(m1, 16, n1, w);
    MulAssoc(m1, 16, n1 * w);
    AxesShape(|batch|, batch, m1, 16, n1, w);
  }

  lemma AxesAt(u: Tensor, batch: Shape, s: Shape, bi: Index, a: nat, b: nat, c: nat, d: nat)
    requires u.Valid() && |s| == 4 && u.shape == batch + s && InShape(batch, bi) && InShape(s, [a, b, c, d])
    ensures IsPermutation(Axes(|batch|)) && InShape(PermutedShape(u.shape, Axes(|batch|)), bi + [c, a, b, d])
    ensures InShape(u.shape, bi + [a, b, c, d])
    ensures Permute(u, Axes(|batch|)).At(bi + [c, a, b, d]) == u.At(bi + [a, b, c, d])
  {
    assert s == [s[0], s[1], s[2], s[3]];
    AxesShape(|batch|, batch, s[0], s[1], s[2], s[3]);
    AxesSource(|batch|, bi, c, a, b, d);
    assert [a, b, c, d][0] < s[0] && [a, b, c, d][1] < s[1] && [a, b, c, d][2] < s[2] && [a, b, c, d][3] < s[3];
    assert InShape([s[2], s[0], s[1], s[3]], [c, a, b, d]);
    InShapeConcat(batch, [s[2], s[0], s[1], s[3]], bi, [c, a, b, d]);
    InShapeConcat(batch, s, bi, [a, b, c, d]);
    PermuteAt(u, Axes(|batch|), bi + [c, a, b, d]);
  }

  /** Block (j1, i1), row i0, column j0 shows the element at row i = 16 i1 + i0 and column j = width j1 + j0. */
  lemma TransAt(t: Tensor, dtype: DType, batch: Shape, m1: nat, n1: nat, bi: Index, i1: nat, i0: nat, j1: nat, j0: nat,
                i: nat, j: nat, w: nat)
    requires w == (if dtype == Int8 then 32 else 16)
    requires t.Valid() && t.shape == batch + [m1 * 16, n1 * w] && InShape(batch, bi)
    requires i1 < m1 && i0 < 16 && j1 < n1 && j0 < w && i == i1 * 16 + i0 && j == j1 * w + j0
    ensures TransNdToNz(t, dtype).Ok?
    ensures var u := TransNdToNz(t, dtype).value;
            && u.Valid() && u.shape == batch + [n1, m1, 16, w]
            && InShape(u.shape, bi + [j1, i1, i0, j0]) && InShape(t.shape, bi + [i, j])
            && u.At(bi + [j1, i1, i0, j0]) == t.At(bi + [i, j])
  {
    TransIs(t, dtype, batch, m1, n1);
    SplitAt(t, batch, m1, 16, n1, w, bi, i1, i0, j1, j0, i, j);
    AxesAt(Reshape(t, batch + [m1, 16, n1, w]), batch, [m1, 16, n1, w], bi, i1, i0, j1, j0);
  }

  lemma BlockShapesAgree(n1: nat, m1: nat, rows: nat, j1: nat, i1: nat, i0: nat, j0: nat, i: nat)
    requires i1 < m1 && i0 < 16 && j1 < n1 && j0 < 16 && i == i1 * 16 + i0 && rows == m1 * 16
    ensures InShape([n1, m1, 16, 16], [j1, i1, i0, j0]) && InShape([1, n1, rows, 16], [0, j1, i, j0])
    ensures Flat([n1, m1, 16, 16], [j1, i1, i0, j0]) == Flat([1, n1, rows, 16], [0, j1, i, j0])
  {
    MulBound(i1, m1, i0, 16);
    Flat4([n1, m1, 16, 16], [j1, i1, i0, j0]);
    Flat4([1, n1, rows, 16], [0, j1, i, j0]);
    assert m1 * (16 * 16) == m1 * 16 * 16;
  }

  lemma MatrixTransAt(t: Tensor, m1: nat, n1: nat, i1: nat, i0: nat, j1: nat, j0: nat, i: nat, j: nat)
    requires t.Valid() && t.shape == [m1 * 16, n1 * 16]
    requires i1 < m1 && i0 < 16 && j1 < n1 && j0 < 16 && i == i1 * 16 + i0 && j == j1 * 16 + j0
    ensures TransNdToNz(t, Other).Ok?
    ensures var u := TransNdToNz(t, Other).value;
            && u.Valid() && u.shape == [n1, m1, 16, 16]
            && InShape(u.shape, [j1, i1, i0, j0]) && InShape(t.shape, [i, j])
            && u.At([j1, i1, i0, j0]) == t.At([i, j])
  {
    assert t.shape == [] + [m1 * 16, n1 * 16];
    TransAt(t, Other, [], m1, n1, [], i1, i0, j1, j0, i, j, 16);
    assert [] + [n1, m1, 16, 16] == [n1, m1, 16, 16];
    assert [] + [j1, i1, i0, j0] == [j1, i1, i0, j0] && [] + [i, j] == [i, j];
  }

  lemma CellData(v: Tensor, s: Shape, y: Index, k: nat)
    requires v.Valid() && v.shape == s && InShape(s, y) && k == Flat(s, y)
    ensures k < |v.data| && v.data[k] == v.At(y)
  {
  }

  lemma ElementOfTrans(t: Tensor, m1: nat, n1: nat, i1: nat, i0: nat, j1: nat, j0: nat, i: nat, j: nat, k: nat)
    requires t.Valid() && t.shape == [m1 * 16, n1 * 16]
    requires i1 < m1 && i0 < 16 && j1 < n1 && j0 < 16 && i == i1 * 16 + i0 && j == j1 * 16 + j0
    requires InShape([n1, m1, 16, 16], [j1, i1, i0, j0]) && k == Flat([n1, m1, 16, 16], [j1, i1, i0, j0])
    ensures TransNdToNz(t, Other).Ok? && k < |TransNdToNz(t, Other).value.data| && InShape(t.shape, [i, j])
    ensures TransNdToNz(t, Other).value.data[k] == t.At([i, j])
  {
    MatrixTransAt(t, m1, n1, i1, i0, j1, j0, i, j);
    CellData(TransNdToNz(t, Other).value, [n1, m1, 16, 16], [j1, i1, i0, j0], k);
  }

  lemma NdCell(t: Tensor, rows: nat, cols: nat, v: Tensor, n1: nat, j1: nat, i: nat, j0: nat, j: nat)
    requires t.Valid() && t.shape == [rows, cols] && InShape(t.shape, [i, j]) && v == NdToNz2d(t)
    requires v.shape == [1, n1, rows, 16] && InShape([1, n1, rows, 16], [0, j1, i, j0]) && j == 16 * j1 + j0
    ensures v.Valid() && v.At([0, j1, i, j0]) == t.At([i, j])
  {
    NdToNz2dAt(t, j1, i, j0, j);
  }

  lemma ElementOfNd(t: Tensor, m1: nat, n1: nat, rows: nat, i1: nat, i0: nat, j1: nat, j0: nat, i: nat, j: nat, k: nat)
    requires t.Valid() && rows == m1 * 16 && t.shape == [rows, n1 * 16] && InShape(t.shape, [i, j])
    requires i1 < m1 && i0 < 16 && j1 < n1 && j0 < 16 && i == i1 * 16 + i0 && j == j1 * 16 + j0
    requires InShape([n1, m1, 16, 16], [j1, i1, i0, j0]) && k == Flat([n1, m1, 16, 16], [j1, i1, i0, j0])
    ensures k < |NdToNz2d(t).data| && NdToNz2d(t).data[k] == t.At([i, j])
  {
    BlockShapesAgree(n1, m1, rows, j1, i1, i0, j0, i);
    AlignedShape(t, m1, n1);
    NdCell(t, rows, n1 * 16, NdToNz2d(t), n1, j1, i, j0, j);
    CellData(NdToNz2d(t), [1, n1, rows, 16], [0, j1, i, j0], k);
  }

  lemma SameElement(t: Tensor, m1: nat, n1: nat, i1: nat, i0: nat, j1: nat, j0: nat, k: nat)
    requires t.Valid() && t.shape == [m1 * 16, n1 * 16]
    requires i1 < m1 && i0 < 16 && j1 < n1 && j0 < 16
    requires InShape([n1, m1, 16, 16], [j1, i1, i0, j0]) && k == Flat([n1, m1, 16, 16], [j1, i1, i0, j0])
    ensures TransNdToNz(t, Other).Ok? && k < |TransNdToNz(t, Other).value.data|
    ensures k < |NdToNz2d(t).data| && TransNdToNz(t, Other).value.data[k] == NdToNz2d(t).data[k]
  {
    var i, j := i1 * 16 + i0, j1 * 16 + j0;
    ElementOfTrans(t, m1, n1, i1, i0, j1, j0, i, j, k);
    ElementOfNd(t, m1, n1, m1 * 16, i1, i0, j1, j0, i, j, k);
  }

  lemma AlignedShape(t: Tensor, m1: nat, n1: nat)
    requires t.Valid() && t.shape == [m1 * 16, n1 * 16]
    ensures NdToNz2d(t).shape == [1, n1, m1 * 16, 16]
  {
    CeilOfMultiple(m1, 16);
    CeilOfMultiple(n1, 16);
  }

  lemma SameCount(t: Tensor, m1: nat, n1: nat)
    requires t.Valid() && t.shape == [m1 * 16, n1 * 16]
    ensures TransNdToNz(t, Other).Ok?
    ensures |TransNdToNz(t, Other).value.data| == |NdToNz2d(t).data| == Size([n1, m1, 16, 16])
  {
    assert t.shape == [] + [m1 * 16, n1 * 16];
    TransIs(t, Other, [], m1, n1);
    assert [] + [n1, m1, 16, 16] == [n1, m1, 16, 16];
    AlignedShape(t, m1, n1);
    BlockSizes(n1, m1);
  }

  lemma BlockSizes(n1: nat, m1: nat)
    ensures Size([n1, m1, 16, 16]) == Size([1, n1, m1 * 16, 16])
  {
    Size4(n1, m1, 16, 16);
    Size4(1, n1, m1 * 16, 16);
  }

  lemma SameAt(t: Tensor, m1: nat, n1: nat, k: nat)
    requires t.Valid() && t.shape == [m1 * 16, n1 * 16] && k < Size([n1, m1, 16, 16])
    ensures TransNdToNz(t, Other).Ok? && k < |TransNdToNz(t, Other).value.data|
    ensures k < |NdToNz2d(t).data| && TransNdToNz(t, Other).value.data[k] == NdToNz2d(t).data[k]
  {
    var x := Unflat([n1, m1, 16, 16], k);
    assert x[0] < n1 && x[1] < m1 && x[2] < 16 && x[3] < 16;
    assert x == [x[0], x[1], x[2], x[3]];
    SameElement(t, m1, n1, x[1], x[2], x[0], x[3], k);
  }

  /** On a matrix of whole 16 x 16 blocks both transforms give the same elements in row-major order. */
  lemma TransIsNdToNz2d(t: Tensor)
    requires Matrix(t) && t.shape[0] % 16 == 0 && t.shape[1] % 16 == 0
    ensures TransNdToNz(t, Other).Ok? && TransNdToNz(t, Other).value.data == NdToNz2d(t).data
  {
    var m1, n1 := t.shape[0] / 16, t.shape[1] / 16;
    assert t.shape == [m1 * 16, n1 * 16];
    SameCount(t, m1, n1);
    var data := TransNdToNz(t, Other).value.data;
    forall k | 0 <= k < |data|
      ensures data[k] == NdToNz2d(t).data[k]
    {
      SameAt(t, m1, n1, k);
    }
  }
}
