/** Row-major tensors of any rank: flat offsets, reshape and permute. */
module Tensors {
  import opened Prelude
  import opened Arithmetic

  type Shape = seq<nat>
  type Index = seq<nat>

  function Size(shape: Shape): nat {
    if shape == [] then 1 else shape[0] * Size(shape[1..])
  }

  ghost predicate InShape(shape: Shape, idx: Index) {
    |idx| == |shape| && forall i :: 0 <= i < |idx| ==> idx[i] < shape[i]
  }

  lemma MulBound(x: nat, a: nat, y: nat, b: nat)
    requires x < a && y < b
    ensures x * b + y < a * b
  {
    MulLe(x + 1, a, b);
  }

  /** The row-major offset of an index. */
  function Flat(shape: Shape, idx: Index): (k: nat)
    requires InShape(shape, idx)
    ensures k < Size(shape)
  {
    if shape == [] then 0
    else
      var rest := Flat(shape[1..], idx[1..]);
      MulBound(idx[0], shape[0], rest, Size(shape[1..]));
      idx[0] * Size(shape[1..]) + rest
  }

  lemma DivBound(k: nat, a: nat, b: nat)
    requires k < a * b
    ensures b > 0 && 0 <= k / b < a && 0 <= k % b < b && k == (k / b) * b + k % b
  {
    assert b != 0;
    if k / b >= a {
      MulLe(a, k / b, b);
    }
  }

  /** The index at an offset. */
  function Unflat(shape: Shape, k: nat): (idx: Index)
    requires k < Size(shape)
    ensures InShape(shape, idx) && Flat(shape, idx) == k
  {
    if shape == [] then []
    else
      var b := Size(shape[1..]);
      DivBound(k, shape[0], b);
      var rest := Unflat(shape[1..], k % b);
      ConsIndex(shape, k / b, rest);
      [k / b] + rest
  }

  lemma ConsIndex(shape: Shape, x: nat, rest: Index)
    requires shape != [] && x < shape[0] && InShape(shape[1..], rest)
    ensures InShape(shape, [x] + rest)
    ensures Flat(shape, [x] + rest) == x * Size(shape[1..]) + Flat(shape[1..], rest)
  {
    assert ([x] + rest)[1..] == rest;
    forall i | 0 <= i < |[x] + rest|
      ensures ([x] + rest)[i] < shape[i]
    {
      if i > 0 {
        assert shape[i] == shape[1..][i - 1];
      }
    }
  }

  lemma DivMod(x: nat, y: nat, b: nat)
    requires y < b
    ensures (x * b + y) / b == x && (x * b + y) % b == y
  {
    var q, r := (x * b + y) / b, (x * b + y) % b;
    assert q * b + r == x * b + y;
    if q < x {
      MulLe(q + 1, x, b);
    } else if q > x {
      MulLe(x + 1, q, b);
    }
  }

  lemma {:induction false} UnflatFlat(shape: Shape, idx: Index)
    requires InShape(shape, idx)
    ensures Unflat(shape, Flat(shape, idx)) == idx
  {
    if shape != [] {
      UnflatFlat(shape[1..], idx[1..]);
      DivMod(idx[0], Flat(shape[1..], idx[1..]), Size(shape[1..]));
      assert idx == [idx[0]] + idx[1..];
    }
  }

  lemma {:induction false} SizeConcat(a: Shape, b: Shape)
    ensures Size(a + b) == Size(a) * Size(b)
  {
    if a == [] {
      assert a + b == b;
    } else {
      assert (a + b)[1..] == a[1..] + b;
      SizeConcat(a[1..], b);
      MulAssoc(a[0], Size(a[1..]), Size(b));
    }
  }

  lemma MulAssoc(x: int, y: int, z: int)
    ensures x * (y * z) == (x * y) * z
  {
  }

  lemma InShapeConcat(a: Shape, b: Shape, i: Index, j: Index)
    requires |i| == |a| && |j| == |b|
    ensures InShape(a + b, i + j) <==> InShape(a, i) && InShape(b, j)
  {
    if InShape(a + b, i + j) {
      assert forall k :: 0 <= k < |i| ==> i[k] == (i + j)[k] && a[k] == (a + b)[k];
      assert forall k :: 0 <= k < |j| ==> j[k] == (i + j)[|i| + k] && b[k] == (a + b)[|a| + k];
    }
  }

  lemma {:induction false} FlatConcat(a: Shape, b: Shape, i: Index, j: Index)
    requires InShape(a, i) && InShape(b, j)
    ensures InShape(a + b, i + j)
    ensures Flat(a + b, i + j) == Flat(a, i) * Size(b) + Flat(b, j)
  {
    InShapeConcat(a, b, i, j);
    if a == [] {
      assert a + b == b && i + j == j;
    } else {
      var tail, rest := a[1..], i[1..];
      FlatConcat(tail, b, rest, j);
      SizeConcat(tail, b);
      FlatOfTail(i[0], a, b, i, j, tail, rest);
      Nest(i[0], Size(tail), Flat(tail, rest), Size(b), Flat(b, j),
           Size(tail + b), Flat(tail + b, rest + j), Flat(a, i), Flat(a + b, i + j));
    }
  }

  lemma FlatOfTail(x: nat, a: Shape, b: Shape, i: Index, j: Index, tail: Shape, rest: Index)
    requires a != [] && InShape(a, i) && InShape(a + b, i + j) && tail == a[1..] && rest == i[1..] && x == i[0]
    ensures InShape(tail, rest) && InShape(tail + b, rest + j)
    ensures Flat(a, i) == x * Size(tail) + Flat(tail, rest)
    ensures Flat(a + b, i + j) == x * Size(tail + b) + Flat(tail + b, rest + j)
  {
    SplitFirst(a, b, tail);
    SplitFirst(i, j, rest);
    FlatTail(a, i, tail, rest);
    FlatTail(a + b, i + j, tail + b, rest + j);
  }

  lemma SplitFirst(s: seq<nat>, t: seq<nat>, rest: seq<nat>)
    requires s != [] && rest == s[1..]
    ensures (s + t)[1..] == rest + t && (s + t)[0] == s[0]
  {
  }

  lemma FlatTail(shape: Shape, idx: Index, tail: Shape, rest: Index)
    requires InShape(shape, idx) && shape != [] && tail == shape[1..] && rest == idx[1..]
    ensures InShape(tail, rest) && Flat(shape, idx) == idx[0] * Size(tail) + Flat(tail, rest)
  {
  }

  lemma Nest(x: nat, sa: nat, fa: nat, sb: nat, fb: nat, sab: nat, fab: nat, f: nat, g: nat)
    requires sab == sa * sb && fab == fa * sb + fb && f == x * sa + fa && g == x * sab + fab
    ensures g == f * sb + fb
  {
    MulAssoc(x, sa, sb);
    assert (x * sa + fa) * sb == x * sa * sb + fa * sb;
  }

  datatype Tensor = Tensor(shape: Shape, data: seq<int>) {
    ghost predicate Valid() {
      |data| == Size(shape)
    }

    function At(idx: Index): int
      requires Valid() && InShape(shape, idx)
    {
      data[Flat(shape, idx)]
    }
  }

  /** Tensors of one shape are equal when they agree at every index. */
  lemma SameEverywhere(t: Tensor, u: Tensor)
    requires t.Valid() && u.Valid() && t.shape == u.shape
    requires forall idx :: InShape(t.shape, idx) ==> t.At(idx) == u.At(idx)
    ensures t == u
  {
    forall k | 0 <= k < |t.data|
      ensures t.data[k] == u.data[k]
    {
      var idx := Unflat(t.shape, k);
      assert t.At(idx) == u.At(idx);
    }
  }

  /** `reshape`: the same elements in row-major order; the sizes must agree. */
  function Reshape(t: Tensor, shape: Shape): Tensor {
    Tensor(shape, t.data)
  }

  // ---- permute

  ghost predicate IsPermutation(axes: seq<nat>) {
    && NoDup(axes)
    && (forall q :: 0 <= q < |axes| ==> axes[q] < |axes|)
    && (forall p: nat :: p < |axes| ==> p in axes)
  }

  function PermutedShape(shape: Shape, axes: seq<nat>): (r: Shape)
    requires IsPermutation(axes) && |axes| == |shape|
    ensures |r| == |shape|
  {
    seq(|axes|, q requires 0 <= q < |axes| => shape[axes[q]])
  }

  /** The index of the source that an index of the permuted tensor shows. */
  function SourceIndex(axes: seq<nat>, idx: Index): (r: Index)
    requires IsPermutation(axes) && |idx| == |axes|
    ensures |r| == |axes|
    ensures forall q :: 0 <= q < |axes| ==> r[axes[q]] == idx[q]
  {
    var r := seq(|axes|, p requires 0 <= p < |axes| => idx[IndexOf(axes, p)]);
    assert forall q :: 0 <= q < |axes| ==> IndexOf(axes, axes[q]) == q;
    r
  }

  lemma SourceInShape(shape: Shape, axes: seq<nat>, idx: Index)
    requires IsPermutation(axes) && |axes| == |shape| && InShape(PermutedShape(shape, axes), idx)
    ensures InShape(shape, SourceIndex(axes, idx))
  {
    var src := SourceIndex(axes, idx);
    forall p: nat | p < |src|
      ensures src[p] < shape[p]
    {
      var q := IndexOf(axes, p);
      assert idx[q] < PermutedShape(shape, axes)[q];
    }
  }

  /** `permute(*axes)` read in row-major order. */
  function Permute(t: Tensor, axes: seq<nat>): (r: Tensor)
    requires t.Valid() && IsPermutation(axes) && |axes| == |t.shape|
    ensures r.Valid() && r.shape == PermutedShape(t.shape, axes)
  {
    var shape := PermutedShape(t.shape, axes);
    Tensor(shape, seq(Size(shape), k requires 0 <= k < Size(shape) =>
      SourceInShape(t.shape, axes, Unflat(shape, k));
      t.At(SourceIndex(axes, Unflat(shape, k)))))
  }

  lemma PermuteAt(t: Tensor, axes: seq<nat>, idx: Index)
    requires t.Valid() && IsPermutation(axes) && |axes| == |t.shape| && InShape(PermutedShape(t.shape, axes), idx)
    ensures InShape(t.shape, SourceIndex(axes, idx))
    ensures Permute(t, axes).At(idx) == t.At(SourceIndex(axes, idx))
  {
    SourceInShape(t.shape, axes, idx);
    UnflatFlat(PermutedShape(t.shape, axes), idx);
  }

  ghost predicate Inverse(axes: seq<nat>, back: seq<nat>) {
    && IsPermutation(axes) && IsPermutation(back) && |axes| == |back|
    && (forall q :: 0 <= q < |axes| ==> back[axes[q]] == q)
    && (forall q :: 0 <= q < |axes| ==> axes[back[q]] == q)
  }

  /** Permuting back restores the tensor: a permutation loses and repeats no element. */
  lemma PermuteRoundTrip(t: Tensor, axes: seq<nat>, back: seq<nat>)
    requires t.Valid() && Inverse(axes, back) && |axes| == |t.shape|
    ensures Permute(Permute(t, axes), back) == t
  {
    var u := Permute(t, axes);
    assert PermutedShape(u.shape, back) == t.shape;
    forall idx | InShape(t.shape, idx)
      ensures Permute(u, back).At(idx) == t.At(idx)
    {
      PermuteAt(u, back, idx);
      var mid := SourceIndex(back, idx);
      PermuteAt(t, axes, mid);
      assert SourceIndex(axes, mid) == idx by {
        forall p: nat | p < |idx|
          ensures SourceIndex(axes, mid)[p] == idx[p]
        {
          assert axes[back[p]] == p;
          assert mid[back[p]] == idx[p];
        }
      }
    }
    SameEverywhere(Permute(u, back), t);
  }
}
