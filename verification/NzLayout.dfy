/** The fractal NZ layouts: three ways to move a matrix into 16-wide column blocks. */
module NzLayout {
  import opened Prelude
  import opened Arithmetic
  import opened Tensors

  // ---- small shapes

  lemma Flat2(r: nat, c: nat, i: nat, j: nat)
    requires i < r && j < c
    ensures Size([r, c]) == r * c && InShape([r, c], [i, j]) && Flat([r, c], [i, j]) == i * c + j
  {
    assert [r, c][1..] == [c] && [i, j][1..] == [j] && [c][1..] == [] && [j][1..] == [];
    assert Size([c]) == c;
  }

  lemma Size4(a: nat, b: nat, c: nat, d: nat)
    ensures Size([a, b, c, d]) == a * (b * (c * d))
  {
    assert [a, b, c, d][1..] == [b, c, d] && [b, c, d][1..] == [c, d] && [c, d][1..] == [d] && [d][1..] == [];
    assert Size([d]) == d;
    assert Size([c, d]) == c * d;
    assert Size([b, c, d]) == b * (c * d);
  }

  lemma Flat4(s: Shape, x: Index)
    requires |s| == 4 && InShape(s, x)
    ensures Flat(s, x) == x[0] * (s[1] * (s[2] * s[3])) + (x[1] * (s[2] * s[3]) + (x[2] * s[3] + x[3]))
  {
    var s1, s2, s3, x1, x2, x3 := s[1..], s[1..][1..], s[1..][1..][1..], x[1..], x[1..][1..], x[1..][1..][1..];
    assert s3 == [s[3]] && x3 == [x[3]] && s3[1..] == [] && x3[1..] == [];
    assert Size(s3) == s[3];
    assert Size(s2) == s[2] * s[3];
    assert Size(s1) == s[1] * (s[2] * s[3]);
    FlatTail(s, x, s1, x1);
    FlatTail(s1, x1, s2, x2);
    FlatTail(s2, x2, s3, x3);
    assert Flat(s3, x3) == x[3];
  }

  /** Splitting rows into m1 blocks of m0 and columns into n1 blocks of n0 keeps the row-major order. */
  lemma SplitOrder(m1: nat, m0: nat, n1: nat, n0: nat, i1: nat, i0: nat, j1: nat, j0: nat)
    requires i1 < m1 && i0 < m0 && j1 < n1 && j0 < n0
    ensures i1 * m0 + i0 < m1 * m0 && j1 * n0 + j0 < n1 * n0
    ensures InShape([m1, m0, n1, n0], [i1, i0, j1, j0])
    ensures Size([m1, m0, n1, n0]) == Size([m1 * m0, n1 * n0])
    ensures Flat([m1, m0, n1, n0], [i1, i0, j1, j0]) == Flat([m1 * m0, n1 * n0], [i1 * m0 + i0, j1 * n0 + j0])
  {
    MulBound(i1, m1, i0, m0);
    MulBound(j1, n1, j0, n0);
    var b := n1 * n0;
    Flat2(m1 * m0, b, i1 * m0 + i0, j1 * n0 + j0);
    Size4(m1, m0, n1, n0);
    Flat4([m1, m0, n1, n0], [i1, i0, j1, j0]);
    MulAssoc(m1, m0, b);
    MulAssoc(i1, m0, b);
    assert (i1 * m0 + i0) * b == i1 * m0 * b + i0 * b;
  }

  lemma SplitMatrixAt(t: Tensor, m1: nat, m0: nat, n1: nat, n0: nat, i1: nat, i0: nat, j1: nat, j0: nat, i: nat, j: nat)
    requires t.Valid() && t.shape == [m1 * m0, n1 * n0]
    requires i1 < m1 && i0 < m0 && j1 < n1 && j0 < n0 && i == i1 * m0 + i0 && j == j1 * n0 + j0
    ensures var u := Reshape(t, [m1, m0, n1, n0]);
            && u.Valid() && InShape(u.shape, [i1, i0, j1, j0]) && InShape(t.shape, [i, j])
            && u.At([i1, i0, j1, j0]) == t.At([i, j])
  {
    SplitOrder(m1, m0, n1, n0, i1, i0, j1, j0);
    Flat2(m1 * m0, n1 * n0, i, j);
  }

  /** Reading a tensor through a reshape of its last two dimensions. */
  lemma SplitAt(t: Tensor, batch: Shape, m1: nat, m0: nat, n1: nat, n0: nat, bi: Index, i1: nat, i0: nat, j1: nat,
                j0: nat,
                i: nat, j: nat)
    requires t.Valid() && t.shape == batch + [m1 * m0, n1 * n0] && InShape(batch, bi)
    requires i1 < m1 && i0 < m0 && j1 < n1 && j0 < n0 && i == i1 * m0 + i0 && j == j1 * n0 + j0
    ensures var u := Reshape(t, batch + [m1, m0, n1, n0]);
            && u.Valid() && InShape(u.shape, bi + [i1, i0, j1, j0]) && InShape(t.shape, bi + [i, j])
            && u.At(bi + [i1, i0, j1, j0]) == t.At(bi + [i, j])
  {
    SplitOrder(m1, m0, n1, n0, i1, i0, j1, j0);
    Flat2(m1 * m0, n1 * n0, i, j);
    SizeConcat(batch, [m1, m0, n1, n0]);
    SizeConcat(batch, [m1 * m0, n1 * n0]);
    FlatConcat(batch, [m1, m0, n1, n0], bi, [i1, i0, j1, j0]);
    FlatConcat(batch, [m1 * m0, n1 * n0], bi, [i, j]);
  }

  // ---- zero padding

  function Zeros(n: nat): seq<int> {
    seq(n, _ => 0)
  }

  ghost predicate Matrix(t: Tensor) {
    t.Valid() && |t.shape| == 2
  }

  /** The element at (i, j) of the matrix extended by zeros. */
  ghost function Padded(t: Tensor, i: nat, j: nat): int
    requires Matrix(t)
  {
    if InShape(t.shape, [i, j]) then t.At([i, j]) else 0
  }

  lemma RowBounds(r: nat, c: nat, i: nat)
    requires i < r
    ensures 0 <= i * c <= i * c + c <= r * c
  {
    MulLe(i + 1, r, c);
  }

  function PadRow(t: Tensor, i: nat, cols: nat): (row: seq<int>)
    requires Matrix(t) && t.shape[1] <= cols
    ensures |row| == cols
  {
    var r, c := t.shape[0], t.shape[1];
    if i < r then
      RowBounds(r, c, i);
      MatrixSize(t);
      t.data[i * c..i * c + c] + Zeros(cols - c)
    else Zeros(cols)
  }

  lemma MatrixSize(t: Tensor)
    requires Matrix(t)
    ensures |t.data| == t.shape[0] * t.shape[1]
  {
    assert t.shape[1..] == [t.shape[1]] && t.shape[1..][1..] == [];
    assert Size(t.shape[1..]) == t.shape[1];
  }

  lemma PadRowAt(t: Tensor, i: nat, j: nat, cols: nat)
    requires Matrix(t) && t.shape[1] <= cols && j < cols
    ensures PadRow(t, i, cols)[j] == Padded(t, i, j)
  {
    if i < t.shape[0] && j < t.shape[1] {
      assert t.shape == [t.shape[0], t.shape[1]];
      Flat2(t.shape[0], t.shape[1], i, j);
      RowBounds(t.shape[0], t.shape[1], i);
      MatrixSize(t);
    } else if i < t.shape[0] {
      RowBounds(t.shape[0], t.shape[1], i);
      MatrixSize(t);
    }
  }

  function PadRows(t: Tensor, rows: nat, cols: nat): (r: seq<seq<int>>)
    requires Matrix(t) && t.shape[1] <= cols
    ensures |r| == rows && forall i :: 0 <= i < rows ==> |r[i]| == cols && r[i] == PadRow(t, i, cols)
  {
    seq(rows, i requires 0 <= i => PadRow(t, i, cols))
  }

  lemma {:induction false} FlattenLength(rows: seq<seq<int>>, cols: nat)
    requires forall i :: 0 <= i < |rows| ==> |rows[i]| == cols
    ensures |Flatten(rows)| == |rows| * cols
  {
    if rows != [] {
      FlattenLength(rows[..|rows| - 1], cols);
    }
  }

  lemma {:induction false} FlattenAt(rows: seq<seq<int>>, cols: nat, i: nat, j: nat)
    requires forall k :: 0 <= k < |rows| ==> |rows[k]| == cols
    requires i < |rows| && j < cols
    ensures i * cols + j < |Flatten(rows)| && Flatten(rows)[i * cols + j] == rows[i][j]
  {
    var k := |rows| - 1;
    FlattenLength(rows[..k], cols);
    if i < k {
      FlattenAt(rows[..k], cols, i, j);
    }
  }

  /** `pad(t, [0, cols - c, 0, rows - r])`. */
  function Pad(t: Tensor, rows: nat, cols: nat): (u: Tensor)
    requires Matrix(t) && t.shape[1] <= cols
    ensures u.Valid() && u.shape == [rows, cols]
  {
    FlattenLength(PadRows(t, rows, cols), cols);
    SizeOfMatrix(rows, cols);
    Tensor([rows, cols], Flatten(PadRows(t, rows, cols)))
  }

  lemma SizeOfMatrix(r: nat, c: nat)
    ensures Size([r, c]) == r * c
  {
    assert [r, c][1..] == [c] && [c][1..] == [];
    assert Size([c]) == c;
  }

  lemma PadAt(t: Tensor, rows: nat, cols: nat, i: nat, j: nat)
    requires Matrix(t) && t.shape[1] <= cols && i < rows && j < cols
    ensures InShape([rows, cols], [i, j]) && Pad(t, rows, cols).At([i, j]) == Padded(t, i, j)
  {
    Flat2(rows, cols, i, j);
    FlattenAt(PadRows(t, rows, cols), cols, i, j);
    PadRowAt(t, i, j, cols);
  }
}
