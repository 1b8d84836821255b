/** `nd_to_nz_2d`, `nd_to_nz_spec` and `trans_nd_to_nz`: one index map, and its inverse. */
module NzTransforms {
  import opened Prelude
  import opened Arithmetic
  import opened Tensors
  import opened NzLayout

  const SWAP: seq<nat> := [0, 2, 1, 3]

  lemma SwapIsPermutation()
    ensures IsPermutation(SWAP) && Inverse(SWAP, SWAP)
  {
    assert SWAP[0] == 0 && SWAP[1] == 2 && SWAP[2] == 1 && SWAP[3] == 3;
  }

  lemma SwapSource(x: Index)
    requires |x| == 4
    ensures IsPermutation(SWAP) && SourceIndex(SWAP, x) == [x[0], x[2], x[1], x[3]]
  {
    SwapIsPermutation();
    var src := SourceIndex(SWAP, x);
    assert src[SWAP[0]] == x[0] && src[SWAP[1]] == x[1] && src[SWAP[2]] == x[2] && src[SWAP[3]] == x[3];
  }

  lemma SwapShape(s: Shape)
    requires |s| == 4
    ensures IsPermutation(SWAP) && PermutedShape(s, SWAP) == [s[0], s[2], s[1], s[3]]
  {
    SwapIsPermutation();
  }

  lemma BlockCount(cols: nat)
    requires cols == cols / 16 * 16
    ensures Size([1, 1]) == 1
    ensures forall rows: nat :: Size([1, rows, cols / 16, 16]) == Size([rows, cols])
  {
    assert [1, 1][1..] == [1] && [1][1..] == [];
    forall rows: nat
      ensures Size([1, rows, cols / 16, 16]) == Size([rows, cols])
    {
      Size4(1, rows, cols / 16, 16);
      SizeOfMatrix(rows, cols);
    }
  }

  /** Column blocks of 16 of a padded matrix: reshape to (1, rows, blocks, 16) and swap the middle axes. */
  function Blocks(t: Tensor): (u: Tensor)
    requires Matrix(t) && t.shape[1] == t.shape[1] / 16 * 16
    ensures u.Valid() && u.shape == [1, t.shape[1] / 16, t.shape[0], 16]
  {
    var shape := [1, t.shape[0], t.shape[1] / 16, 16];
    assert t.shape == [t.shape[0], t.shape[1]];
    BlockCount(t.shape[1]);
    SwapShape(shape);
    Permute(Reshape(t, shape), SWAP)
  }

  lemma ReshapedAt(t: Tensor, rows: nat, n: nat, j: nat, i: nat, l: nat, k: nat)
    requires t.Valid() && t.shape == [rows, n * 16] && i < rows && j < n && l < 16 && k == 16 * j + l
    ensures var u := Reshape(t, [1, rows, n, 16]);
            && u.Valid() && InShape(u.shape, [0, i, j, l]) && InShape(t.shape, [i, k])
            && u.At([0, i, j, l]) == t.At([i, k])
  {
    SplitMatrixAt(t, 1, rows, n, 16, 0, i, j, l, i, k);
  }

  lemma SwapAt(u: Tensor, a: nat, b: nat, c: nat, d: nat)
    requires u.Valid() && |u.shape| == 4 && InShape(u.shape, [a, b, c, d])
    ensures IsPermutation(SWAP) && InShape(PermutedShape(u.shape, SWAP), [a, c, b, d])
    ensures Permute(u, SWAP).At([a, c, b, d]) == u.At([a, b, c, d])
  {
    var s := u.shape;
    SwapShape(s);
    SwapSource([a, c, b, d]);
    assert [a, b, c, d][0] < s[0] && [a, b, c, d][1] < s[1] && [a, b, c, d][2] < s[2] && [a, b, c, d][3] < s[3];
    PermuteAt(u, SWAP, [a, c, b, d]);
  }

  lemma BlocksAt(t: Tensor, j: nat, i: nat, l: nat, k: nat)
    requires Matrix(t) && t.shape[1] == t.shape[1] / 16 * 16
    requires i < t.shape[0] && j < t.shape[1] / 16 && l < 16 && k == 16 * j + l
    ensures InShape(Blocks(t).shape, [0, j, i, l]) && InShape(t.shape, [i, k])
    ensures Blocks(t).At([0, j, i, l]) == t.At([i, k])
  {
    var rows, n := t.shape[0], t.shape[1] / 16;
    assert t.shape == [rows, n * 16];
    ReshapedAt(t, rows, n, j, i, l, k);
    SwapAt(Reshape(t, [1, rows, n, 16]), 0, i, j, l);
  }

  function NdToNz2d(t: Tensor): (u: Tensor)
    requires Matrix(t)
    ensures u.Valid() && u.shape == [1, RoundUp(t.shape[1], 16) / 16, RoundUp(t.shape[0], 16), 16]
  {
    Blocks(Pad(t, RoundUp(t.shape[0], 16), RoundUp(t.shape[1], 16)))
  }

  /** Cell (0, j, i, l) shows element (i, 16j + l) of the matrix extended by zeros. */
  lemma NdToNz2dAt(t: Tensor, j: nat, i: nat, l: nat, k: nat)
    requires Matrix(t) && InShape(NdToNz2d(t).shape, [0, j, i, l]) && k == 16 * j + l
    ensures NdToNz2d(t).At([0, j, i, l]) == Padded(t, i, k)
  {
    var rows, cols := RoundUp(t.shape[0], 16), RoundUp(t.shape[1], 16);
    var shape := NdToNz2d(t).shape;
    assert [0, j, i, l][1] < shape[1] && [0, j, i, l][2] < shape[2] && [0, j, i, l][3] < shape[3];
    var p := Pad(t, rows, cols);
    BlocksAt(p, j, i, l, k);
    PadAt(t, rows, cols, i, k);
  }

  /** Where element (i, k) of the matrix goes. */
  function Cell(i: nat, k: nat): Index {
    [0, k / 16, i, k % 16]
  }

  lemma CellInShape(t: Tensor, i: nat, k: nat)
    requires Matrix(t) && InShape(t.shape, [i, k])
    ensures InShape(NdToNz2d(t).shape, Cell(i, k))
  {
    assert [i, k][0] < t.shape[0] && [i, k][1] < t.shape[1];
    var cols := RoundUp(t.shape[1], 16);
    assert k < cols / 16 * 16;
  }

  /** Every element lands in its own cell, no other cell is anything but zero. */
  lemma NdToNz2dPlacesOnce(t: Tensor)
    requires Matrix(t)
    ensures forall i, k :: InShape(t.shape, [i, k]) ==>
              InShape(NdToNz2d(t).shape, Cell(i, k)) && NdToNz2d(t).At(Cell(i, k)) == t.At([i, k])
    ensures forall i, k, i', k' :: Cell(i, k) == Cell(i', k') ==> i == i' && k == k'
    ensures forall j, i, l :: InShape(NdToNz2d(t).shape, [0, j, i, l]) && !InShape(t.shape, [i, 16 * j + l]) ==>
              NdToNz2d(t).At([0, j, i, l]) == 0
  {
    forall i: nat, k: nat | InShape(t.shape, [i, k])
      ensures InShape(NdToNz2d(t).shape, Cell(i, k)) && NdToNz2d(t).At(Cell(i, k)) == t.At([i, k])
    {
      CellInShape(t, i, k);
      NdToNz2dAt(t, k / 16, i, k % 16, k);
    }
    forall i: nat, k: nat, i': nat, k': nat | Cell(i, k) == Cell(i', k')
      ensures i == i' && k == k'
    {
      assert Cell(i, k)[1] == Cell(i', k')[1] && Cell(i, k)[2] == Cell(i', k')[2] && Cell(i, k)[3] == Cell(i', k')[3];
    }
    forall j: nat, i: nat, l: nat | InShape(NdToNz2d(t).shape, [0, j, i, l]) && !InShape(t.shape, [i, 16 * j + l])
      ensures NdToNz2d(t).At([0, j, i, l]) == 0
    {
      NdToNz2dAt(t, j, i, l, 16 * j + l);
    }
  }

  // ---- nd_to_nz_spec

  method WriteRow(buffer: array<int>, start: nat, row: seq<int>)
    requires start + |row| <= buffer.Length
    modifies buffer
    ensures buffer[..] == old(buffer[..start]) + row + old(buffer[start + |row|..])
  {
    for j := 0 to |row|
      invariant forall k :: 0 <= k < buffer.Length && !(start <= k < start + j) ==> buffer[k] == old(buffer[k])
      invariant forall k :: 0 <= k < j ==> buffer[start + k] == row[k]
    {
      buffer[start + j] := row[j];
    }
  }

  lemma ZerosConcat(a: nat, b: nat)
    ensures Zeros(a + b) == Zeros(a) + Zeros(b)
  {
  }

  /** The cells from row i to the end of the buffer. */
  function RowsLeft(rows: nat, i: nat, cols: nat): nat
    requires i <= rows
    decreases rows - i
  {
    if i == rows then 0 else cols + RowsLeft(rows, i + 1, cols)
  }

  lemma {:induction false} RowsLeftIs(rows: nat, i: nat, cols: nat)
    requires i <= rows
    ensures i * cols + RowsLeft(rows, i, cols) == rows * cols
    decreases rows - i
  {
    if i < rows {
      RowsLeftIs(rows, i + 1, cols);
      assert (i + 1) * cols == i * cols + cols;
    }
  }

  lemma PadRowsNext(t: Tensor, i: nat, cols: nat)
    requires Matrix(t) && t.shape[1] <= cols
    ensures Flatten(PadRows(t, i + 1, cols)) == Flatten(PadRows(t, i, cols)) + PadRow(t, i, cols)
  {
    assert PadRows(t, i + 1, cols)[..i] == PadRows(t, i, cols);
  }

  /** Writing a row over the zeros after head. */
  lemma Splice(head: seq<int>, row: seq<int>, pad: nat, rest: nat, before: seq<int>, after: seq<int>)
    requires before == head + Zeros(|row| + pad + rest)
    requires after == before[..|head|] + row + before[|head| + |row|..]
    ensures after == head + (row + Zeros(pad)) + Zeros(rest)
  {
    ZerosConcat(|row|, pad + rest);
    ZerosConcat(pad, rest);
    assert before[|head| + |row|..] == Zeros(pad + rest);
  }

  lemma NextRow(t: Tensor, rows: nat, cols: nat, i: nat, row: seq<int>, before: seq<int>, after: seq<int>, at: nat)
    requires Matrix(t) && t.shape[1] <= cols && i < t.shape[0] <= rows
    requires |row| == t.shape[1] && PadRow(t, i, cols) == row + Zeros(cols - |row|)
    requires before == Flatten(PadRows(t, i, cols)) + Zeros(RowsLeft(rows, i, cols))
    requires at == i * cols && at + |row| <= |before|
    requires after == before[..at] + row + before[at + |row|..]
    ensures after == Flatten(PadRows(t, i + 1, cols)) + Zeros(RowsLeft(rows, i + 1, cols))
  {
    FlattenLength(PadRows(t, i, cols), cols);
    PadRowsNext(t, i, cols);
    NextRowData(Flatten(PadRows(t, i, cols)), row, cols - |row|, RowsLeft(rows, i + 1, cols), before, after, at);
  }

  lemma NextRowData(head: seq<int>, row: seq<int>, pad: nat, rest: nat, before: seq<int>, after: seq<int>, at: nat)
    requires |head| == at && before == head + Zeros(|row| + pad + rest)
    requires after == before[..at] + row + before[at + |row|..]
    ensures after == head + (row + Zeros(pad)) + Zeros(rest)
  {
    Splice(head, row, pad, rest, before, after);
  }

  lemma {:induction false} ZeroRows(t: Tensor, rows: nat, cols: nat, i: nat)
    requires Matrix(t) && t.shape[1] <= cols && t.shape[0] <= i <= rows
    ensures Flatten(PadRows(t, rows, cols)) == Flatten(PadRows(t, i, cols)) + Zeros(RowsLeft(rows, i, cols))
    decreases rows - i
  {
    if rows > i {
      ZeroRows(t, rows, cols, i + 1);
      PadRowsNext(t, i, cols);
      ZerosConcat(cols, RowsLeft(rows, i + 1, cols));
    }
  }

  /** The padded matrix written row by row into a zeroed buffer. */
  method PadIntoBuffer(t: Tensor, rows: nat, cols: nat) returns (data: seq<int>)
    requires Matrix(t) && t.shape[0] <= rows && t.shape[1] <= cols
    ensures data == Pad(t, rows, cols).data
  {
    MatrixSize(t);
    RowsLeftIs(rows, 0, cols);
    var buffer := new int[rows * cols](_ => 0);
    for i := 0 to t.shape[0]
      invariant buffer[..] == Flatten(PadRows(t, i, cols)) + Zeros(RowsLeft(rows, i, cols))
    {
      RowBounds(t.shape[0], t.shape[1], i);
      RowBounds(rows, cols, i);
      ghost var before := buffer[..];
      var row := t.data[i * t.shape[1]..i * t.shape[1] + t.shape[1]];
      WriteRow(buffer, i * cols, row);
      NextRow(t, rows, cols, i, row, before, buffer[..], i * cols);
    }
    ZeroRows(t, rows, cols, t.shape[0]);
    return buffer[..];
  }

  /** `nd_to_nz_spec` computes what `nd_to_nz_2d` computes, for every matrix. */
  method NdToNzSpec(t: Tensor) returns (u: Tensor)
    requires Matrix(t)
    ensures u == NdToNz2d(t)
  {
    var rows := (t.shape[0] + 15) / 16 * 16;
    var cols := (t.shape[1] + 15) / 16 * 16;
    assert rows == RoundUp(t.shape[0], 16) && cols == RoundUp(t.shape[1], 16);
    var data := PadIntoBuffer(t, rows, cols);
    u := Blocks(Tensor([rows, cols], data));
  }
}
