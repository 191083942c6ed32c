/** `im2col`: turning a convolution into a matmul. */
module Im2col {
  import opened Params
  import Machine

  /** The convolution parameters im2col reads. `ld` is the row length of the output matrix and
      `inStride` that of the input: the channel count for an NHWC tensor (`im2col`), the row length
      of a flattened input for `im2col_with_col2im`. */
  datatype Patches = Patches(batch: nat, inRows: nat, inCols: nat, inCh: nat, stride: nat, padding: nat, kernel: nat,
                           inStride: nat, ld: nat, input: seq<int>)
  {
    /** A patch fits a matrix row. */
    predicate Valid() { 0 < stride && 0 < kernel && PatchSize() <= ld }

    /** How often the kernel fits along a padded dimension, `stride` apart. */
    function Positions(dim: nat): nat
      requires Valid()
    { if kernel <= dim + 2 * padding then (dim + 2 * padding - kernel) / stride + 1 else 0 }

    function OutRows(): nat
      requires Valid()
    { Positions(inRows) }
    function OutCols(): nat
      requires Valid()
    { Positions(inCols) }
    function PatchSize(): int { kernel * kernel * inCh }

    function Pixel(b: int, row: int, col: int, ch: int): int {
      if row < 0 || row >= inRows || col < 0 || col >= inCols then 0
      else Machine.At(input, (b * inRows * inCols + row * inCols + col) * inStride + ch)
    }

    /** Entry t of the patch of output (b, orow, ocol): kernel row, kernel column, channel. */
    function Entry(b: int, orow: int, ocol: int, t: int): int
      requires 0 < kernel
    {
      if inCh == 0 then 0 else
        Pixel(b, orow * stride - padding + t / inCh / kernel, ocol * stride - padding + t / inCh % kernel, t % inCh)
    }
  }

  /** Entry t of row `row` of the matrix. */
  function Cell(p: Patches, out: seq<int>, row: int, t: int): int { Machine.At(out, row * p.ld + t) }

  /** The first n entries of matrix row `row` are those of the patch, the others are still zero. */
  ghost predicate RowUpto(p: Patches, out: seq<int>, row: int, b: int, orow: int, ocol: int, n: int)
    requires 0 < p.kernel
  {
    forall t :: 0 <= t < p.PatchSize() ==> EntryUpto(p, out, row, b, orow, ocol, n, t)
  }

  predicate EntryUpto(p: Patches, out: seq<int>, row: int, b: int, orow: int, ocol: int, n: int, t: int)
    requires 0 < p.kernel
  { Cell(p, out, row, t) == if t < n then p.Entry(b, orow, ocol, t) else 0 }

  predicate SameCell(p: Patches, before: seq<int>, out: seq<int>, row: int, t: int) {
    Cell(p, out, row, t) == Cell(p, before, row, t)
  }

  lemma TapIndex(p: Patches, krow: int, kcol: int, ch: int)
    requires p.Valid() && 0 <= krow < p.kernel && 0 <= kcol < p.kernel && 0 <= ch < p.inCh
    ensures var t := (krow * p.kernel + kcol) * p.inCh + ch;
            0 <= t < p.PatchSize() && t / p.inCh / p.kernel == krow && t / p.inCh % p.kernel == kcol && t % p.inCh == ch
  {
    DivModUnique((krow * p.kernel + kcol) * p.inCh + ch, p.inCh, krow * p.kernel + kcol, ch);
    DivModUnique(krow * p.kernel + kcol, p.kernel, krow, kcol);
    RowMajorBound(p.kernel, p.kernel, krow, kcol);
    RowMajorBound(p.kernel * p.kernel, p.inCh, krow * p.kernel + kcol, ch);
  }

  /** Rows of the matrix other than `row` are unchanged. */
  ghost predicate OtherRowsSame(p: Patches, before: seq<int>, out: seq<int>, row: int) {
    |out| == |before| && forall r, t :: 0 <= r && r != row && 0 <= t < p.PatchSize() ==> SameCell(p, before, out, r, t)
  }

  lemma OneCell(p: Patches, before: seq<int>, s: seq<int>, s': seq<int>, row: int, t: int, v: int, b: int, orow: int,
                ocol: int)
    requires 0 < p.kernel && 0 <= row && 0 <= t < p.PatchSize() <= p.ld && 0 <= row * p.ld + t < |s|
    requires s' == s[row * p.ld + t := v] && v == p.Entry(b, orow, ocol, t)
    requires RowUpto(p, s, row, b, orow, ocol, t) && OtherRowsSame(p, before, s, row)
    ensures RowUpto(p, s', row, b, orow, ocol, t + 1) && OtherRowsSame(p, before, s', row)
  {
    var n := t + 1;
    forall t' | 0 <= t' < p.PatchSize()
      ensures EntryUpto(p, s', row, b, orow, ocol, n, t')
    {
      assert EntryUpto(p, s, row, b, orow, ocol, t, t');
    }
    forall r, t' | 0 <= r && r != row && 0 <= t' < p.PatchSize()
      ensures SameCell(p, before, s', r, t')
    {
      assert SameCell(p, before, s, r, t');
      if r * p.ld + t' == row * p.ld + t {
        RowMajorInjective(p.ld, r, t', row, t);
      }
    }
  }

  lemma SkipCell(p: Patches, out: seq<int>, row: int, b: int, orow: int, ocol: int, t: int)
    requires 0 < p.kernel && RowUpto(p, out, row, b, orow, ocol, t) && 0 <= t < p.PatchSize() &&
             p.Entry(b, orow, ocol, t) == 0
    ensures RowUpto(p, out, row, b, orow, ocol, t + 1)
  {
    var n := t + 1;
    forall t' | 0 <= t' < p.PatchSize()
      ensures EntryUpto(p, out, row, b, orow, ocol, n, t')
    {
      assert EntryUpto(p, out, row, b, orow, ocol, t, t');
    }
  }

  /** The body of the three inner loops. */
  method Tap(p: Patches, out: array<int>, patchRow: nat, patchCol: nat, b: nat, imRow: int, imCol: int,
             filterRow: nat, filterCol: nat, imChannel: nat, ghost orow: nat, ghost ocol: nat, ghost before: seq<int>)
    requires p.Valid() && filterRow < p.kernel && filterCol < p.kernel && imChannel < p.inCh
    requires patchRow * p.ld + p.ld <= out.Length && patchCol == (filterRow * p.kernel + filterCol) * p.inCh + imChannel
    requires imRow == orow * p.stride - p.padding && imCol == ocol * p.stride - p.padding
    requires RowUpto(p, out[..], patchRow, b, orow, ocol, patchCol) && OtherRowsSame(p, before, out[..], patchRow)
    modifies out
    ensures RowUpto(p, out[..], patchRow, b, orow, ocol, patchCol + 1) && OtherRowsSame(p, before, out[..], patchRow)
  {
    TapIndex(p, filterRow, filterCol, imChannel);
    var pixelRow := imRow + filterRow;
    var pixelCol := imCol + filterCol;
    if pixelRow < 0 || pixelRow >= p.inRows || pixelCol < 0 || pixelCol >= p.inCols {
      SkipCell(p, out[..], patchRow, b, orow, ocol, patchCol);
    } else {
      ghost var s := out[..];
      var v := Machine.At(p.input, (b * p.inRows * p.inCols + pixelRow * p.inCols + pixelCol) * p.inStride + imChannel);
      MulMono(0, patchRow, p.ld);
      out[patchRow * p.ld + patchCol] := v;
      assert out[..] == s[patchRow * p.ld + patchCol := v];
      OneCell(p, before, s, out[..], patchRow, patchCol, v, b, orow, ocol);
    }
  }

  /** The three inner loops: one patch becomes one matrix row. */
  method Patch(p: Patches, out: array<int>, patchRow: nat, b: nat, imRow: int, imCol: int, ghost orow: nat,
               ghost ocol: nat)
    requires p.Valid() && patchRow * p.ld + p.ld <= out.Length
    requires imRow == orow * p.stride - p.padding && imCol == ocol * p.stride - p.padding
    requires RowUpto(p, out[..], patchRow, b, orow, ocol, 0)
    modifies out
    ensures RowUpto(p, out[..], patchRow, b, orow, ocol, p.PatchSize())
    ensures OtherRowsSame(p, old(out[..]), out[..], patchRow)
  {
    ghost var before := out[..];
    var patchCol := 0;
    for filterRow := 0 to p.kernel
      invariant patchCol == filterRow * p.kernel * p.inCh
      invariant RowUpto(p, out[..], patchRow, b, orow, ocol, patchCol) && OtherRowsSame(p, before, out[..], patchRow)
    {
      assert filterRow * p.kernel * p.inCh == (filterRow * p.kernel + 0) * p.inCh;
      for filterCol := 0 to p.kernel
        invariant patchCol == (filterRow * p.kernel + filterCol) * p.inCh
        invariant RowUpto(p, out[..], patchRow, b, orow, ocol, patchCol) && OtherRowsSame(p, before, out[..], patchRow)
      {
        for imChannel := 0 to p.inCh
          invariant patchCol == (filterRow * p.kernel + filterCol) * p.inCh + imChannel
          invariant RowUpto(p, out[..], patchRow, b, orow, ocol, patchCol) &&
                    OtherRowsSame(p, before, out[..], patchRow)
        {
          Tap(p, out, patchRow, patchCol, b, imRow, imCol, filterRow, filterCol, imChannel, orow, ocol, before);
          patchCol := patchCol + 1;
        }
        assert (filterRow * p.kernel + filterCol) * p.inCh + p.inCh
          == (filterRow * p.kernel + (filterCol + 1)) * p.inCh;
      }
      assert filterRow * p.kernel + p.kernel == (filterRow + 1) * p.kernel;
    }
  }

  function RowOf(p: Patches, b: int, orow: int, ocol: int): int
    requires p.Valid()
  { (b * p.OutRows() + orow) * p.OutCols() + ocol }

  /** Rows before `n` hold their patches, rows from `n` on are zero. */
  ghost predicate MatrixUpto(p: Patches, out: seq<int>, n: int)
    requires p.Valid()
  {
    forall b, orow, ocol :: 0 <= b < p.batch && 0 <= orow < p.OutRows() && 0 <= ocol < p.OutCols() ==>
      PatchRow(p, out, n, b, orow, ocol)
  }

  ghost predicate PatchRow(p: Patches, out: seq<int>, n: int, b: int, orow: int, ocol: int)
    requires p.Valid()
  {
    RowUpto(p, out, RowOf(p, b, orow, ocol), b, orow, ocol, if RowOf(p, b, orow, ocol) < n then p.PatchSize() else 0)
  }

  lemma NextRow(p: Patches, before: seq<int>, out: seq<int>, b: int, orow: int, ocol: int)
    requires p.Valid() && 0 <= b < p.batch && 0 <= orow < p.OutRows() && 0 <= ocol < p.OutCols()
    requires MatrixUpto(p, before, RowOf(p, b, orow, ocol)) && OtherRowsSame(p, before, out, RowOf(p, b, orow, ocol))
    requires RowUpto(p, out, RowOf(p, b, orow, ocol), b, orow, ocol, p.PatchSize())
    ensures MatrixUpto(p, out, RowOf(p, b, orow, ocol) + 1)
  {
    var row, next := RowOf(p, b, orow, ocol), RowOf(p, b, orow, ocol) + 1;
    forall b', r', c' | 0 <= b' < p.batch && 0 <= r' < p.OutRows() && 0 <= c' < p.OutCols()
      ensures PatchRow(p, out, next, b', r', c')
    {
      var row' := RowOf(p, b', r', c');
      if row' == row {
        RowMajorInjective(p.OutCols(), b' * p.OutRows() + r', c', b * p.OutRows() + orow, ocol);
        RowMajorInjective(p.OutRows(), b', r', b, orow);
      } else {
        assert PatchRow(p, before, row, b', r', c');
        RowMajorBound(p.batch, p.OutRows(), b', r');
        RowMajorBound(p.batch * p.OutRows(), p.OutCols(), b' * p.OutRows() + r', c');
        OtherRowKept(p, before, out, row, row', b', r', c', if row' < row then p.PatchSize() else 0);
      }
    }
  }

  lemma OtherRowKept(p: Patches, before: seq<int>, out: seq<int>, row: int, row': int, b: int, orow: int, ocol: int,
                     n: int)
    requires 0 < p.kernel && 0 <= row' && row' != row && OtherRowsSame(p, before, out, row)
    requires RowUpto(p, before, row', b, orow, ocol, n)
    ensures RowUpto(p, out, row', b, orow, ocol, n)
  {
    forall t | 0 <= t < p.PatchSize()
      ensures EntryUpto(p, out, row', b, orow, ocol, n, t)
    {
      assert EntryUpto(p, before, row', b, orow, ocol, n, t);
      assert SameCell(p, before, out, row', t);
    }
  }

  /** The loop bound `im_row < in - kernel + padding + 1` admits exactly the output coordinates. */
  lemma LoopBound(p: Patches, dim: nat, o: nat)
    requires p.Valid()
    ensures o * p.stride - p.padding < dim - p.kernel + p.padding + 1 <==> o < p.Positions(dim)
  {
    if p.kernel <= dim + 2 * p.padding {
      CountBound(dim + 2 * p.padding - p.kernel, p.stride, o);
    } else {
      MulMono(0, o, p.stride);
    }
  }

  lemma CountBound(n: nat, stride: nat, o: nat)
    requires 0 < stride
    ensures o * stride <= n <==> o < n / stride + 1
  {
    assert n == n / stride * stride + n % stride;
    MulMono(o, n / stride, stride);
    MulMono(n / stride + 1, o, stride);
  }

  lemma RowFits(p: Patches, b: int, orow: int, ocol: int)
    requires p.Valid() && 0 <= b < p.batch && 0 <= orow < p.OutRows() && 0 <= ocol < p.OutCols()
    ensures 0 <= RowOf(p, b, orow, ocol) < p.batch * p.OutRows() * p.OutCols()
    ensures RowOf(p, b, orow, ocol) * p.ld + p.ld <= p.batch * p.OutRows() * p.OutCols() * p.ld
  {
    RowMajorBound(p.batch, p.OutRows(), b, orow);
    RowMajorBound(p.batch * p.OutRows(), p.OutCols(), b * p.OutRows() + orow, ocol);
    var row, rows := RowOf(p, b, orow, ocol), p.batch * p.OutRows() * p.OutCols();
    MulMono(row + 1, rows, p.ld);
    assert (row + 1) * p.ld == row * p.ld + p.ld;
  }

  /** From a zeroed matrix, row (b, orow, ocol) becomes the patch of that output, for all outputs. */
  method Im2col(p: Patches, out: array<int>)
    requires p.Valid() && p.batch * p.OutRows() * p.OutCols() * p.ld <= out.Length
    requires forall x :: 0 <= x < out.Length ==> out[x] == 0
    modifies out
    ensures MatrixUpto(p, out[..], p.batch * p.OutRows() * p.OutCols())
  {
    var patchRow := 0;
    ghost var rows, cols := p.OutRows(), p.OutCols();
    ZeroMatrix(p, out[..]);
    for b := 0 to p.batch
      invariant patchRow == b * rows * cols
      invariant MatrixUpto(p, out[..], patchRow)
    {
      RowOfBatch(b, rows, cols);
      patchRow := BatchLoop(p, out, b, patchRow);
    }
  }

  lemma ZeroMatrix(p: Patches, out: seq<int>)
    requires p.Valid() && forall x :: 0 <= x < |out| ==> out[x] == 0
    ensures MatrixUpto(p, out, 0)
  {
    forall b, orow, ocol | 0 <= b < p.batch && 0 <= orow < p.OutRows() && 0 <= ocol < p.OutCols()
      ensures PatchRow(p, out, 0, b, orow, ocol)
    {
      RowFits(p, b, orow, ocol);
    }
  }

  /** The im_row loop. */
  method BatchLoop(p: Patches, out: array<int>, b: nat, patchRow0: nat) returns (patchRow: nat)
    requires p.Valid() && p.batch * p.OutRows() * p.OutCols() * p.ld <= out.Length && b < p.batch
    requires patchRow0 == RowOf(p, b, 0, 0) && MatrixUpto(p, out[..], patchRow0)
    modifies out
    ensures patchRow == patchRow0 + p.OutRows() * p.OutCols() && MatrixUpto(p, out[..], patchRow)
  {
    patchRow := patchRow0;
    ghost var orow, rows, cols := 0, p.OutRows(), p.OutCols();
    var imRow := -(p.padding as int);
    while imRow < p.inRows - p.kernel + p.padding + 1
      invariant 0 <= orow <= rows && imRow == orow * p.stride - p.padding
      invariant patchRow == RowOf(p, b, orow, 0)
      invariant MatrixUpto(p, out[..], patchRow)
      decreases rows - orow
    {
      LoopBound(p, p.inRows, orow);
      patchRow := PatchRowLoop(p, out, b, imRow, patchRow, orow);
      NextProduct(b * rows + orow, cols);
      NextProduct(orow, p.stride);
      imRow := imRow + p.stride;
      orow := orow + 1;
    }
    LoopBound(p, p.inRows, orow);
    RowOfBatch(b, rows, cols);
  }

  lemma NextProduct(x: int, y: int)
    ensures (x + 1) * y == x * y + y
  {}

  /** Rows of the patch matrix before batch b, and before the next one. */
  lemma RowOfBatch(b: int, rows: int, cols: int)
    ensures (b * rows + 0) * cols + 0 == b * rows * cols
    ensures (b * rows + rows) * cols + 0 == b * rows * cols + rows * cols == (b + 1) * rows * cols
  {
    assert (b + 1) * rows == b * rows + rows;
  }

  /** The im_col loop. */
  method PatchRowLoop(p: Patches, out: array<int>, b: nat, imRow: int, patchRow0: nat, ghost orow: nat)
    returns (patchRow: nat)
    requires p.Valid() && p.batch * p.OutRows() * p.OutCols() * p.ld <= out.Length && b < p.batch && orow < p.OutRows()
    requires imRow == orow * p.stride - p.padding && patchRow0 == RowOf(p, b, orow, 0) &&
             MatrixUpto(p, out[..], patchRow0)
    modifies out
    ensures patchRow == patchRow0 + p.OutCols() && MatrixUpto(p, out[..], patchRow)
  {
    patchRow := patchRow0;
    ghost var ocol := 0;
    var imCol := -(p.padding as int);
    while imCol < p.inCols - p.kernel + p.padding + 1
      invariant 0 <= ocol <= p.OutCols() && imCol == ocol * p.stride - p.padding
      invariant patchRow == RowOf(p, b, orow, ocol)
      invariant MatrixUpto(p, out[..], patchRow)
      decreases p.OutCols() - ocol
    {
      LoopBound(p, p.inCols, ocol);
      RowFits(p, b, orow, ocol);
      ghost var before := out[..];
      assert PatchRow(p, before, patchRow, b, orow, ocol);
      Patch(p, out, patchRow, b, imRow, imCol, orow, ocol);
      NextRow(p, before, out[..], b, orow, ocol);
      patchRow := patchRow + 1;
      assert (ocol + 1) * p.stride == ocol * p.stride + p.stride;
      imCol := imCol + p.stride;
      ocol := ocol + 1;
    }
    LoopBound(p, p.inCols, ocol);
  }
}
