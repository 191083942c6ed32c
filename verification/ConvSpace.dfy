/** What the row counts of `tiled_conv_total_spad_rows` are counts of: the local rows that the elements of a
    tile take. */
module ConvSpace {
  import opened Params
  import ConvTiles

  // ---- positions in a table of four dimensions, in row-major order ----

  function Place(n1: int, n2: int, n3: int, x0: int, x1: int, x2: int, x3: int): int {
    ((x0 * n1 + x1) * n2 + x2) * n3 + x3
  }

  lemma PlaceBound(n0: int, n1: int, n2: int, n3: int, x0: int, x1: int, x2: int, x3: int)
    requires 0 <= x0 < n0 && 0 <= x1 < n1 && 0 <= x2 < n2 && 0 <= x3 < n3
    ensures 0 <= Place(n1, n2, n3, x0, x1, x2, x3) < n0 * n1 * n2 * n3
  {
    RowMajorBound(n0, n1, x0, x1);
    RowMajorBound(n0 * n1, n2, x0 * n1 + x1, x2);
    RowMajorBound(n0 * n1 * n2, n3, (x0 * n1 + x1) * n2 + x2, x3);
  }

  lemma PlaceInjective(n1: int, n2: int, n3: int, x0: int, x1: int, x2: int, x3: int, y0: int, y1: int, y2: int,
                       y3: int)
    requires 0 <= x1 < n1 && 0 <= x2 < n2 && 0 <= x3 < n3 && 0 <= y1 < n1 && 0 <= y2 < n2 && 0 <= y3 < n3
    requires Place(n1, n2, n3, x0, x1, x2, x3) == Place(n1, n2, n3, y0, y1, y2, y3)
    ensures x0 == y0 && x1 == y1 && x2 == y2 && x3 == y3
  {
    RowMajorInjective(n3, (x0 * n1 + x1) * n2 + x2, x3, (y0 * n1 + y1) * n2 + y2, y3);
    RowMajorInjective(n2, x0 * n1 + x1, x2, y0 * n1 + y1, y2);
    RowMajorInjective(n1, x0, x1, y0, y1);
  }

  // ---- channels and batches in blocks of DIM ----

  /** n elements take exactly `blocks` blocks of DIM. */
  predicate TakesBlocks(n: int, blocks: int) { (blocks - 1) * DIM < n <= blocks * DIM }

  lemma TakesBlocksIs(n: int, blocks: int)
    requires TakesBlocks(n, blocks)
    ensures Blocks(n) == blocks
  {
    assert Dims(blocks) == blocks * DIM && (blocks - 1) * DIM == blocks * DIM - DIM;
    BlocksOf(blocks, blocks * DIM - n);
  }

  lemma BlockInRange(n: int, blocks: int, x: int)
    requires TakesBlocks(n, blocks) && 0 <= x < n
    ensures 0 <= x / DIM < blocks
  {
    BlockOf(x);
    DimsMono(blocks, x / DIM);
    assert Dims(blocks) == blocks * DIM;
    DimsMono(x / DIM + 1, 0);
  }

  lemma SameElement(x: int, y: int)
    requires x / DIM == y / DIM && x % DIM == y % DIM
    ensures x == y
  {
    BlockOf(x);
    BlockOf(y);
  }

  // ---- the accumulator: the outputs that the pooling windows of a tile see ----

  /** The output rows of a tile that the source counts, and where it keeps an output: by block of channels, batch,
      row and column. */
  function OutputRows(c: ConvTiles.Config, pooled: int): int { pooled * c.poolStride + c.poolSize - 1 }

  function OutputPlace(c: ConvTiles.Config, t: ConvTiles.Tile, b: int, orow: int, ocol: int, och: int): int
    requires |t| == ConvTiles.FACTORS
  { Place(t[0], OutputRows(c, t[1]), OutputRows(c, t[2]), och / DIM, b, orow, ocol) }

  /** Row w of the pooling window of pooled row r is counted. The last such row is followed by poolStride - 1 rows
      that no window of the tile sees. */
  lemma WindowRowCounted(c: ConvTiles.Config, pooled: int, r: int, w: int)
    requires c.Valid() && 0 <= r < pooled && 0 <= w < c.poolSize
    ensures 0 <= r * c.poolStride + w < OutputRows(c, pooled)
    ensures r * c.poolStride + w <= (pooled - 1) * c.poolStride + (c.poolSize - 1)
    ensures (pooled - 1) * c.poolStride + (c.poolSize - 1) + 1 + (c.poolStride - 1) == OutputRows(c, pooled)
  {
    MulMono(r, pooled - 1, c.poolStride);
    MulMono(0, r, c.poolStride);
    assert (pooled - 1) * c.poolStride == pooled * c.poolStride - c.poolStride;
  }

  /** The accumulator count is that of the table, and every output that a pooled tile needs has its place in it. */
  lemma OutputHeld(c: ConvTiles.Config, t: ConvTiles.Tile, blocks: int, b: int, r: int, w: int, s: int, v: int,
                   och: int)
    requires c.Valid() && ConvTiles.IsTile(t) && TakesBlocks(t[3], blocks)
    requires 0 <= b < t[0] && 0 <= r < t[1] && 0 <= s < t[2] && 0 <= och < t[3]
    requires 0 <= w < c.poolSize && 0 <= v < c.poolSize
    ensures ConvTiles.AccRows(c, t) == blocks * t[0] * OutputRows(c, t[1]) * OutputRows(c, t[2])
    ensures 0 <= OutputPlace(c, t, b, r * c.poolStride + w, s * c.poolStride + v, och) < ConvTiles.AccRows(c, t)
  {
    TakesBlocksIs(t[3], blocks);
    WindowRowCounted(c, t[1], r, w);
    WindowRowCounted(c, t[2], s, v);
    BlockInRange(t[3], blocks, och);
    PlaceBound(blocks, t[0], OutputRows(c, t[1]), OutputRows(c, t[2]), och / DIM, b, r * c.poolStride + w,
               s * c.poolStride + v);
  }

  /** No two outputs share a place and a column. */
  lemma OutputsApart(c: ConvTiles.Config, t: ConvTiles.Tile, b: int, orow: int, ocol: int, och: int, b': int,
                     orow': int, ocol': int, och': int)
    requires ConvTiles.IsTile(t) && 0 <= b < t[0] && 0 <= b' < t[0]
    requires 0 <= orow < OutputRows(c, t[1]) && 0 <= orow' < OutputRows(c, t[1])
    requires 0 <= ocol < OutputRows(c, t[2]) && 0 <= ocol' < OutputRows(c, t[2])
    requires OutputPlace(c, t, b, orow, ocol, och) == OutputPlace(c, t, b', orow', ocol', och')
    requires och % DIM == och' % DIM
    ensures b == b' && orow == orow' && ocol == ocol' && och == och'
  {
    PlaceInjective(t[0], OutputRows(c, t[1]), OutputRows(c, t[2]), och / DIM, b, orow, ocol, och' / DIM, b', orow',
                   ocol');
    SameElement(och, och');
  }

  // ---- the scratchpad: the inputs that the counted outputs read ----

  /** Rows of the dilated image from the first one that a tile reads to `stride` behind the last. */
  function DilatedRows(c: ConvTiles.Config, pooled: int, krows: int): int {
    OutputRows(c, pooled) * c.stride + (krows - 1) * c.kernelDilation
  }

  /** `rows` is the least number of input rows that, dilated, are as many. */
  predicate TakesRows(c: ConvTiles.Config, pooled: int, krows: int, rows: int) {
    (rows - 1) * c.inputDilation < DilatedRows(c, pooled, krows) <= rows * c.inputDilation
  }

  lemma RoundedUp(x: int, d: int, q: int)
    requires 0 < d && (q - 1) * d < x <= q * d
    ensures ConvTiles.CeilDiv(x, d) == q
  {
    var r := x - (q - 1) * d;
    assert q * d == (q - 1) * d + d;
    if r == d {
      DivModUnique(x, d, q, 0);
    } else {
      DivModUnique(x, d, q - 1, r);
    }
  }

  lemma TakesRowsIs(c: ConvTiles.Config, pooled: int, krows: int, rows: int)
    requires c.Valid() && TakesRows(c, pooled, krows, rows)
    ensures ConvTiles.IRows(c, pooled, krows) == rows
  {
    assert (c.kernelDilation - 1) * (krows - 1) == (krows - 1) * c.kernelDilation - (krows - 1);
    RoundedUp(DilatedRows(c, pooled, krows), c.inputDilation, rows);
  }

  /** The input row that kernel row k of a counted output row reads is counted. */
  lemma SourceRowCounted(c: ConvTiles.Config, pooled: int, krows: int, rows: int, orow: int, k: int)
    requires c.Valid() && TakesRows(c, pooled, krows, rows) && 0 <= orow < OutputRows(c, pooled) && 0 <= k < krows
    ensures 0 <= (orow * c.stride + k * c.kernelDilation) / c.inputDilation < rows
    ensures orow * c.stride + k * c.kernelDilation + c.stride <= DilatedRows(c, pooled, krows)
  {
    var x := orow * c.stride + k * c.kernelDilation;
    MulMono(0, orow, c.stride);
    MulMono(0, k, c.kernelDilation);
    MulMono(orow, OutputRows(c, pooled) - 1, c.stride);
    MulMono(k, krows - 1, c.kernelDilation);
    assert (OutputRows(c, pooled) - 1) * c.stride == OutputRows(c, pooled) * c.stride - c.stride;
    QuotientBelow(x, c.inputDilation, rows);
  }

  lemma QuotientBelow(x: int, d: int, n: int)
    requires 0 < d && 0 <= x < n * d
    ensures 0 <= x / d < n
  {
    assert x == x / d * d + x % d;
    MulMono(n, x / d, d);
    MulMono(x / d, -1, d);
  }

  /** A downsampling convolution keeps every other row and column of its input. */
  function Step(c: ConvTiles.Config): int { if c.downsample then 2 else 1 }

  /** Where the source keeps an input: by block of channels, batch, row and column, or, transposed, by block of
      batches and channel. */
  function InputPlace(c: ConvTiles.Config, t: ConvTiles.Tile, rows: int, cols: int, b: int, row: int, col: int,
                      kch: int): int
    requires |t| == ConvTiles.FACTORS
  {
    var r, s, n, m := row / Step(c), col / Step(c), rows / Step(c), cols / Step(c);
    if c.transInput3120 then Place(t[6], n, m, b / DIM, kch, r, s) else Place(t[0], n, m, kch / DIM, b, r, s)
  }

  function InputColumn(c: ConvTiles.Config, b: int, kch: int): int { if c.transInput3120 then b % DIM else kch % DIM }

  function InputRows(c: ConvTiles.Config, t: ConvTiles.Tile, rows: int, cols: int, blocks: int): int
    requires |t| == ConvTiles.FACTORS
  { blocks * (if c.transInput3120 then t[6] else t[0]) * (rows / Step(c)) * (cols / Step(c)) }

  /** What a downsampling convolution is: stride 2, one kernel row and column, no pooling, no dilation. */
  predicate Downsampling(c: ConvTiles.Config, t: ConvTiles.Tile)
    requires |t| == ConvTiles.FACTORS
  { c.stride == 2 && t[4] == t[5] == 1 && c.poolSize == c.poolStride == 1 && c.inputDilation == 1 }

  lemma KeptRow(c: ConvTiles.Config, pooled: int, krows: int, rows: int, orow: int, k: int)
    requires c.Valid() && TakesRows(c, pooled, krows, rows) && 0 <= orow < OutputRows(c, pooled) && 0 <= k < krows
    requires c.downsample ==> c.stride == 2 && krows == 1 && c.inputDilation == 1
    ensures var row := (orow * c.stride + k * c.kernelDilation) / c.inputDilation;
            0 <= row / Step(c) < rows / Step(c) && row % Step(c) == 0
  {
    SourceRowCounted(c, pooled, krows, rows, orow, k);
    if c.downsample {
      assert k * c.kernelDilation == 0;
      assert rows == DilatedRows(c, pooled, krows) == OutputRows(c, pooled) * 2;
    }
  }

  /** Every input that a counted output reads has its place. */
  lemma InputHeld(c: ConvTiles.Config, t: ConvTiles.Tile, rows: int, cols: int, blocks: int, b: int, orow: int,
                  ocol: int, krow: int, kcol: int, kch: int)
    requires c.Valid() && ConvTiles.IsTile(t) && (c.downsample ==> Downsampling(c, t))
    requires TakesRows(c, t[1], t[4], rows) && TakesRows(c, t[2], t[5], cols)
    requires TakesBlocks(if c.transInput3120 then t[0] else t[6], blocks)
    requires 0 <= b < t[0] && 0 <= krow < t[4] && 0 <= kcol < t[5] && 0 <= kch < t[6]
    requires 0 <= orow < OutputRows(c, t[1]) && 0 <= ocol < OutputRows(c, t[2])
    ensures var row := (orow * c.stride + krow * c.kernelDilation) / c.inputDilation;
            var col := (ocol * c.stride + kcol * c.kernelDilation) / c.inputDilation;
            && row % Step(c) == 0 && col % Step(c) == 0
            && 0 <= row / Step(c) < rows / Step(c) && 0 <= col / Step(c) < cols / Step(c)
            && 0 <= InputPlace(c, t, rows, cols, b, row, col, kch) < InputRows(c, t, rows, cols, blocks)
  {
    KeptRow(c, t[1], t[4], rows, orow, krow);
    KeptRow(c, t[2], t[5], cols, ocol, kcol);
    var row := (orow * c.stride + krow * c.kernelDilation) / c.inputDilation;
    var col := (ocol * c.stride + kcol * c.kernelDilation) / c.inputDilation;
    InputPlaceBound(c, t, rows, cols, blocks, b, row, col, kch);
  }

  lemma InputPlaceBound(c: ConvTiles.Config, t: ConvTiles.Tile, rows: int, cols: int, blocks: int, b: int, row: int,
                        col: int, kch: int)
    requires |t| == ConvTiles.FACTORS && TakesBlocks(if c.transInput3120 then t[0] else t[6], blocks)
    requires 0 <= b < t[0] && 0 <= kch < t[6]
    requires 0 <= row / Step(c) < rows / Step(c) && 0 <= col / Step(c) < cols / Step(c)
    ensures 0 <= InputPlace(c, t, rows, cols, b, row, col, kch) < InputRows(c, t, rows, cols, blocks)
  {
    if c.transInput3120 {
      BlockInRange(t[0], blocks, b);
      PlaceBound(blocks, t[6], rows / Step(c), cols / Step(c), b / DIM, kch, row / Step(c), col / Step(c));
    } else {
      BlockInRange(t[6], blocks, kch);
      PlaceBound(blocks, t[0], rows / Step(c), cols / Step(c), kch / DIM, b, row / Step(c), col / Step(c));
    }
  }

  /** No two inputs that are kept share a place and a column. */
  lemma InputsApart(c: ConvTiles.Config, t: ConvTiles.Tile, rows: int, cols: int, b: int, row: int, col: int, kch: int,
                    b': int, row': int, col': int, kch': int)
    requires |t| == ConvTiles.FACTORS && 0 <= b < t[0] && 0 <= b' < t[0] && 0 <= kch < t[6] && 0 <= kch' < t[6]
    requires 0 <= row / Step(c) < rows / Step(c) && 0 <= col / Step(c) < cols / Step(c)
    requires 0 <= row' / Step(c) < rows / Step(c) && 0 <= col' / Step(c) < cols / Step(c)
    requires row % Step(c) == row' % Step(c) == 0 && col % Step(c) == col' % Step(c) == 0
    requires InputPlace(c, t, rows, cols, b, row, col, kch) == InputPlace(c, t, rows, cols, b', row', col', kch')
    requires InputColumn(c, b, kch) == InputColumn(c, b', kch')
    ensures b == b' && row == row' && col == col' && kch == kch'
  {
    var n, m := rows / Step(c), cols / Step(c);
    if c.transInput3120 {
      PlaceInjective(t[6], n, m, b / DIM, kch, row / Step(c), col / Step(c), b' / DIM, kch', row' / Step(c),
                     col' / Step(c));
      SameElement(b, b');
    } else {
      PlaceInjective(t[0], n, m, kch / DIM, b, row / Step(c), col / Step(c), kch' / DIM, b', row' / Step(c),
                     col' / Step(c));
      SameElement(kch, kch');
    }
  }

  // ---- the scratchpad: the weights ----

  /** Where the source keeps a weight, counted from the first: by block of output channels, kernel row, kernel
      column and input channel, or, transposed, with the two channels swapped. */
  function WeightPlace(c: ConvTiles.Config, t: ConvTiles.Tile, krow: int, kcol: int, kch: int, och: int): int
    requires |t| == ConvTiles.FACTORS
  {
    if c.transWeight0132 then Place(t[4], t[5], t[3], kch / DIM, krow, kcol, och)
    else Place(t[4], t[5], t[6], och / DIM, krow, kcol, kch)
  }

  function WeightColumn(c: ConvTiles.Config, kch: int, och: int): int {
    if c.transWeight0132 then kch % DIM else och % DIM
  }

  function WeightRows(c: ConvTiles.Config, t: ConvTiles.Tile, blocks: int): int
    requires |t| == ConvTiles.FACTORS
  { blocks * t[4] * t[5] * (if c.transWeight0132 then t[3] else t[6]) }

  lemma WeightHeld(c: ConvTiles.Config, t: ConvTiles.Tile, blocks: int, krow: int, kcol: int, kch: int, och: int)
    requires |t| == ConvTiles.FACTORS && TakesBlocks(if c.transWeight0132 then t[6] else t[3], blocks)
    requires 0 <= krow < t[4] && 0 <= kcol < t[5] && 0 <= kch < t[6] && 0 <= och < t[3]
    ensures 0 <= WeightPlace(c, t, krow, kcol, kch, och) < WeightRows(c, t, blocks)
  {
    if c.transWeight0132 {
      BlockInRange(t[6], blocks, kch);
      PlaceBound(blocks, t[4], t[5], t[3], kch / DIM, krow, kcol, och);
    } else {
      BlockInRange(t[3], blocks, och);
      PlaceBound(blocks, t[4], t[5], t[6], och / DIM, krow, kcol, kch);
    }
  }

  lemma WeightsApart(c: ConvTiles.Config, t: ConvTiles.Tile, krow: int, kcol: int, kch: int, och: int, krow': int,
                     kcol': int, kch': int, och': int)
    requires |t| == ConvTiles.FACTORS && 0 <= krow < t[4] && 0 <= krow' < t[4] && 0 <= kcol < t[5] && 0 <= kcol' < t[5]
    requires 0 <= kch < t[6] && 0 <= kch' < t[6] && 0 <= och < t[3] && 0 <= och' < t[3]
    requires WeightPlace(c, t, krow, kcol, kch, och) == WeightPlace(c, t, krow', kcol', kch', och')
    requires WeightColumn(c, kch, och) == WeightColumn(c, kch', och')
    ensures krow == krow' && kcol == kcol' && kch == kch' && och == och'
  {
    if c.transWeight0132 {
      PlaceInjective(t[4], t[5], t[3], kch / DIM, krow, kcol, och, kch' / DIM, krow', kcol', och');
      SameElement(kch, kch');
    } else {
      PlaceInjective(t[4], t[5], t[6], och / DIM, krow, kcol, kch, och' / DIM, krow', kcol', kch');
      SameElement(och, och');
    }
  }

  // ---- the whole scratchpad ----

  /** The scratchpad count is that of the two tables. */
  lemma SpadRowsAre(c: ConvTiles.Config, t: ConvTiles.Tile, rows: int, cols: int, inBlocks: int, wBlocks: int)
    requires c.Valid() && |t| == ConvTiles.FACTORS
    requires TakesRows(c, t[1], t[4], rows) && TakesRows(c, t[2], t[5], cols)
    requires TakesBlocks(if c.transInput3120 then t[0] else t[6], inBlocks)
    requires TakesBlocks(if c.transWeight0132 then t[6] else t[3], wBlocks)
    ensures ConvTiles.SpadRows(c, t) == InputRows(c, t, rows, cols, inBlocks) + WeightRows(c, t, wBlocks)
  {
    TakesRowsIs(c, t[1], t[4], rows);
    TakesRowsIs(c, t[2], t[5], cols);
    TakesBlocksIs(if c.transInput3120 then t[0] else t[6], inBlocks);
    TakesBlocksIs(if c.transWeight0132 then t[6] else t[3], wBlocks);
    Swapped(wBlocks, t[5], t[4]);
  }

  lemma Swapped(x: int, y: int, z: int)
    ensures x * y * z == x * z * y
  {
    assert x * y * z == x * (y * z) && x * z * y == x * (z * y);
  }

  /** For a tile that fits: every output that a pooling window needs lies in one half of the accumulator, every
      input in the first half of the scratchpad and every weight, which the source keeps at the end, in the second. */
  lemma FittingTileIsHeld(c: ConvTiles.Config, t: ConvTiles.Tile, rows: int, cols: int, outBlocks: int, inBlocks: int,
                          wBlocks: int, b: int, r: int, w: int, s: int, v: int, krow: int, kcol: int, kch: int,
                            och: int)
    requires c.Valid() && ConvTiles.IsTile(t) && ConvTiles.Fits(c, t) && (c.downsample ==> Downsampling(c, t))
    requires TakesRows(c, t[1], t[4], rows) && TakesRows(c, t[2], t[5], cols) && TakesBlocks(t[3], outBlocks)
    requires TakesBlocks(if c.transInput3120 then t[0] else t[6], inBlocks)
    requires TakesBlocks(if c.transWeight0132 then t[6] else t[3], wBlocks)
    requires 0 <= b < t[0] && 0 <= r < t[1] && 0 <= s < t[2] && 0 <= och < t[3]
    requires 0 <= w < c.poolSize && 0 <= v < c.poolSize && 0 <= krow < t[4] && 0 <= kcol < t[5] && 0 <= kch < t[6]
    ensures var orow, ocol := r * c.poolStride + w, s * c.poolStride + v;
            var row := (orow * c.stride + krow * c.kernelDilation) / c.inputDilation;
            var col := (ocol * c.stride + kcol * c.kernelDilation) / c.inputDilation;
            && 0 <= OutputPlace(c, t, b, orow, ocol, och) < ACC_ROWS / 2
            && 0 <= InputPlace(c, t, rows, cols, b, row, col, kch) < SPAD_ROWS / 2
            && SPAD_ROWS / 2 <= SPAD_ROWS - WeightRows(c, t, wBlocks)
              + WeightPlace(c, t, krow, kcol, kch, och) < SPAD_ROWS
  {
    OutputHeld(c, t, outBlocks, b, r, w, s, v, och);
    WindowRowCounted(c, t[1], r, w);
    WindowRowCounted(c, t[2], s, v);
    InputHeld(c, t, rows, cols, inBlocks, b, r * c.poolStride + w, s * c.poolStride + v, krow, kcol, kch);
    WeightHeld(c, t, wBlocks, krow, kcol, kch, och);
    SpadRowsAre(c, t, rows, cols, inBlocks, wBlocks);
  }
}
