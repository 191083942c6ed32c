/** `sp_tiled_conv` as the depthwise driver calls it (one channel, no pooling, dilation or
    transposition): one slice of the kernel over one tile of the output. */
module DepthwiseTile {
  import opened Params
  import opened Machine
  import opened OneChannel
  import opened Depthwise
  import opened Tensor

  /** Output tile (b0, orow0, ocol0) of channel ch and kernel slice (krow0, kcol0), with their sizes. */
  datatype Slice = Slice(a: Args, b0: nat, orow0: nat, ocol0: nat, ch: nat, krow0: nat, kcol0: nat,
                         batches: nat, orows: nat, ocols: nat, krows: nat, kcols: nat)
  {
    predicate Valid() {
      && 0 < a.stride && 0 <= a.padding && ch < a.channels && a.inStride == a.channels
      && 0 < batches && 0 < orows && 0 < ocols && 0 < krows && 0 < kcols
      && b0 + batches <= a.batch && orow0 + orows <= a.outRows && ocol0 + ocols <= a.outCols
      && krow0 + krows <= a.kernel && kcol0 + kcols <= a.kernel
    }

    /** Input and weights fit half the scratchpad, the tile half the accumulator. */
    predicate Fits() {
      && batches * IRows() * ICols() + krows * kcols <= SPAD_ROWS / 2
      && batches * orows * ocols <= ACC_ROWS / 2
    }

    // Geometry, as the driver and the tile compute it. Image rows and columns include padding.

    function IRow0(): int { orow0 * a.stride + krow0 - a.padding }
    function ICol0(): int { ocol0 * a.stride + kcol0 - a.padding }
    function IRows(): int { orows * a.stride + krows - 1 }
    function ICols(): int { ocols * a.stride + kcols - 1 }
    function UPad(): int { if IRow0() < 0 then -IRow0() else 0 }
    function LPad(): int { if ICol0() < 0 then -ICol0() else 0 }
    function DPad(): int { if IRow0() + IRows() > a.inRows then IRow0() + IRows() - a.inRows else 0 }
    function RPad(): int { if ICol0() + ICols() > a.inCols then ICol0() + ICols() - a.inCols else 0 }

    /** Scratchpad row of pixel (row, col) of the slice, and of weight (krow, kcol). */
    function ARow(b: int, row: int, col: int): int { b * IRows() * ICols() + row * ICols() + col }
    function BRow(krow: int, kcol: int): int { SPAD_ROWS - krows * kcols + krow * kcols + kcol }
    /** Accumulator row of an output of the tile, from the base of the tile. */
    function CRow(b: int, orow: int, ocol: int): int { b * orows * ocols + orow * ocols + ocol }

    function Partial(b: int, orow: int, ocol: int, krow: int, kcol: int): int {
      a.RectSum(b0 + b, orow0 + orow, ocol0 + ocol, ch, krow0, krow0 + krow, kcol0, kcol0 + kcols)
      + a.RowSum(b0 + b, orow0 + orow, ocol0 + ocol, ch, krow0 + krow, kcol0, kcol0 + kcol)
    }

    predicate InTile(b: int, orow: int, ocol: int) { 0 <= b < batches && 0 <= orow < orows && 0 <= ocol < ocols }
    predicate InImage(b: int, row: int, col: int) { 0 <= b < batches && 0 <= row < IRows() && 0 <= col < ICols() }
    predicate InKernel(krow: int, kcol: int) { 0 <= krow < krows && 0 <= kcol < kcols }

    predicate PixelLoaded(s: State, b: int, row: int, col: int) {
      s.spad(ARow(b, row, col), 0) == a.Pixel(b0 + b, IRow0() + row, ICol0() + col, ch)
    }

    predicate WeightLoaded(s: State, krow: int, kcol: int) {
      s.spad(BRow(krow, kcol), 0) == a.Weight(ch, krow0 + krow, kcol0 + kcol)
    }

    predicate Accumulated(s0: State, s: State, base: int, b: int, orow: int, ocol: int, krow: int, kcol: int) {
      s.acc(base + CRow(b, orow, ocol), 0) == s0.acc(base + CRow(b, orow, ocol), 0) + Partial(b, orow, ocol, krow, kcol)
    }
  }

  lemma ImagePositive(s: Slice)
    requires s.Valid()
    ensures s.orows <= s.orows * s.a.stride <= s.IRows() && s.ocols <= s.ocols * s.a.stride <= s.ICols()
  {
    MulMono(1, s.a.stride, s.orows);
    MulMono(1, s.a.stride, s.ocols);
  }

  /** The places in numbers: the pixels from the first row of the scratchpad, by batch, row and column of the padded
      image; the weights, by kernel row and column, so that the last one is in its last row; the outputs by batch,
      row and column. */
  lemma Places(s: Slice, b: int, row: int, col: int)
    ensures var irows, icols := s.orows * s.a.stride + s.krows - 1, s.ocols * s.a.stride + s.kcols - 1;
            s.ARow(b, row, col) == (b * irows + row) * icols + col
    ensures s.CRow(b, row, col) == (b * s.orows + row) * s.ocols + col
    ensures s.BRow(row, col) == BANK_NUM * BANK_ROWS - (s.krows * s.kcols - (row * s.kcols + col))
    ensures s.BRow(s.krows - 1, s.kcols - 1) == BANK_NUM * BANK_ROWS - 1
  {
    var irows, icols := s.orows * s.a.stride + s.krows - 1, s.ocols * s.a.stride + s.kcols - 1;
    assert (b * irows + row) * icols == b * irows * icols + row * icols;
    assert (b * s.orows + row) * s.ocols == b * s.orows * s.ocols + row * s.ocols;
    assert (s.krows - 1) * s.kcols == s.krows * s.kcols - s.kcols;
  }

  // ---- loading the input ----

  /** Pixels of the slice before row-major position n are in the scratchpad. */
  ghost predicate PixelsUpto(s: Slice, st: State, n: int) {
    forall b, row, col :: s.InImage(b, row, col) && s.ARow(b, row, col) < n ==> s.PixelLoaded(st, b, row, col)
  }

  /** The source's test for a zero move-in is exactly "outside the image". */
  lemma ZerosOutsideImage(s: Slice, row: int, col: int)
    requires s.Valid() && 0 <= row < s.IRows() && 0 <= col < s.ICols()
    ensures var irow, icol := row - s.UPad(), col - s.LPad();
            irow < 0 || irow >= s.IRows() - s.UPad() - s.DPad() || icol < 0 || icol >= s.ICols() - s.LPad() - s.RPad()
            <==> !s.a.Inside(s.IRow0() + row, s.ICol0() + col)
  {}

  /** Number of columns the move-in at (padded) column col covers. */
  function RunLength(s: Slice, col: int): int {
    var icol, unpadded := col - s.LPad(), s.ICols() - s.LPad() - s.RPad();
    if icol < 0 then Min(-icol, DIM)
    else if icol >= unpadded then Min(unpadded + s.RPad() - icol, DIM)
    else Min(unpadded - icol, DIM)
  }

  /** A move-in covers only image columns or only padding columns, so one test decides for all. */
  lemma RunIsUniform(s: Slice, row: int, col: int, r: int)
    requires s.Valid() && 0 <= row < s.IRows() && 0 <= col < s.ICols() && 0 <= r < RunLength(s, col) &&
             col + r < s.ICols()
    ensures s.a.Inside(s.IRow0() + row, s.ICol0() + col) <==> s.a.Inside(s.IRow0() + row, s.ICol0() + (col + r))
  {}

  /** Element index of pixel (row, col) in the input buffer. */
  function InputIndex(s: Slice, b: int, row: int, col: int): int {
    ((s.b0 + b) * s.a.inRows * s.a.inCols + (s.IRow0() + row) * s.a.inCols + (s.ICol0() + col)) * s.a.channels + s.ch
  }

  function RunState(s: Slice, st: State, b: int, row: int, col: int): State {
    if s.a.Inside(s.IRow0() + row, s.ICol0() + col)
    then Mvin(st, s.a.input, InputIndex(s, b, row, col), s.a.channels, s.ARow(b, row, col), 1, RunLength(s, col))
    else MvinZeros(st, s.ARow(b, row, col), 1, RunLength(s, col))
  }

  lemma RunPositive(s: Slice, col: int)
    requires s.Valid() && 0 <= col < s.ICols()
    ensures 0 < RunLength(s, col) <= DIM
  {}

  /** What a run leaves in the scratchpad. */
  lemma RunColumn(s: Slice, st: State, b: int, row: int, col: int)
    requires s.Valid() && s.InImage(b, row, col)
    ensures var n := s.ARow(b, row, col);
            forall x :: RunState(s, st, b, row, col).spad(x, 0)
                        == if !(n <= x < n + RunLength(s, col)) then st.spad(x, 0)
                           else if s.a.Inside(s.IRow0() + row, s.ICol0() + col)
                           then At(s.a.input, InputIndex(s, b, row, col) + (x - n) * s.a.channels) else 0
  {
    RunPositive(s, col);
    if s.a.Inside(s.IRow0() + row, s.ICol0() + col) {
      MvinColumn(st, s.a.input, InputIndex(s, b, row, col), s.a.channels, s.ARow(b, row, col), RunLength(s, col));
    } else {
      MvinZerosColumn(st, s.ARow(b, row, col), RunLength(s, col));
    }
  }

  /** Neighbouring pixels of a row are a pixel apart in the buffer and a row apart in the scratchpad. */
  lemma NextPixels(s: Slice, b: int, row: int, col: int, r: int)
    ensures InputIndex(s, b, row, col + r) == InputIndex(s, b, row, col) + r * s.a.channels
    ensures s.ARow(b, row, col + r) == s.ARow(b, row, col) + r
  {
    var base := (s.b0 + b) * s.a.inRows * s.a.inCols + (s.IRow0() + row) * s.a.inCols + (s.ICol0() + col);
    assert (base + r) * s.a.channels == base * s.a.channels + r * s.a.channels;
  }

  /** A pixel of the image is the input element at its index. */
  lemma PixelIsInput(s: Slice, b: int, row: int, col: int)
    requires s.Valid()
    ensures s.a.Pixel(s.b0 + b, s.IRow0() + row, s.ICol0() + col, s.ch)
         == if s.a.Inside(s.IRow0() + row, s.ICol0() + col) then At(s.a.input, InputIndex(s, b, row, col)) else 0
  {}

  lemma RunLoadsPixel(s: Slice, st: State, b: int, row: int, col: int, r: int)
    requires s.Valid() && s.InImage(b, row, col) && 0 <= r < RunLength(s, col) && col + r < s.ICols()
    ensures s.PixelLoaded(RunState(s, st, b, row, col), b, row, col + r)
  {
    RunIsUniform(s, row, col, r);
    RunColumn(s, st, b, row, col);
    NextPixels(s, b, row, col, r);
    PixelIsInput(s, b, row, col + r);
  }

  lemma RunAdvances(s: Slice, st: State, b: int, row: int, col: int)
    requires s.Valid() && s.InImage(b, row, col) && PixelsUpto(s, st, s.ARow(b, row, col))
    ensures PixelsUpto(s, RunState(s, st, b, row, col), s.ARow(b, row, Min(col + RunLength(s, col), s.ICols())))
  {
    var st', n := RunState(s, st, b, row, col), s.ARow(b, row, Min(col + RunLength(s, col), s.ICols()));
    RunColumn(s, st, b, row, col);
    forall b', row', col' | s.InImage(b', row', col') && s.ARow(b', row', col') < n
      ensures s.PixelLoaded(st', b', row', col')
    {
      if s.ARow(b', row', col') < s.ARow(b, row, col) {
        assert s.PixelLoaded(st, b', row', col');
      } else {
        var r := s.ARow(b', row', col') - s.ARow(b, row, col);
        Flat3Injective(s.IRows(), s.ICols(), b', row', col', b, row, col + r);
        RunLoadsPixel(s, st, b, row, col, r);
      }
    }
  }

  /** No move-in of image data leaves the input buffer. */
  lemma RunInBounds(s: Slice, b: int, row: int, col: int)
    requires s.Valid() && s.InImage(b, row, col) && s.a.batch * s.a.inRows * s.a.inCols * s.a.channels <= |s.a.input|
    ensures 0 < RunLength(s, col) <= DIM
    ensures s.a.Inside(s.IRow0() + row, s.ICol0() + col) ==>
              0 <= InputIndex(s, b, row, col)
              && InputIndex(s, b, row, col) + (RunLength(s, col) - 1) * s.a.channels < |s.a.input|
  {
    if s.a.Inside(s.IRow0() + row, s.ICol0() + col) {
      var n, last := s.a.batch * s.a.inRows * s.a.inCols, RunLength(s, col) - 1;
      var x := (s.b0 + b) * s.a.inRows * s.a.inCols + (s.IRow0() + row) * s.a.inCols + (s.ICol0() + col);
      Flat3Bound(s.a.batch, s.a.inRows, s.a.inCols, s.b0 + b, s.IRow0() + row, s.ICol0() + col);
      Flat3Bound(s.a.batch, s.a.inRows, s.a.inCols, s.b0 + b, s.IRow0() + row, s.ICol0() + col + last);
      RowMajorBound(n, s.a.channels, x, s.ch);
      RowMajorBound(n, s.a.channels, x + last, s.ch);
      assert (x + last) * s.a.channels == x * s.a.channels + last * s.a.channels;
    }
  }

  /** A repeating bias: its elements are loaded with row stride 0. */
  predicate BiasFeeds(dev: Gemmini, s: Slice) {
    s.a.bias.Some? ==> dev.mem.d == s.a.bias.value && s.a.channels <= |dev.mem.d| && dev.mem.strideD == 0
  }

  /** The device holds the operands of the slice, they are as long as their shapes say, and it is set up
      for the strides of the convolution. */
  predicate Feeds(dev: Gemmini, s: Slice) {
    && dev.mem.a == s.a.input && dev.mem.b == s.a.weights && BiasFeeds(dev, s)
    && s.a.batch * s.a.inRows * s.a.inCols * s.a.channels <= |dev.mem.a|
    && s.a.channels * s.a.kernel * s.a.kernel <= |dev.mem.b|
    && StoresFit(dev, s) && dev.mem.strideA == s.a.channels && dev.mem.settings == ConvSettings(s.a.stride)
  }

  predicate StoresFit(dev: Gemmini, s: Slice) {
    s.a.batch * s.a.outRows * s.a.outCols * s.a.channels <= dev.mem.lenC && dev.mem.strideC == s.a.channels
  }

  /** Pointer arithmetic: an offset from the slice's first pixel is an index into the whole input. */
  lemma SliceIndex(b0: int, b: int, row0: int, row: int, col0: int, col: int, rows: int, cols: int, channels: int,
                   ch: int)
    ensures (b0 * rows * cols + row0 * cols + col0) * channels + ch + (b * rows * cols + row * cols + col) * channels
         == ((b0 + b) * rows * cols + (row0 + row) * cols + (col0 + col)) * channels + ch
  {
    var x, y := b0 * rows * cols + row0 * cols + col0, b * rows * cols + row * cols + col;
    assert (b0 + b) * rows * cols == b0 * rows * cols + b * rows * cols;
    assert (row0 + row) * cols == row0 * cols + row * cols;
    assert (x + y) * channels == x * channels + y * channels;
  }

  /** First pixel of the slice that lies in the image, as the driver passes it. */
  function InputPointer(s: Slice): int {
    (s.b0 * s.a.inRows * s.a.inCols + (s.IRow0() + s.UPad()) * s.a.inCols + (s.ICol0() + s.LPad())) * s.a.channels
      + s.ch
  }

  /** One move-in of the input loop. */
  method LoadRun(dev: Gemmini, s: Slice, b: nat, irow: int, icol: int) returns (run: int)
    requires s.Valid() && s.Fits() && Feeds(dev, s) && s.InImage(b, irow + s.UPad(), icol + s.LPad())
    modifies dev
    ensures dev.st == RunState(s, old(dev.st), b, irow + s.UPad(), icol + s.LPad())
    ensures run == RunLength(s, icol + s.LPad()) && 0 < run
  {
    var lpad, rpad := s.LPad(), s.RPad();
    var irowsUnpadded, icolsUnpadded := s.IRows() - s.UPad() - s.DPad(), s.ICols() - lpad - rpad;
    var row, col := irow + s.UPad(), icol + lpad;
    RunInBounds(s, b, row, col);
    run := if icol < 0 then Min(-icol, DIM)
           else if icol >= icolsUnpadded then Min(icolsUnpadded + rpad - icol, DIM)
           else Min(icolsUnpadded - icol, DIM);
    var isZeros := irow < 0 || irow >= irowsUnpadded || icol < 0 || icol >= icolsUnpadded;
    ZerosOutsideImage(s, row, col);
    Flat3Bound(s.batches, s.IRows(), s.ICols(), b, row, col);
    MulMono(0, s.krows, s.kcols);
    var base := InputPointer(s) + (b * s.a.inRows * s.a.inCols + irow * s.a.inCols + icol) * s.a.channels;
    assert base == InputIndex(s, b, row, col) by {
      SliceIndex(s.b0, b, s.IRow0() + s.UPad(), irow, s.ICol0() + lpad, icol, s.a.inRows, s.a.inCols, s.a.channels,
                 s.ch);
    }
    OneBlock();
    if isZeros {
      dev.MoveInZeros(s.ARow(b, row, col), 1, run);
    } else {
      dev.MoveInA(base, s.ARow(b, row, col), 1, run);
    }
  }

  /** One row of the slice, in runs of at most DIM columns. */
  method LoadImageRow(dev: Gemmini, s: Slice, b: nat, irow: int)
    requires s.Valid() && s.Fits() && Feeds(dev, s) && b < s.batches && 0 <= irow + s.UPad() < s.IRows()
    requires PixelsUpto(s, dev.st, s.ARow(b, irow + s.UPad(), 0))
    modifies dev
    ensures dev.st == old(dev.st).(spad := dev.st.spad)
    ensures PixelsUpto(s, dev.st, s.ARow(b, irow + s.UPad(), s.ICols()))
  {
    var lpad, rpad := s.LPad(), s.RPad();
    var icolsUnpadded := s.ICols() - lpad - rpad;
    ghost var row := irow + s.UPad();
    var icol := -lpad;
    ImagePositive(s);
    while icol < icolsUnpadded + rpad
      invariant 0 <= icol + lpad
      invariant dev.st == old(dev.st).(spad := dev.st.spad)
      invariant PixelsUpto(s, dev.st, s.ARow(b, row, Min(icol + lpad, s.ICols())))
      decreases s.ICols() - icol
    {
      RunAdvances(s, dev.st, b, row, icol + lpad);
      var run := LoadRun(dev, s, b, irow, icol);
      icol := icol + run;
    }
  }

  method LoadInput(dev: Gemmini, s: Slice)
    requires s.Valid() && s.Fits() && Feeds(dev, s)
    modifies dev
    ensures dev.st == old(dev.st).(spad := dev.st.spad)
    ensures forall b, row, col :: s.InImage(b, row, col) ==> s.PixelLoaded(dev.st, b, row, col)
  {
    ghost var area := s.IRows() * s.ICols();
    ImagePositive(s);
    FirstPixel(s, dev.st);
    for b := 0 to s.batches
      invariant dev.st == old(dev.st).(spad := dev.st.spad)
      invariant PixelsUpto(s, dev.st, s.ARow(b, 0, 0))
    {
      var irow := -s.UPad();
      while irow < s.IRows() - s.UPad() - s.DPad() + s.DPad()
        invariant 0 <= irow + s.UPad() <= s.IRows()
        invariant dev.st == old(dev.st).(spad := dev.st.spad)
        invariant PixelsUpto(s, dev.st, s.ARow(b, irow + s.UPad(), 0))
      {
        LoadImageRow(dev, s, b, irow);
        NextImageRow(s, b, irow + s.UPad());
        irow := irow + 1;
      }
      NextImage(s, b);
    }
    forall b, row, col | s.InImage(b, row, col)
      ensures s.PixelLoaded(dev.st, b, row, col)
    {
      Flat3Bound(s.batches, s.IRows(), s.ICols(), b, row, col);
    }
  }

  lemma FirstPixel(s: Slice, st: State)
    requires s.Valid()
    ensures PixelsUpto(s, st, s.ARow(0, 0, 0))
  {
    forall b, row, col | s.InImage(b, row, col) ensures s.ARow(b, row, col) >= 0 {
      Flat3Bound(s.batches, s.IRows(), s.ICols(), b, row, col);
    }
  }

  lemma NextImageRow(s: Slice, b: int, row: int)
    ensures s.ARow(b, row, s.ICols()) == s.ARow(b, row + 1, 0)
  {}

  lemma NextImage(s: Slice, b: int)
    ensures s.ARow(b, s.IRows(), 0) == s.ARow(b + 1, 0, 0)
  {
    assert (b + 1) * s.IRows() * s.ICols() == b * s.IRows() * s.ICols() + s.IRows() * s.ICols();
  }

  // ---- loading the weights ----

  ghost predicate AllPixels(s: Slice, st: State) {
    forall b, row, col :: s.InImage(b, row, col) ==> s.PixelLoaded(st, b, row, col)
  }

  ghost predicate WeightsUpto(s: Slice, st: State, n: int) {
    forall krow, kcol :: s.InKernel(krow, kcol) && krow * s.kcols + kcol < n ==> s.WeightLoaded(st, krow, kcol)
  }

  /** A loaded weight changes one scratchpad row, which is not a pixel's. */
  lemma PixelsKept(s: Slice, st: State, st': State, krow: int, kcol: int)
    requires s.Valid() && s.Fits() && s.InKernel(krow, kcol) && AllPixels(s, st)
    requires forall x :: x != s.BRow(krow, kcol) ==> st'.spad(x, 0) == st.spad(x, 0)
    ensures AllPixels(s, st')
  {
    RowMajorBound(s.krows, s.kcols, krow, kcol);
    forall b, row, col | s.InImage(b, row, col)
      ensures s.PixelLoaded(st', b, row, col)
    {
      Flat3Bound(s.batches, s.IRows(), s.ICols(), b, row, col);
      assert s.PixelLoaded(st, b, row, col);
    }
  }

  lemma WeightsGrow(s: Slice, st: State, st': State, krow: int, kcol: int)
    requires s.InKernel(krow, kcol) && WeightsUpto(s, st, krow * s.kcols + kcol) && s.WeightLoaded(st', krow, kcol)
    requires forall x :: x != s.BRow(krow, kcol) ==> st'.spad(x, 0) == st.spad(x, 0)
    ensures WeightsUpto(s, st', krow * s.kcols + kcol + 1)
  {
    forall krow', kcol' | s.InKernel(krow', kcol') && krow' * s.kcols + kcol' < krow * s.kcols + kcol + 1
      ensures s.WeightLoaded(st', krow', kcol')
    {
      if krow' * s.kcols + kcol' == krow * s.kcols + kcol {
        RowMajorInjective(s.kcols, krow', kcol', krow, kcol);
      } else {
        assert s.WeightLoaded(st, krow', kcol');
      }
    }
  }

  lemma WeightPointer(ch: int, kernel: int, krow0: int, kcol0: int, krow: int, kcol: int)
    ensures (ch * kernel + krow0) * kernel + kcol0 + (krow * kernel + kcol)
            == (ch * kernel + (krow0 + krow)) * kernel + (kcol0 + kcol)
  {
    assert (ch * kernel + (krow0 + krow)) * kernel == (ch * kernel + krow0) * kernel + krow * kernel;
  }

  method LoadWeight(dev: Gemmini, s: Slice, krow: nat, kcol: nat)
    requires s.Valid() && s.Fits() && Feeds(dev, s) && s.InKernel(krow, kcol)
    modifies dev
    ensures dev.st == old(dev.st).(spad := dev.st.spad) && s.WeightLoaded(dev.st, krow, kcol)
    ensures forall x :: x != s.BRow(krow, kcol) ==> dev.st.spad(x, 0) == old(dev.st).spad(x, 0)
  {
    ghost var st := dev.st;
    var weights := (s.ch * s.a.kernel + s.krow0) * s.a.kernel + s.kcol0;
    var base, sp := weights + (krow * s.a.kernel + kcol), s.BRow(krow, kcol);
    WeightLegal(dev, s, krow, kcol);
    WeightPointer(s.ch, s.a.kernel, s.krow0, s.kcol0, krow, kcol);
    OneBlock();
    dev.MoveInB(base, sp, 1, 1);
    MvinColumn(st, s.a.weights, base, dev.mem.strideB, sp, 1);
    assert base + (sp - sp) * dev.mem.strideB == base;
  }

  method LoadWeights(dev: Gemmini, s: Slice)
    requires s.Valid() && s.Fits() && Feeds(dev, s) && AllPixels(s, dev.st)
    modifies dev
    ensures dev.st == old(dev.st).(spad := dev.st.spad)
    ensures AllPixels(s, dev.st)
    ensures forall krow, kcol :: s.InKernel(krow, kcol) ==> s.WeightLoaded(dev.st, krow, kcol)
  {
    FirstWeight(s, dev.st);
    for krow := 0 to s.krows
      invariant dev.st == old(dev.st).(spad := dev.st.spad)
      invariant AllPixels(s, dev.st) && WeightsUpto(s, dev.st, krow * s.kcols)
    {
      for kcol := 0 to s.kcols
        invariant dev.st == old(dev.st).(spad := dev.st.spad)
        invariant AllPixels(s, dev.st) && WeightsUpto(s, dev.st, krow * s.kcols + kcol)
      {
        ghost var st := dev.st;
        LoadWeight(dev, s, krow, kcol);
        PixelsKept(s, st, dev.st, krow, kcol);
        WeightsGrow(s, st, dev.st, krow, kcol);
      }
      assert krow * s.kcols + s.kcols == (krow + 1) * s.kcols;
    }
    forall krow, kcol | s.InKernel(krow, kcol)
      ensures s.WeightLoaded(dev.st, krow, kcol)
    {
      RowMajorBound(s.krows, s.kcols, krow, kcol);
    }
  }

  lemma FirstWeight(s: Slice, st: State)
    ensures WeightsUpto(s, st, 0)
  {
    forall krow, kcol | s.InKernel(krow, kcol) ensures krow * s.kcols + kcol >= 0 {
      RowMajorBound(s.krows, s.kcols, krow, kcol);
    }
  }

  lemma WeightLegal(dev: Gemmini, s: Slice, krow: int, kcol: int)
    requires s.Valid() && s.Fits() && Feeds(dev, s) && s.InKernel(krow, kcol)
    ensures 0 <= s.BRow(krow, kcol) < SPAD_ROWS
    ensures 0 <= (s.ch * s.a.kernel + s.krow0) * s.a.kernel + s.kcol0 + (krow * s.a.kernel + kcol) < |dev.mem.b|
  {
    RowMajorBound(s.krows, s.kcols, krow, kcol);
    ImagePositive(s);
    Flat3Bound(s.batches, s.IRows(), s.ICols(), 0, 0, 0);
    WeightPointer(s.ch, s.a.kernel, s.krow0, s.kcol0, krow, kcol);
    RowMajorBound(s.a.channels, s.a.kernel, s.ch, s.krow0 + krow);
    RowMajorBound(s.a.channels * s.a.kernel, s.a.kernel, s.ch * s.a.kernel + (s.krow0 + krow), s.kcol0 + kcol);
  }

  // ---- the bias ----

  function TileSize(s: Slice): int { s.batches * s.orows * s.ocols }

  /** The accumulator is the same outside the rows of the tile. */
  ghost predicate OutsideTileSame(s: Slice, st: State, st': State, base: int) {
    forall row :: row < base || base + TileSize(s) <= row ==> st'.acc(row, 0) == st.acc(row, 0)
  }

  predicate BiasAt(s: Slice, st: State, base: int, b: int, orow: int, ocol: int) {
    st.acc(base + s.CRow(b, orow, ocol), 0) == s.a.Bias(s.ch)
  }

  ghost predicate BiasUpto(s: Slice, st: State, base: int, n: int) {
    forall b, orow, ocol :: s.InTile(b, orow, ocol) && s.CRow(b, orow, ocol) < n ==> BiasAt(s, st, base, b, orow, ocol)
  }

  /** Runs of tile columns are contiguous accumulator rows inside the tile. */
  lemma TileRun(s: Slice, b: int, orow: int, ocol: int)
    requires s.InTile(b, orow, ocol)
    ensures 0 <= s.CRow(b, orow, ocol) && s.CRow(b, orow, ocol) + Min(DIM, s.ocols - ocol) <= TileSize(s)
  {
    Flat3Bound(s.batches, s.orows, s.ocols, b, orow, ocol);
    Flat3Bound(s.batches, s.orows, s.ocols, b, orow, ocol + Min(DIM, s.ocols - ocol) - 1);
  }

  lemma BiasRun(s: Slice, st: State, st': State, base: int, b: int, orow: int, ocol: int, rows: int)
    requires s.InTile(b, orow, ocol) && rows == Min(DIM, s.ocols - ocol) && BiasUpto(s, st, base, s.CRow(b, orow, ocol))
    requires forall row ::
               st'.acc(row, 0) == if base + s.CRow(b, orow, ocol) <= row < base + s.CRow(b, orow, ocol) + rows
                                  then s.a.Bias(s.ch) else st.acc(row, 0)
    ensures BiasUpto(s, st', base, s.CRow(b, orow, ocol + rows)) && OutsideTileSame(s, st, st', base)
  {
    TileRun(s, b, orow, ocol);
    var n := s.CRow(b, orow, ocol + rows);
    forall b', r', c' | s.InTile(b', r', c') && s.CRow(b', r', c') < n
      ensures BiasAt(s, st', base, b', r', c')
    {
      if s.CRow(b', r', c') < s.CRow(b, orow, ocol) {
        assert BiasAt(s, st, base, b', r', c');
      }
    }
  }

  /** A move-in of the bias, or of zeros where the bias is NULL, into accumulator rows. */
  method MoveInBias(dev: Gemmini, s: Slice, row: nat, rows: nat)
    requires s.ch < s.a.channels && BiasFeeds(dev, s) && 0 < rows <= DIM && row + rows <= ACC_ROWS
    modifies dev
    ensures dev.st == old(dev.st).(acc := dev.st.acc)
    ensures forall x :: dev.st.acc(x, 0) == if row <= x < row + rows then s.a.Bias(s.ch) else old(dev.st).acc(x, 0)
  {
    ghost var st := dev.st;
    Addresses(row);
    OneBlock();
    if s.a.bias.None? {
      dev.MoveInAccZeros(BiasAddress(row), 1, rows);
      MvinAccZerosColumn(st, row, rows);
    } else {
      dev.MoveInAcc(s.ch, BiasAddress(row), 1, rows);
      MvinAccColumn(st, s.a.bias.value, s.ch, row, rows);
    }
  }

  /** One run of at most DIM tile columns. */
  method LoadBiasRun(dev: Gemmini, s: Slice, base: nat, b: nat, orow: nat, ocol: nat) returns (rows: nat)
    requires s.ch < s.a.channels && BiasFeeds(dev, s) && base + TileSize(s) <= ACC_ROWS && s.InTile(b, orow, ocol)
    requires BiasUpto(s, dev.st, base, s.CRow(b, orow, ocol))
    modifies dev
    ensures dev.st == old(dev.st).(acc := dev.st.acc) && rows == Min(DIM, s.ocols - ocol)
    ensures OutsideTileSame(s, old(dev.st), dev.st, base) && BiasUpto(s, dev.st, base, s.CRow(b, orow, ocol + rows))
  {
    ghost var st := dev.st;
    rows := if s.ocols - ocol > DIM then DIM else s.ocols - ocol;
    TileRun(s, b, orow, ocol);
    MoveInBias(dev, s, base + s.CRow(b, orow, ocol), rows);
    BiasRun(s, st, dev.st, base, b, orow, ocol, rows);
  }

  lemma OutsideTileTwice(s: Slice, st0: State, st1: State, st: State, base: int)
    requires OutsideTileSame(s, st0, st1, base) && OutsideTileSame(s, st1, st, base)
    ensures OutsideTileSame(s, st0, st, base)
  {}

  /** One row of the tile. */
  method LoadBiasRow(dev: Gemmini, s: Slice, base: nat, b: nat, orow: nat)
    requires s.ch < s.a.channels && BiasFeeds(dev, s) && base + TileSize(s) <= ACC_ROWS && b < s.batches &&
             orow < s.orows
    requires BiasUpto(s, dev.st, base, s.CRow(b, orow, 0))
    modifies dev
    ensures dev.st == old(dev.st).(acc := dev.st.acc)
    ensures OutsideTileSame(s, old(dev.st), dev.st, base) && BiasUpto(s, dev.st, base, s.CRow(b, orow + 1, 0))
  {
    ghost var s0 := dev.st;
    var ocol := 0;
    while ocol < s.ocols
      invariant 0 <= ocol <= s.ocols
      invariant dev.st == s0.(acc := dev.st.acc)
      invariant OutsideTileSame(s, s0, dev.st, base) && BiasUpto(s, dev.st, base, s.CRow(b, orow, ocol))
    {
      ghost var st := dev.st;
      var rows := LoadBiasRun(dev, s, base, b, orow, ocol);
      OutsideTileTwice(s, s0, st, dev.st, base);
      ocol := ocol + rows;
    }
    RowEnd(s, b, orow);
  }

  method LoadBias(dev: Gemmini, s: Slice, base: nat)
    requires s.Valid() && s.Fits() && Feeds(dev, s) && base + TileSize(s) <= ACC_ROWS
    modifies dev
    ensures dev.st == old(dev.st).(acc := dev.st.acc)
    ensures OutsideTileSame(s, old(dev.st), dev.st, base)
    ensures forall b, orow, ocol :: s.InTile(b, orow, ocol) ==> BiasAt(s, dev.st, base, b, orow, ocol)
  {
    FirstBias(s, dev.st, base);
    for b := 0 to s.batches
      invariant dev.st == old(dev.st).(acc := dev.st.acc)
      invariant OutsideTileSame(s, old(dev.st), dev.st, base) && BiasUpto(s, dev.st, base, s.CRow(b, 0, 0))
    {
      for orow := 0 to s.orows
        invariant dev.st == old(dev.st).(acc := dev.st.acc)
        invariant OutsideTileSame(s, old(dev.st), dev.st, base) && BiasUpto(s, dev.st, base, s.CRow(b, orow, 0))
      {
        LoadBiasRow(dev, s, base, b, orow);
      }
      NextTileImage(s, b);
    }
    forall b, orow, ocol | s.InTile(b, orow, ocol)
      ensures BiasAt(s, dev.st, base, b, orow, ocol)
    {
      Flat3Bound(s.batches, s.orows, s.ocols, b, orow, ocol);
    }
  }

  lemma NextTileImage(s: Slice, b: int)
    ensures s.CRow(b, s.orows, 0) == s.CRow(b + 1, 0, 0)
  {
    assert (b + 1) * s.orows * s.ocols == b * s.orows * s.ocols + s.orows * s.ocols;
  }

  lemma FirstBias(s: Slice, st: State, base: int)
    ensures BiasUpto(s, st, base, s.CRow(0, 0, 0))
  {
    forall b, orow, ocol | s.InTile(b, orow, ocol) ensures s.CRow(b, orow, ocol) >= 0 {
      Flat3Bound(s.batches, s.orows, s.ocols, b, orow, ocol);
    }
  }

  // ---- the multiplies ----

  /** The active weights are those of kernel row krow from column kcol on. */
  ghost predicate ActiveWeights(s: Slice, st: State, krow: int, kcol: int, pixels: int) {
    forall p :: 0 <= p < pixels ==> ActiveAt(s, st, krow, kcol, p)
  }

  predicate ActiveAt(s: Slice, st: State, krow: int, kcol: int, p: int) {
    st.active(0, p) == s.a.Weight(s.ch, s.krow0 + krow, s.kcol0 + (kcol + p))
  }

  lemma {:induction false} RowSumSplit(a: Args, b: int, orow: int, ocol: int, ch: int, krow: int, from: int, mid: int,
                                       until: int)
    requires from <= mid <= until
    ensures a.RowSum(b, orow, ocol, ch, krow, from, until)
         == a.RowSum(b, orow, ocol, ch, krow, from, mid) + a.RowSum(b, orow, ocol, ch, krow, mid, until)
    decreases until - mid
  {
    if mid < until {
      RowSumSplit(a, b, orow, ocol, ch, krow, from, mid, until - 1);
    }
  }

  /** The pixel an output and a kernel position need is a pixel of the slice. */
  lemma ReadsImage(s: Slice, b: int, orow: int, ocol: int, krow: int, kcol: int)
    requires s.Valid() && s.InTile(b, orow, ocol) && s.InKernel(krow, kcol)
    ensures s.InImage(b, orow * s.a.stride + krow, ocol * s.a.stride + kcol)
  {
    MulMono(0, orow, s.a.stride);
    MulMono(0, ocol, s.a.stride);
    MulMono(orow + 1, s.orows, s.a.stride);
    MulMono(ocol + 1, s.ocols, s.a.stride);
    assert (orow + 1) * s.a.stride == orow * s.a.stride + s.a.stride;
    assert (ocol + 1) * s.a.stride == ocol * s.a.stride + s.a.stride;
  }

  /** The scratchpad row that a multiply starts at for an output and a kernel position holds exactly
      the pixel the reference convolution reads there. */
  lemma TapPixel(s: Slice, st: State, b: int, orow: int, ocol: int, krow: int, kcol: int)
    requires s.Valid() && AllPixels(s, st) && s.InTile(b, orow, ocol) && s.InKernel(krow, kcol)
    ensures st.spad(s.ARow(b, orow * s.a.stride + krow, ocol * s.a.stride + kcol), 0)
         == s.a.Pixel(s.b0 + b, (s.orow0 + orow) * s.a.stride + (s.krow0 + krow) - s.a.padding,
                      (s.ocol0 + ocol) * s.a.stride + (s.kcol0 + kcol) - s.a.padding, s.ch)
  {
    ReadsImage(s, b, orow, ocol, krow, kcol);
    assert s.PixelLoaded(st, b, orow * s.a.stride + krow, ocol * s.a.stride + kcol);
    assert (s.orow0 + orow) * s.a.stride == s.orow0 * s.a.stride + orow * s.a.stride;
    assert (s.ocol0 + ocol) * s.a.stride == s.ocol0 * s.a.stride + ocol * s.a.stride;
  }

  /** A multiply row is the products of the kernel columns kcol .. kcol + k at one output. */
  lemma {:induction false} DotIsRowSum(s: Slice, st: State, b: int, orow: int, ocol: int, krow: int, kcol: int, k: nat,
                                       row: int)
    requires s.Valid() && AllPixels(s, st) && ActiveWeights(s, st, krow, kcol, k)
    requires s.InTile(b, orow, ocol) && 0 <= krow < s.krows && 0 <= kcol && kcol + k <= s.kcols
    requires row == s.ARow(b, orow * s.a.stride + krow, ocol * s.a.stride + kcol)
    ensures RowDot(st, ConvSettings(s.a.stride), row, 0, k)
         == s.a.RowSum(s.b0 + b, s.orow0 + orow, s.ocol0 + ocol, s.ch, s.krow0 + krow, s.kcol0 + kcol,
                       s.kcol0 + kcol + k)
  {
    if k != 0 {
      DotIsRowSum(s, st, b, orow, ocol, krow, kcol, k - 1, row);
      TapPixel(s, st, b, orow, ocol, krow, kcol + (k - 1));
      assert s.ARow(b, orow * s.a.stride + krow, ocol * s.a.stride + (kcol + (k - 1))) == row + (k - 1);
      assert ActiveAt(s, st, krow, kcol, k - 1);
      DotStep(st, s.a.stride, row, k, st.spad(row + (k - 1), 0), st.active(0, k - 1));
    }
  }

  lemma DotStep(st: State, stride: int, row: int, k: nat, pixel: int, weight: int)
    requires 0 < k && st.spad(row + (k - 1), 0) == pixel && st.active(0, k - 1) == weight
    ensures RowDot(st, ConvSettings(stride), row, 0, k)
            == RowDot(st, ConvSettings(stride), row, 0, k - 1) + weight * pixel
  {
    PackedElement(st, stride, row, k - 1);
  }

  /** Outputs before position n have kernel row krow up to column kcol + k, the others up to kcol. */
  ghost predicate SumsUpto(s: Slice, s0: State, st: State, base: int, krow: int, kcol: int, k: int, n: int) {
    forall b, orow, ocol :: s.InTile(b, orow, ocol) ==> SumAt(s, s0, st, base, krow, kcol, k, n, b, orow, ocol)
  }

  predicate SumAt(s: Slice, s0: State, st: State, base: int, krow: int, kcol: int, k: int, n: int, b: int, orow: int,
                  ocol: int) {
    s.Accumulated(s0, st, base, b, orow, ocol, krow, if s.CRow(b, orow, ocol) < n then kcol + k else kcol)
  }

  function MultiplyAt(s: Slice, st: State, base: int, krow: int, kcol: int, k: nat, b: int, orow: int,
                      ocol: int): State {
    Multiply(st, ConvSettings(s.a.stride), 1, k, Min(DIM, s.ocols - ocol),
             s.ARow(b, orow * s.a.stride + krow, ocol * s.a.stride + kcol),
             SumAddress(base + s.CRow(b, orow, ocol)))
  }

  lemma RowShift(s: Slice, b: int, irow: int, icol: int, d: int, orow: int, ocol: int, r: int)
    ensures s.ARow(b, irow, icol + d) == s.ARow(b, irow, icol) + d
    ensures s.CRow(b, orow, ocol + r) == s.CRow(b, orow, ocol) + r
  {}

  lemma PartialStep(s: Slice, b: int, orow: int, ocol: int, krow: int, kcol: int, k: nat)
    requires 0 <= kcol
    ensures s.Partial(b, orow, ocol, krow, kcol + k)
         == s.Partial(b, orow, ocol, krow, kcol)
            + s.a.RowSum(s.b0 + b, s.orow0 + orow, s.ocol0 + ocol, s.ch, s.krow0 + krow, s.kcol0 + kcol,
                         s.kcol0 + kcol + k)
  {
    RowSumSplit(s.a, s.b0 + b, s.orow0 + orow, s.ocol0 + ocol, s.ch, s.krow0 + krow, s.kcol0, s.kcol0 + kcol,
                s.kcol0 + kcol + k);
  }

  lemma MultiplyCell(s: Slice, s0: State, st: State, base: int, krow: int, kcol: int, k: nat, b: int, orow: int,
                     ocol: int, r: int)
    requires 0 <= base && base + TileSize(s) <= ACC_ROWS
    requires s.Valid() && AllPixels(s, st) && ActiveWeights(s, st, krow, kcol, k)
    requires s.InTile(b, orow, ocol) && 0 <= krow < s.krows && 0 <= kcol && kcol + k <= s.kcols
    requires 0 <= r < Min(DIM, s.ocols - ocol) && s.Accumulated(s0, st, base, b, orow, ocol + r, krow, kcol)
    ensures s.Accumulated(s0, MultiplyAt(s, st, base, krow, kcol, k, b, orow, ocol), base, b, orow, ocol + r, krow,
                          kcol + k)
  {
    var stride := s.a.stride;
    var irow, icol := orow * stride + krow, ocol * stride + kcol;
    var row, at := s.ARow(b, irow, icol), base + s.CRow(b, orow, ocol);
    TileRun(s, b, orow, ocol);
    RowShift(s, b, irow, icol, r * stride, orow, ocol, r);
    assert (ocol + r) * stride + kcol == icol + r * stride;
    var v := RowDot(st, ConvSettings(stride), row + r * stride, 0, k);
    assert v == s.a.RowSum(s.b0 + b, s.orow0 + orow, s.ocol0 + (ocol + r), s.ch, s.krow0 + krow, s.kcol0 + kcol,
                           s.kcol0 + kcol + k) by {
      DotIsRowSum(s, st, b, orow, ocol + r, krow, kcol, k, row + r * stride);
    }
    PartialStep(s, b, orow, ocol + r, krow, kcol, k);
    AccumulatedStep(s, s0, st, base, krow, kcol, k, b, orow, ocol, r, v);
  }

  lemma AccumulatedStep(s: Slice, s0: State, st: State, base: int, krow: int, kcol: int, k: nat,
                        b: int, orow: int, ocol: int, r: int, v: int)
    requires 0 <= r < Min(DIM, s.ocols - ocol) && s.Accumulated(s0, st, base, b, orow, ocol + r, krow, kcol)
    requires v == RowDot(st, ConvSettings(s.a.stride),
                         s.ARow(b, orow * s.a.stride + krow, ocol * s.a.stride + kcol) + r * s.a.stride, 0, k)
    requires 0 <= base + s.CRow(b, orow, ocol) < ACC_ROWS
    requires s.Partial(b, orow, ocol + r, krow, kcol + k) == s.Partial(b, orow, ocol + r, krow, kcol) + v
    ensures s.Accumulated(s0, MultiplyAt(s, st, base, krow, kcol, k, b, orow, ocol), base, b, orow, ocol + r, krow,
                          kcol + k)
  {
    RowShift(s, b, 0, 0, 0, orow, ocol, r);
    MultiplyColumn(st, s.a.stride, k, Min(DIM, s.ocols - ocol),
                   s.ARow(b, orow * s.a.stride + krow, ocol * s.a.stride + kcol),
                   base + s.CRow(b, orow, ocol));
  }

  /** A multiply changes no accumulator row but those of its run. */
  lemma MultiplyElsewhere(s: Slice, st: State, base: int, krow: int, kcol: int, k: nat, b: int, orow: int, ocol: int,
                          row: int)
    requires 0 <= base && base + TileSize(s) <= ACC_ROWS && s.InTile(b, orow, ocol)
    requires row < base + s.CRow(b, orow, ocol) || base + s.CRow(b, orow, ocol) + Min(DIM, s.ocols - ocol) <= row
    ensures MultiplyAt(s, st, base, krow, kcol, k, b, orow, ocol).acc(row, 0) == st.acc(row, 0)
  {
    TileRun(s, b, orow, ocol);
    MultiplyColumn(st, s.a.stride, k, Min(DIM, s.ocols - ocol),
                   s.ARow(b, orow * s.a.stride + krow, ocol * s.a.stride + kcol),
                   base + s.CRow(b, orow, ocol));
  }

  lemma MultiplySum(s: Slice, s0: State, st: State, st': State, base: int, krow: int, kcol: int, k: nat,
                    b: int, orow: int, ocol: int, b': int, r': int, c': int)
    requires 0 <= base && base + TileSize(s) <= ACC_ROWS
    requires s.Valid() && AllPixels(s, st) && ActiveWeights(s, st, krow, kcol, k)
    requires s.InTile(b, orow, ocol) && 0 <= krow < s.krows && 0 <= kcol && kcol + k <= s.kcols && s.InTile(b', r', c')
    requires SumAt(s, s0, st, base, krow, kcol, k, s.CRow(b, orow, ocol), b', r', c')
    requires st' == MultiplyAt(s, st, base, krow, kcol, k, b, orow, ocol)
    ensures SumAt(s, s0, st', base, krow, kcol, k, s.CRow(b, orow, ocol + Min(DIM, s.ocols - ocol)), b', r', c')
  {
    var rows, r := Min(DIM, s.ocols - ocol), s.CRow(b', r', c') - s.CRow(b, orow, ocol);
    RowShift(s, b, 0, 0, 0, orow, ocol, rows);
    if 0 <= r < rows {
      Flat3Injective(s.orows, s.ocols, b', r', c', b, orow, ocol + r);
      MultiplyCell(s, s0, st, base, krow, kcol, k, b, orow, ocol, r);
    } else {
      MultiplyElsewhere(s, st, base, krow, kcol, k, b, orow, ocol, base + s.CRow(b', r', c'));
    }
  }

  /** A multiply adds k kernel columns to its run of outputs and to no other output. */
  lemma MultiplyAdvances(s: Slice, s0: State, st: State, base: int, krow: int, kcol: int, k: nat, b: int, orow: int,
                         ocol: int)
    requires 0 <= base && base + TileSize(s) <= ACC_ROWS
    requires s.Valid() && AllPixels(s, st) && ActiveWeights(s, st, krow, kcol, k)
    requires s.InTile(b, orow, ocol) && 0 <= krow < s.krows && 0 <= kcol && kcol + k <= s.kcols
    requires SumsUpto(s, s0, st, base, krow, kcol, k, s.CRow(b, orow, ocol))
    ensures SumsUpto(s, s0, MultiplyAt(s, st, base, krow, kcol, k, b, orow, ocol), base, krow, kcol, k,
                     s.CRow(b, orow, ocol + Min(DIM, s.ocols - ocol)))
    ensures OutsideTileSame(s, st, MultiplyAt(s, st, base, krow, kcol, k, b, orow, ocol), base)
  {
    var n, st' := s.CRow(b, orow, ocol + Min(DIM, s.ocols - ocol)),
      MultiplyAt(s, st, base, krow, kcol, k, b, orow, ocol);
    forall b', r', c' | s.InTile(b', r', c')
      ensures SumAt(s, s0, st', base, krow, kcol, k, n, b', r', c')
    {
      MultiplySum(s, s0, st, st', base, krow, kcol, k, b, orow, ocol, b', r', c');
    }
    TileRun(s, b, orow, ocol);
    forall row | row < base || base + TileSize(s) <= row ensures st'.acc(row, 0) == st.acc(row, 0) {
      MultiplyElsewhere(s, st, base, krow, kcol, k, b, orow, ocol, row);
    }
  }

  ghost predicate AllWeights(s: Slice, st: State) {
    forall krow, kcol :: s.InKernel(krow, kcol) ==> s.WeightLoaded(st, krow, kcol)
  }

  /** The operands are in the scratchpad; the output buffer is as in s0. */
  ghost predicate Ready(s: Slice, s0: State, st: State, base: int) {
    && AllPixels(s, st) && AllWeights(s, st)
    && st.spad == s0.spad && st.c == s0.c && st.stores == s0.stores
    && OutsideTileSame(s, s0, st, base)
  }

  lemma WeightsBecomeActive(s: Slice, st: State, krow: int, kcol: int, k: int)
    requires AllWeights(s, st) && 0 <= krow < s.krows && 0 <= kcol && kcol + k <= s.kcols
    ensures ActiveWeights(s, Flip(Preload(st, ConvSettings(s.a.stride), 1, k, s.BRow(krow, kcol))), krow, kcol, k)
  {
    var sp := s.BRow(krow, kcol);
    var st' := Flip(Preload(st, ConvSettings(s.a.stride), 1, k, sp));
    forall p | 0 <= p < k
      ensures ActiveAt(s, st', krow, kcol, p)
    {
      WeightInRow(s, st, krow, kcol, p, sp);
      PreloadedColumn(st, s.a.stride, k, sp, p);
    }
  }

  lemma WeightInRow(s: Slice, st: State, krow: int, kcol: int, p: int, sp: int)
    requires AllWeights(s, st) && 0 <= krow < s.krows && 0 <= kcol && 0 <= p && kcol + p < s.kcols
    requires sp == s.BRow(krow, kcol)
    ensures st.spad(sp + p, 0) == s.a.Weight(s.ch, s.krow0 + krow, s.kcol0 + (kcol + p))
  {
    assert s.WeightLoaded(st, krow, kcol + p);
  }

  /** The reads of a multiply stay inside the scratchpad. */
  lemma MultiplyLegal(s: Slice, b: int, orow: int, ocol: int, krow: int, kcol: int, k: int)
    requires s.Valid() && s.Fits() && s.InTile(b, orow, ocol) && 0 <= krow < s.krows && 0 <= kcol && 0 < k &&
             kcol + k <= s.kcols
    ensures var row, rows := s.ARow(b, orow * s.a.stride + krow, ocol * s.a.stride + kcol), Min(DIM, s.ocols - ocol);
            LeftInside(ConvSettings(s.a.stride), k, rows, row)
    ensures WeightsInside(ConvSettings(s.a.stride), 1, k, s.BRow(krow, kcol))
  {
    var rows := Min(DIM, s.ocols - ocol);
    var irow, icol := orow * s.a.stride + krow, ocol * s.a.stride + kcol;
    var row := s.ARow(b, irow, icol);
    MulMono(0, s.krows, s.kcols);
    ReadsInside(s, b, orow, ocol, krow, kcol, k, rows, row);
    PackedInside(s.a.stride, k, rows, row);
    WeightsRead(s, krow, kcol, k);
  }

  lemma ReadsInside(s: Slice, b: int, orow: int, ocol: int, krow: int, kcol: int, k: int, rows: int, row: int)
    requires s.Valid() && s.InTile(b, orow, ocol) && 0 <= krow < s.krows && 0 <= kcol && 0 < k && kcol + k <= s.kcols
    requires 0 < rows <= s.ocols - ocol && row == s.ARow(b, orow * s.a.stride + krow, ocol * s.a.stride + kcol)
    ensures 0 <= row && row + (rows - 1) * s.a.stride + k <= s.batches * s.IRows() * s.ICols()
  {
    var last := ocol + rows - 1;
    var irow, icol, icolLast := orow * s.a.stride + krow, ocol * s.a.stride + kcol, last * s.a.stride + (kcol + k - 1);
    ReadsImage(s, b, orow, ocol, krow, kcol);
    ReadsImage(s, b, orow, last, krow, kcol + k - 1);
    Flat3Bound(s.batches, s.IRows(), s.ICols(), b, irow, icol);
    Flat3Bound(s.batches, s.IRows(), s.ICols(), b, irow, icolLast);
    LastPixel(ocol, rows, s.a.stride, kcol, k);
    RowShift(s, b, irow, icol, icolLast - icol, orow, ocol, 0);
  }

  lemma LastPixel(ocol: int, rows: int, stride: int, kcol: int, k: int)
    ensures (ocol + rows - 1) * stride + (kcol + k - 1) == ocol * stride + kcol + ((rows - 1) * stride + (k - 1))
  {}

  lemma WeightsRead(s: Slice, krow: int, kcol: int, k: int)
    requires 0 <= krow < s.krows && 0 <= kcol && 0 < k && kcol + k <= s.kcols && s.krows * s.kcols <= SPAD_ROWS
    ensures WeightsInside(ConvSettings(s.a.stride), 1, k, s.BRow(krow, kcol))
  {
    RowMajorBound(s.krows, s.kcols, krow, kcol);
    RowMajorBound(s.krows, s.kcols, krow, kcol + k - 1);
  }

  /** A multiply, after the weights have been made active where they are new. */
  lemma ComputeAdvances(s: Slice, s0: State, st: State, st1: State, base: int, krow: int, kcol: int, k: nat,
                        b: int, orow: int, ocol: int, newWeights: bool)
    requires 0 <= base && base + TileSize(s) <= ACC_ROWS
    requires s.Valid() && s.InTile(b, orow, ocol) && 0 <= krow < s.krows && 0 <= kcol && kcol + k <= s.kcols
    requires Ready(s, s0, st, base) && (!newWeights ==> ActiveWeights(s, st, krow, kcol, k))
    requires SumsUpto(s, s0, st, base, krow, kcol, k, s.CRow(b, orow, ocol))
    requires st1 == WithWeights(st, s.a.stride, k, s.BRow(krow, kcol), newWeights)
    ensures var st' := MultiplyAt(s, st1, base, krow, kcol, k, b, orow, ocol);
            && Ready(s, s0, st', base) && ActiveWeights(s, st', krow, kcol, k)
            && SumsUpto(s, s0, st', base, krow, kcol, k, s.CRow(b, orow, ocol + Min(DIM, s.ocols - ocol)))
  {
    var st' := MultiplyAt(s, st1, base, krow, kcol, k, b, orow, ocol);
    WeightsKeep(s, s0, st, st1, base, krow, kcol, k, s.CRow(b, orow, ocol), newWeights);
    MultiplyAdvances(s, s0, st1, base, krow, kcol, k, b, orow, ocol);
    MultiplyKeeps(s, s0, st1, st', base, krow, kcol, k);
  }

  /** Making weights active leaves the operands and the sums as they are. */
  lemma WeightsKeep(s: Slice, s0: State, st: State, st1: State, base: int, krow: int, kcol: int, k: nat, n: int,
                    newWeights: bool)
    requires 0 <= krow < s.krows && 0 <= kcol && kcol + k <= s.kcols
    requires Ready(s, s0, st, base) && (!newWeights ==> ActiveWeights(s, st, krow, kcol, k))
    requires SumsUpto(s, s0, st, base, krow, kcol, k, n)
    requires st1 == WithWeights(st, s.a.stride, k, s.BRow(krow, kcol), newWeights)
    ensures Ready(s, s0, st1, base) && ActiveWeights(s, st1, krow, kcol, k)
    ensures SumsUpto(s, s0, st1, base, krow, kcol, k, n)
  {
    if newWeights {
      WeightsBecomeActive(s, st, krow, kcol, k);
      SameLoaded(s, st, st1);
      SameSums(s, s0, st, st1, base, krow, kcol, k, n);
    }
  }

  lemma MultiplyKeeps(s: Slice, s0: State, st: State, st': State, base: int, krow: int, kcol: int, k: int)
    requires st' == st.(acc := st'.acc) && OutsideTileSame(s, st, st', base)
    ensures Ready(s, s0, st, base) ==> Ready(s, s0, st', base)
    ensures ActiveWeights(s, st, krow, kcol, k) ==> ActiveWeights(s, st', krow, kcol, k)
  {
    SameLoaded(s, st, st');
    if ActiveWeights(s, st, krow, kcol, k) {
      forall p | 0 <= p < k ensures ActiveAt(s, st', krow, kcol, p) {
        assert ActiveAt(s, st, krow, kcol, p);
      }
    }
  }

  method IssueRun(dev: Gemmini, s: Slice, base: nat, krow: nat, kcol: nat, k: nat, b: nat, orow: nat, ocol: nat,
                  newWeights: bool)
    requires dev.mem.settings == ConvSettings(s.a.stride)
    requires s.Valid() && s.Fits() && base + TileSize(s) <= ACC_ROWS && s.InTile(b, orow, ocol)
    requires krow < s.krows && 0 < k <= DIM && kcol + k <= s.kcols
    modifies dev
    ensures var st1 := WithWeights(old(dev.st), s.a.stride, k, s.BRow(krow, kcol), newWeights);
            dev.st == MultiplyAt(s, st1, base, krow, kcol, k, b, orow, ocol)
  {
    MultiplyLegal(s, b, orow, ocol, krow, kcol, k);
    TileRun(s, b, orow, ocol);
    var rows := if s.ocols - ocol > DIM then DIM else s.ocols - ocol;
    var row, at, weights := s.ARow(b, orow * s.a.stride + krow, ocol * s.a.stride + kcol), base + s.CRow(b, orow, ocol),
      s.BRow(krow, kcol);
    MultiplyRun(dev, s.a.stride, k, rows, row, at, weights, newWeights);
  }

  /** One multiply; the first of a pass preloads and flips the weights. */
  method ComputeRun(dev: Gemmini, s: Slice, base: nat, krow: nat, kcol: nat, k: nat, b: nat, orow: nat, ocol: nat,
                    newWeights: bool, ghost s0: State)
    requires dev.mem.settings == ConvSettings(s.a.stride)
    requires s.Valid() && s.Fits() && base + TileSize(s) <= ACC_ROWS && s.InTile(b, orow, ocol)
    requires krow < s.krows && 0 < k <= DIM && kcol + k <= s.kcols
    requires Ready(s, s0, dev.st, base) && (!newWeights ==> ActiveWeights(s, dev.st, krow, kcol, k))
    requires SumsUpto(s, s0, dev.st, base, krow, kcol, k, s.CRow(b, orow, ocol))
    modifies dev
    ensures Ready(s, s0, dev.st, base) && ActiveWeights(s, dev.st, krow, kcol, k)
    ensures SumsUpto(s, s0, dev.st, base, krow, kcol, k, s.CRow(b, orow, ocol + Min(DIM, s.ocols - ocol)))
  {
    ghost var st := dev.st;
    IssueRun(dev, s, base, krow, kcol, k, b, orow, ocol, newWeights);
    ComputeAdvances(s, s0, st, WithWeights(st, s.a.stride, k, s.BRow(krow, kcol), newWeights), base, krow, kcol, k, b,
                    orow, ocol, newWeights);
  }

  lemma SameLoaded(s: Slice, st: State, st': State)
    requires st'.spad == st.spad
    ensures AllPixels(s, st) ==> AllPixels(s, st')
    ensures AllWeights(s, st) ==> AllWeights(s, st')
    ensures AllPixels(s, st') ==> AllPixels(s, st)
    ensures AllWeights(s, st') ==> AllWeights(s, st)
  {
    forall b, row, col ensures s.PixelLoaded(st, b, row, col) == s.PixelLoaded(st', b, row, col) {}
    forall krow, kcol ensures s.WeightLoaded(st, krow, kcol) == s.WeightLoaded(st', krow, kcol) {}
  }

  lemma SameSums(s: Slice, s0: State, st: State, st': State, base: int, krow: int, kcol: int, k: int, n: int)
    requires st'.acc == st.acc && SumsUpto(s, s0, st, base, krow, kcol, k, n)
    ensures SumsUpto(s, s0, st', base, krow, kcol, k, n)
  {
    forall b, orow, ocol | s.InTile(b, orow, ocol)
      ensures SumAt(s, s0, st', base, krow, kcol, k, n, b, orow, ocol)
    {
      assert SumAt(s, s0, st, base, krow, kcol, k, n, b, orow, ocol);
    }
  }

  method ComputeTileRow(dev: Gemmini, s: Slice, base: nat, krow: nat, kcol: nat, k: nat, b: nat, orow: nat,
                        newWeights0: bool, ghost s0: State)
    requires dev.mem.settings == ConvSettings(s.a.stride)
    requires s.Valid() && s.Fits() && base + TileSize(s) <= ACC_ROWS && b < s.batches && orow < s.orows
    requires krow < s.krows && 0 < k <= DIM && kcol + k <= s.kcols
    requires Ready(s, s0, dev.st, base) && (!newWeights0 ==> ActiveWeights(s, dev.st, krow, kcol, k))
    requires SumsUpto(s, s0, dev.st, base, krow, kcol, k, s.CRow(b, orow, 0))
    modifies dev
    ensures Ready(s, s0, dev.st, base) && ActiveWeights(s, dev.st, krow, kcol, k)
    ensures SumsUpto(s, s0, dev.st, base, krow, kcol, k, s.CRow(b, orow + 1, 0))
  {
    var ocol, newWeights := 0, newWeights0;
    while ocol < s.ocols
      invariant 0 <= ocol <= s.ocols && (ocol == 0 ==> newWeights == newWeights0) && (0 < ocol ==> !newWeights)
      invariant Ready(s, s0, dev.st, base) && (!newWeights ==> ActiveWeights(s, dev.st, krow, kcol, k))
      invariant SumsUpto(s, s0, dev.st, base, krow, kcol, k, s.CRow(b, orow, ocol))
    {
      ComputeRun(dev, s, base, krow, kcol, k, b, orow, ocol, newWeights, s0);
      ocol := if ocol + DIM <= s.ocols then ocol + DIM else s.ocols;
      newWeights := false;
    }
    RowEnd(s, b, orow);
  }

  lemma RowEnd(s: Slice, b: int, orow: int)
    ensures s.CRow(b, orow, s.ocols) == s.CRow(b, orow + 1, 0)
  {}

  /** Every output of the tile has the kernel rows before krow, and columns before kcol of row krow. */
  ghost predicate AllAt(s: Slice, s0: State, st: State, base: int, krow: int, kcol: int) {
    forall b, orow, ocol :: s.InTile(b, orow, ocol) ==> s.Accumulated(s0, st, base, b, orow, ocol, krow, kcol)
  }

  lemma PassStart(s: Slice, s0: State, st: State, base: int, krow: int, kcol: int, k: int)
    requires AllAt(s, s0, st, base, krow, kcol)
    ensures SumsUpto(s, s0, st, base, krow, kcol, k, s.CRow(0, 0, 0))
  {
    forall b, orow, ocol | s.InTile(b, orow, ocol)
      ensures SumAt(s, s0, st, base, krow, kcol, k, 0, b, orow, ocol)
    {
      Flat3Bound(s.batches, s.orows, s.ocols, b, orow, ocol);
    }
  }

  lemma PassEnd(s: Slice, s0: State, st: State, base: int, krow: int, kcol: int, k: int)
    requires SumsUpto(s, s0, st, base, krow, kcol, k, s.CRow(s.batches, 0, 0))
    ensures AllAt(s, s0, st, base, krow, kcol + k)
  {
    var n := s.CRow(s.batches, 0, 0);
    forall b, orow, ocol | s.InTile(b, orow, ocol)
      ensures s.Accumulated(s0, st, base, b, orow, ocol, krow, kcol + k)
    {
      Flat3Bound(s.batches, s.orows, s.ocols, b, orow, ocol);
      assert SumAt(s, s0, st, base, krow, kcol, k, n, b, orow, ocol);
    }
  }

  /** All outputs of one image of the tile for one group of kernel columns. */
  method ComputeImage(dev: Gemmini, s: Slice, base: nat, krow: nat, kcol: nat, k: nat, b: nat, newWeights0: bool,
                      ghost s0: State)
    requires dev.mem.settings == ConvSettings(s.a.stride)
    requires s.Valid() && s.Fits() && base + TileSize(s) <= ACC_ROWS && b < s.batches
    requires krow < s.krows && 0 < k <= DIM && kcol + k <= s.kcols
    requires Ready(s, s0, dev.st, base) && (!newWeights0 ==> ActiveWeights(s, dev.st, krow, kcol, k))
    requires SumsUpto(s, s0, dev.st, base, krow, kcol, k, s.CRow(b, 0, 0))
    modifies dev
    ensures Ready(s, s0, dev.st, base) && ActiveWeights(s, dev.st, krow, kcol, k)
    ensures SumsUpto(s, s0, dev.st, base, krow, kcol, k, s.CRow(b, s.orows, 0))
  {
    var newWeights := newWeights0;
    for orow := 0 to s.orows
      invariant (orow == 0 ==> newWeights == newWeights0) && (0 < orow ==> !newWeights)
      invariant Ready(s, s0, dev.st, base) && (!newWeights ==> ActiveWeights(s, dev.st, krow, kcol, k))
      invariant SumsUpto(s, s0, dev.st, base, krow, kcol, k, s.CRow(b, orow, 0))
    {
      ComputeTileRow(dev, s, base, krow, kcol, k, b, orow, newWeights, s0);
      newWeights := false;
    }
  }

  /** All outputs of the tile for one group of kernel columns. */
  method ComputePass(dev: Gemmini, s: Slice, base: nat, krow: nat, kcol: nat, k: nat, ghost s0: State)
    requires dev.mem.settings == ConvSettings(s.a.stride)
    requires s.Valid() && s.Fits() && base + TileSize(s) <= ACC_ROWS
    requires krow < s.krows && 0 < k <= DIM && kcol + k <= s.kcols
    requires Ready(s, s0, dev.st, base) && AllAt(s, s0, dev.st, base, krow, kcol)
    modifies dev
    ensures Ready(s, s0, dev.st, base) && AllAt(s, s0, dev.st, base, krow, kcol + k)
  {
    var newWeights := true;
    PassStart(s, s0, dev.st, base, krow, kcol, k);
    for b := 0 to s.batches
      invariant Ready(s, s0, dev.st, base) && (!newWeights ==> ActiveWeights(s, dev.st, krow, kcol, k))
      invariant SumsUpto(s, s0, dev.st, base, krow, kcol, k, s.CRow(b, 0, 0))
    {
      ComputeImage(dev, s, base, krow, kcol, k, b, newWeights, s0);
      newWeights := false;
      NextTileImage(s, b);
    }
    PassEnd(s, s0, dev.st, base, krow, kcol, k);
  }

  lemma NextKernelRow(s: Slice, s0: State, st: State, base: int, krow: int)
    requires 0 <= krow && AllAt(s, s0, st, base, krow, s.kcols)
    ensures AllAt(s, s0, st, base, krow + 1, 0)
  {
    var next := krow + 1;
    forall b, orow, ocol | s.InTile(b, orow, ocol)
      ensures s.Accumulated(s0, st, base, b, orow, ocol, next, 0)
    {
      assert s.Accumulated(s0, st, base, b, orow, ocol, krow, s.kcols);
    }
  }

  /** The compute phase: afterwards every output has all products of the slice. */
  method Compute(dev: Gemmini, s: Slice, base: nat)
    requires dev.mem.settings == ConvSettings(s.a.stride)
    requires s.Valid() && s.Fits() && base + TileSize(s) <= ACC_ROWS && AllPixels(s, dev.st) && AllWeights(s, dev.st)
    modifies dev
    ensures Ready(s, old(dev.st), dev.st, base) && AllAt(s, old(dev.st), dev.st, base, s.krows, 0)
  {
    ghost var s0 := dev.st;
    var maxPixelsPerRow := if FIRST_LAYER_OPTIMIZATIONS then Min(DIM, s.kcols) else 1;
    for krow := 0 to s.krows
      invariant Ready(s, s0, dev.st, base) && AllAt(s, s0, dev.st, base, krow, 0)
    {
      var kcol := 0;
      while kcol < s.kcols
        invariant 0 <= kcol <= s.kcols
        invariant Ready(s, s0, dev.st, base) && AllAt(s, s0, dev.st, base, krow, kcol)
      {
        var pixels := if s.kcols - kcol > maxPixelsPerRow then maxPixelsPerRow else s.kcols - kcol;
        ComputePass(dev, s, base, krow, kcol, pixels, s0);
        kcol := kcol + pixels;
      }
      NextKernelRow(s, s0, dev.st, base, krow);
    }
  }

  // ---- the output ----

  function OutLayout(s: Slice): Layout {
    Layout(s.a.batch, s.a.outRows, s.a.outCols, s.a.channels, s.a.channels, false)
  }

  /** Buffer index of output (b, orow, ocol) of the tile. */
  function OutIndex(s: Slice, b: int, orow: int, ocol: int): int {
    OutLayout(s).Index(s.b0 + b, s.orow0 + orow, s.ocol0 + ocol, s.ch)
  }

  /** Output p of the tensor belongs to the tile and comes before output `at` of it. */
  predicate InTileBefore(s: Slice, p: Position, at: Position) {
    && p.k == s.ch && s.InTile(p.b - s.b0, p.r - s.orow0, p.c - s.ocol0)
    && Before(Pos(p.b - s.b0, p.r - s.orow0, p.c - s.ocol0, 0), at)
  }

  predicate StoredOnce(s: Slice, stage: int -> int, s0: State, st: State, base: int, p: Position) {
    var x := OutLayout(s).Index(p.b, p.r, p.c, p.k);
    st.c(x) == stage(s0.acc(base + s.CRow(p.b - s.b0, p.r - s.orow0, p.c - s.ocol0), 0)) &&
      st.stores(x) == s0.stores(x) + 1
  }

  predicate SameElement(s0: State, st: State, x: int) { st.c(x) == s0.c(x) && st.stores(x) == s0.stores(x) }

  /** Output p has been stored once, from its accumulator row, if it comes before `at`, and not touched otherwise. */
  predicate OutputAt(s: Slice, stage: int -> int, s0: State, st: State, base: int, at: Position, p: Position) {
    if InTileBefore(s, p, at) then StoredOnce(s, stage, s0, st, base, p)
    else SameElement(s0, st, OutLayout(s).Index(p.b, p.r, p.c, p.k))
  }

  /** Outputs of the tile before `at` are stored, once; the rest of the tensor and of the buffer is not touched. */
  ghost predicate StoredUpto(s: Slice, stage: int -> int, s0: State, st: State, base: int, at: Position) {
    && (forall p: Position :: OutLayout(s).Contains(p.b, p.r, p.c, p.k) ==> OutputAt(s, stage, s0, st, base, at, p))
    && OutsideTensorSame(s, s0, st)
  }

  ghost predicate OutsideTensorSame(s: Slice, s0: State, st: State) {
    forall x :: x < 0 || s.a.batch * s.a.outRows * s.a.outCols * s.a.channels <= x ==> SameElement(s0, st, x)
  }

  function RunStored(s: Slice, stage: int -> int, st: State, base: int, b: int, orow: int, ocol: int): State {
    Mvout(st, stage, OutIndex(s, b, orow, ocol), s.a.channels, SumAddress(base + s.CRow(b, orow, ocol)), 1,
          Min(DIM, s.ocols - ocol))
  }

  function OutRow(s: Slice, b: int, orow: int, ocol: int): int {
    OutLayout(s).Row(s.b0 + b, s.orow0 + orow, s.ocol0 + ocol)
  }

  lemma TouchesArithmetic(x: int, base: int, c: int, rows: int, r: int, k: int, ch: int)
    requires 0 <= k < c && 0 <= ch < c && x == base + r * c + (k - ch)
    ensures Touches(x, base, c, rows, 1) <==> k == ch && 0 <= r < rows
    ensures k == ch ==> (x - base) / c == r
  {
    if k < ch {
      assert x - base == (r - 1) * c + (k - ch + c);
      DivModUnique(x - base, c, r - 1, k - ch + c);
    } else {
      DivModUnique(x - base, c, r, k - ch);
    }
    MulMono(0, r, c);
    MulMono(r, -1, c);
  }

  /** A move-out touches exactly the outputs of its run: of this channel, image and row, in these columns. */
  lemma TouchesOutput(s: Slice, b: int, orow: int, ocol: int, rows: int, p: Position)
    requires s.Valid() && s.InTile(b, orow, ocol) && 0 < rows <= s.ocols - ocol &&
             OutLayout(s).Contains(p.b, p.r, p.c, p.k)
    ensures var x := OutLayout(s).Index(p.b, p.r, p.c, p.k);
            && (Touches(x, OutIndex(s, b, orow, ocol), s.a.channels, rows, 1) <==>
                  (p.k == s.ch && p.b == s.b0 + b && p.r == s.orow0 + orow &&
                   s.ocol0 + ocol <= p.c < s.ocol0 + ocol + rows))
            && (p.k == s.ch ==>
                  (x - OutIndex(s, b, orow, ocol)) / s.a.channels
                  == OutLayout(s).Row(p.b, p.r, p.c) - OutRow(s, b, orow, ocol))
  {
    var c, from, at := s.a.channels, OutRow(s, b, orow, ocol), OutLayout(s).Row(p.b, p.r, p.c);
    RowDistance(from, at, c, s.ch, p.k);
    TouchesArithmetic(at * c + p.k, from * c + s.ch, c, rows, at - from, p.k, s.ch);
    if 0 <= at - from < rows {
      SameRun(s, b, orow, ocol, at - from, p);
    }
  }

  lemma RowDistance(from: int, at: int, c: int, ch: int, k: int)
    ensures at * c + k == from * c + ch + (at - from) * c + (k - ch)
  {}

  lemma SameRun(s: Slice, b: int, orow: int, ocol: int, r: int, p: Position)
    requires s.Valid() && s.InTile(b, orow, ocol) && 0 <= r < s.ocols - ocol &&
             OutLayout(s).Contains(p.b, p.r, p.c, p.k)
    requires OutLayout(s).Row(p.b, p.r, p.c) == OutRow(s, b, orow, ocol) + r
    ensures p.b == s.b0 + b && p.r == s.orow0 + orow && p.c == s.ocol0 + ocol + r
  {
    Flat3Injective(s.a.outRows, s.a.outCols, p.b, p.r, p.c, s.b0 + b, s.orow0 + orow, s.ocol0 + ocol + r);
  }

  /** A move-out stays inside the tensor. */
  lemma StoreLegal(s: Slice, b: int, orow: int, ocol: int)
    requires s.Valid() && s.InTile(b, orow, ocol)
    ensures 0 <= OutIndex(s, b, orow, ocol)
    ensures OutIndex(s, b, orow, ocol) + (Min(DIM, s.ocols - ocol) - 1) * s.a.channels
         < s.a.batch * s.a.outRows * s.a.outCols * s.a.channels
  {
    var c, last, n := s.a.channels, Min(DIM, s.ocols - ocol) - 1, s.a.batch * s.a.outRows * s.a.outCols;
    Flat3Bound(s.a.batch, s.a.outRows, s.a.outCols, s.b0 + b, s.orow0 + orow, s.ocol0 + ocol);
    Flat3Bound(s.a.batch, s.a.outRows, s.a.outCols, s.b0 + b, s.orow0 + orow, s.ocol0 + ocol + last);
    RowMajorBound(n, c, OutRow(s, b, orow, ocol), s.ch);
    RowMajorBound(n, c, OutRow(s, b, orow, ocol) + last, s.ch);
    assert (OutRow(s, b, orow, ocol) + last) * c == OutRow(s, b, orow, ocol) * c + last * c;
  }

  lemma TouchedInRange(x: int, base: int, c: int, rows: int)
    requires Touches(x, base, c, rows, 1)
    ensures base <= x <= base + (rows - 1) * c
  {
    assert x - base == (x - base) / c * c + (x - base) % c;
    MulMono((x - base) / c, rows - 1, c);
  }

  /** Output p of the tensor belongs to the run of at most DIM tile columns at (b, orow, ocol). */
  predicate OfRun(s: Slice, b: int, orow: int, ocol: int, p: Position) {
    p.k == s.ch && p.b == s.b0 + b && p.r == s.orow0 + orow &&
      s.ocol0 + ocol <= p.c < s.ocol0 + ocol + Min(DIM, s.ocols - ocol)
  }

  /** A run stores its own outputs ... */
  lemma StoreHit(s: Slice, stage: int -> int, s0: State, st: State, base: int, b: int, orow: int, ocol: int,
                 p: Position)
    requires 0 <= base && base + TileSize(s) <= ACC_ROWS
    requires s.Valid() && s.InTile(b, orow, ocol) && st.acc == s0.acc && OutLayout(s).Contains(p.b, p.r, p.c, p.k)
    requires OfRun(s, b, orow, ocol, p) && SameElement(s0, st, OutLayout(s).Index(p.b, p.r, p.c, p.k))
    ensures StoredOnce(s, stage, s0, RunStored(s, stage, st, base, b, orow, ocol), base, p)
  {
    var x, from, at := OutLayout(s).Index(p.b, p.r, p.c, p.k), OutIndex(s, b, orow, ocol), base + s.CRow(b, orow, ocol);
    var row := base + s.CRow(p.b - s.b0, p.r - s.orow0, p.c - s.ocol0);
    TileRun(s, b, orow, ocol);
    RunHit(s, base, b, orow, ocol, p, x);
    MvoutHit(st, stage, from, s.a.channels, at, Min(DIM, s.ocols - ocol), x, row);
    StoredFrom(s, stage, s0, RunStored(s, stage, st, base, b, orow, ocol), base, p, x, row);
  }

  lemma StoredFrom(s: Slice, stage: int -> int, s0: State, st: State, base: int, p: Position, x: int, row: int)
    requires x == OutLayout(s).Index(p.b, p.r, p.c, p.k) &&
             row == base + s.CRow(p.b - s.b0, p.r - s.orow0, p.c - s.ocol0)
    requires st.c(x) == stage(s0.acc(row, 0)) && st.stores(x) == s0.stores(x) + 1
    ensures StoredOnce(s, stage, s0, st, base, p)
  {}

  /** An output of a run: it is touched, and its distance in the buffer is its distance in the accumulator. */
  lemma RunHit(s: Slice, base: int, b: int, orow: int, ocol: int, p: Position, x: int)
    requires s.Valid() && s.InTile(b, orow, ocol) && OutLayout(s).Contains(p.b, p.r, p.c, p.k) &&
             OfRun(s, b, orow, ocol, p)
    requires x == OutLayout(s).Index(p.b, p.r, p.c, p.k)
    ensures Touches(x, OutIndex(s, b, orow, ocol), s.a.channels, Min(DIM, s.ocols - ocol), 1)
    ensures base + s.CRow(b, orow, ocol) + (x - OutIndex(s, b, orow, ocol)) / s.a.channels
         == base + s.CRow(p.b - s.b0, p.r - s.orow0, p.c - s.ocol0)
  {
    TouchesOutput(s, b, orow, ocol, Min(DIM, s.ocols - ocol), p);
    RunOffset(s, base, b, orow, ocol, p, x);
  }

  /** ... and no other. */
  lemma StoreMiss(s: Slice, stage: int -> int, st: State, base: int, b: int, orow: int, ocol: int, p: Position)
    requires 0 <= base && base + TileSize(s) <= ACC_ROWS
    requires s.Valid() && s.InTile(b, orow, ocol) && OutLayout(s).Contains(p.b, p.r, p.c, p.k) &&
             !OfRun(s, b, orow, ocol, p)
    ensures SameElement(st, RunStored(s, stage, st, base, b, orow, ocol), OutLayout(s).Index(p.b, p.r, p.c, p.k))
  {
    var x, from, at := OutLayout(s).Index(p.b, p.r, p.c, p.k), OutIndex(s, b, orow, ocol), base + s.CRow(b, orow, ocol);
    TouchesOutput(s, b, orow, ocol, Min(DIM, s.ocols - ocol), p);
    TileRun(s, b, orow, ocol);
    MvoutColumn(st, stage, from, s.a.channels, at, Min(DIM, s.ocols - ocol), x);
  }

  lemma RunOffset(s: Slice, base: int, b: int, orow: int, ocol: int, p: Position, x: int)
    requires p.b == s.b0 + b && p.r == s.orow0 + orow && 0 < s.a.channels
    requires (x - OutIndex(s, b, orow, ocol)) / s.a.channels
             == OutLayout(s).Row(p.b, p.r, p.c) - OutRow(s, b, orow, ocol)
    ensures base + s.CRow(b, orow, ocol) + (x - OutIndex(s, b, orow, ocol)) / s.a.channels
         == base + s.CRow(p.b - s.b0, p.r - s.orow0, p.c - s.ocol0)
  {}

  /** The outputs of a run are those from its position to the next. */
  lemma RunOrder(s: Slice, b: int, orow: int, ocol: int, p: Position)
    requires s.InTile(b, orow, ocol)
    ensures InTileBefore(s, p, Pos(b, orow, ocol + Min(DIM, s.ocols - ocol), 0))
            <==> InTileBefore(s, p, Pos(b, orow, ocol, 0)) || OfRun(s, b, orow, ocol, p)
    ensures OfRun(s, b, orow, ocol, p) ==> !InTileBefore(s, p, Pos(b, orow, ocol, 0))
  {}

  lemma StoreOutput(s: Slice, stage: int -> int, s0: State, st: State, st': State, base: int, b: int, orow: int,
                    ocol: int, p: Position)
    requires 0 <= base && base + TileSize(s) <= ACC_ROWS
    requires s.Valid() && s.InTile(b, orow, ocol) && st.acc == s0.acc && OutLayout(s).Contains(p.b, p.r, p.c, p.k)
    requires OutputAt(s, stage, s0, st, base, Pos(b, orow, ocol, 0), p) &&
             st' == RunStored(s, stage, st, base, b, orow, ocol)
    ensures OutputAt(s, stage, s0, st', base, Pos(b, orow, ocol + Min(DIM, s.ocols - ocol), 0), p)
  {
    RunOrder(s, b, orow, ocol, p);
    if OfRun(s, b, orow, ocol, p) {
      StoreHit(s, stage, s0, st, base, b, orow, ocol, p);
    } else {
      StoreMiss(s, stage, st, base, b, orow, ocol, p);
    }
  }

  lemma StoreAdvances(s: Slice, stage: int -> int, s0: State, st: State, base: int, b: int, orow: int, ocol: int)
    requires 0 <= base && base + TileSize(s) <= ACC_ROWS
    requires s.Valid() && s.InTile(b, orow, ocol) && st.acc == s0.acc
    requires StoredUpto(s, stage, s0, st, base, Pos(b, orow, ocol, 0))
    ensures StoredUpto(s, stage, s0, RunStored(s, stage, st, base, b, orow, ocol), base,
                       Pos(b, orow, ocol + Min(DIM, s.ocols - ocol), 0))
  {
    var st', at := RunStored(s, stage, st, base, b, orow, ocol), Pos(b, orow, ocol + Min(DIM, s.ocols - ocol), 0);
    forall p: Position | OutLayout(s).Contains(p.b, p.r, p.c, p.k)
      ensures OutputAt(s, stage, s0, st', base, at, p)
    {
      StoreOutput(s, stage, s0, st, st', base, b, orow, ocol, p);
    }
    forall x | x < 0 || s.a.batch * s.a.outRows * s.a.outCols * s.a.channels <= x
      ensures SameElement(s0, st', x)
    {
      assert SameElement(s0, st, x);
      OutsideTensorStays(s, stage, st, base, b, orow, ocol, x);
    }
  }

  /** A move-out of a run stores nothing outside the tensor. */
  lemma OutsideTensorStays(s: Slice, stage: int -> int, st: State, base: int, b: int, orow: int, ocol: int, x: int)
    requires 0 <= base && base + TileSize(s) <= ACC_ROWS && s.Valid() && s.InTile(b, orow, ocol)
    requires x < 0 || s.a.batch * s.a.outRows * s.a.outCols * s.a.channels <= x
    ensures SameElement(st, RunStored(s, stage, st, base, b, orow, ocol), x)
  {
    StoreLegal(s, b, orow, ocol);
    TileRun(s, b, orow, ocol);
    MvoutColumn(st, stage, OutIndex(s, b, orow, ocol), s.a.channels, base + s.CRow(b, orow, ocol),
                Min(DIM, s.ocols - ocol), x);
    if Touches(x, OutIndex(s, b, orow, ocol), s.a.channels, Min(DIM, s.ocols - ocol), 1) {
      TouchedInRange(x, OutIndex(s, b, orow, ocol), s.a.channels, Min(DIM, s.ocols - ocol));
    }
  }

  /** The move-outs so far have changed nothing but the output buffer, and stored what they should. */
  ghost predicate Storing(s: Slice, stage: int -> int, s0: State, st: State, base: int, at: Position) {
    st == s0.(c := st.c, stores := st.stores) && StoredUpto(s, stage, s0, st, base, at)
  }

  method StoreRun(dev: Gemmini, s: Slice, base: nat, b: nat, orow: nat, ocol: nat) returns (rows: nat)
    requires s.Valid() && base + TileSize(s) <= ACC_ROWS && s.InTile(b, orow, ocol)
    requires StoresFit(dev, s)
    modifies dev
    ensures rows == Min(DIM, s.ocols - ocol) && dev.st == RunStored(s, dev.mem.stage, old(dev.st), base, b, orow, ocol)
  {
    rows := if s.ocols - ocol > DIM then DIM else s.ocols - ocol;
    TileRun(s, b, orow, ocol);
    StoreLegal(s, b, orow, ocol);
    OneBlock();
    Addresses(base + s.CRow(b, orow, ocol));
    dev.MoveOut(OutIndex(s, b, orow, ocol), SumAddress(base + s.CRow(b, orow, ocol)), 1, rows);
  }

  lemma Carry(s: Slice, stage: int -> int, s0: State, st: State, base: int, at: Position, next: Position)
    requires Storing(s, stage, s0, st, base, at)
    requires (at.r == s.orows && at.c == 0 && next == Pos(at.b + 1, 0, 0, 0)) ||
             (at.c == s.ocols && next == Pos(at.b, at.r + 1, 0, 0))
    requires at.k == 0
    ensures Storing(s, stage, s0, st, base, next)
  {
    forall p: Position | OutLayout(s).Contains(p.b, p.r, p.c, p.k)
      ensures OutputAt(s, stage, s0, st, base, next, p)
    {
      assert OutputAt(s, stage, s0, st, base, at, p);
    }
  }

  /** One row of the tile. */
  method StoreRow(dev: Gemmini, s: Slice, base: nat, b: nat, orow: nat, ghost s0: State)
    requires s.Valid() && base + TileSize(s) <= ACC_ROWS && b < s.batches && orow < s.orows && StoresFit(dev, s)
    requires Storing(s, dev.mem.stage, s0, dev.st, base, Pos(b, orow, 0, 0))
    modifies dev
    ensures Storing(s, dev.mem.stage, s0, dev.st, base, Pos(b, orow + 1, 0, 0))
  {
    var ocol := 0;
    while ocol < s.ocols
      invariant 0 <= ocol <= s.ocols
      invariant Storing(s, dev.mem.stage, s0, dev.st, base, Pos(b, orow, ocol, 0))
    {
      StoreAdvances(s, dev.mem.stage, s0, dev.st, base, b, orow, ocol);
      var rows := StoreRun(dev, s, base, b, orow, ocol);
      ocol := ocol + rows;
    }
    Carry(s, dev.mem.stage, s0, dev.st, base, Pos(b, orow, ocol, 0), Pos(b, orow + 1, 0, 0));
  }

  /** The move-out phase: every output of the tile once, and nothing else. */
  method StoreTile(dev: Gemmini, s: Slice, base: nat)
    requires s.Valid() && base + TileSize(s) <= ACC_ROWS && StoresFit(dev, s)
    modifies dev
    ensures Storing(s, dev.mem.stage, old(dev.st), dev.st, base, Pos(s.batches, 0, 0, 0))
  {
    ghost var s0 := dev.st;
    StoreStart(s, dev.mem.stage, s0, base);
    for b := 0 to s.batches
      invariant Storing(s, dev.mem.stage, s0, dev.st, base, Pos(b, 0, 0, 0))
    {
      for orow := 0 to s.orows
        invariant Storing(s, dev.mem.stage, s0, dev.st, base, Pos(b, orow, 0, 0))
      {
        StoreRow(dev, s, base, b, orow, s0);
      }
      Carry(s, dev.mem.stage, s0, dev.st, base, Pos(b, s.orows, 0, 0), Pos(b + 1, 0, 0, 0));
    }
  }

  lemma StoreStart(s: Slice, stage: int -> int, s0: State, base: int)
    ensures StoredUpto(s, stage, s0, s0, base, Pos(0, 0, 0, 0))
  {
    forall p: Position | OutLayout(s).Contains(p.b, p.r, p.c, p.k)
      ensures OutputAt(s, stage, s0, s0, base, Pos(0, 0, 0, 0), p)
    {}
  }

  // ---- one call of sp_tiled_conv ----

  predicate SliceAt(s: Slice, s0: State, st: State, base: int, first: bool, b: int, orow: int, ocol: int) {
    st.acc(base + s.CRow(b, orow, ocol), 0)
    == (if first then s.a.Bias(s.ch) else s0.acc(base + s.CRow(b, orow, ocol), 0))
      + s.Partial(b, orow, ocol, s.krows, 0)
  }

  /** Every accumulator row of the tile starts from the bias in the first slice, else from what it
      held, and gains the products of the slice; the rest of the accumulator is untouched. */
  ghost predicate SliceDone(s: Slice, s0: State, st: State, base: int, first: bool) {
    && (forall b, orow, ocol :: s.InTile(b, orow, ocol) ==> SliceAt(s, s0, st, base, first, b, orow, ocol))
    && OutsideTileSame(s, s0, st, base)
  }

  lemma SliceFinished(s: Slice, s0: State, s1: State, st: State, base: int, first: bool)
    requires OutsideTileSame(s, s0, s1, base) && OutsideTileSame(s, s1, st, base)
    requires if first
             then forall b, orow, ocol :: s.InTile(b, orow, ocol) ==> BiasAt(s, s1, base, b, orow, ocol)
             else s1.acc == s0.acc
    requires AllAt(s, s1, st, base, s.krows, 0)
    ensures SliceDone(s, s0, st, base, first)
  {
    forall b, orow, ocol | s.InTile(b, orow, ocol)
      ensures SliceAt(s, s0, st, base, first, b, orow, ocol)
    {
      assert s.Accumulated(s1, st, base, b, orow, ocol, s.krows, 0);
      assert first ==> BiasAt(s, s1, base, b, orow, ocol);
    }
  }

  /** The driver's state: the device and the two static accumulator offsets. */
  class Driver {
    const dev: Gemmini
    var dRow: nat
    var cRow: nat

    constructor (dev: Gemmini)
      ensures this.dev == dev && dRow == 0 && cRow == 0
    {
      this.dev, dRow, cRow := dev, 0, 0;
    }

    /** `bias` is NULL except in the first slice of a tile, `output` except in the last. */
    method SpTiledConv(s: Slice, first: bool, last: bool)
      requires s.Valid() && s.Fits() && Feeds(dev, s)
      requires dRow + ACC_ROWS / 2 <= ACC_ROWS && cRow + ACC_ROWS / 2 <= ACC_ROWS && (first ==> dRow == cRow)
      modifies this, dev
      ensures dRow == if first then (old(dRow) + ACC_ROWS / 2) % ACC_ROWS else old(dRow)
      ensures cRow == if last then (old(cRow) + ACC_ROWS / 2) % ACC_ROWS else old(cRow)
      ensures SliceDone(s, old(dev.st), dev.st, old(cRow), first)
      ensures if last then StoredUpto(s, dev.mem.stage, old(dev.st).(acc := dev.st.acc), dev.st, old(cRow),
                                      Pos(s.batches, 0, 0, 0))
              else dev.st.c == old(dev.st.c) && dev.st.stores == old(dev.st.stores)
    {
      ghost var s0 := dev.st;
      var dStart, cStart := dRow, cRow;
      if first {
        dRow := (dRow + ACC_ROWS / 2) % ACC_ROWS;
      }
      if last {
        cRow := (cRow + ACC_ROWS / 2) % ACC_ROWS;
      }
      if first {
        LoadBias(dev, s, dStart);
      }
      ghost var s1 := dev.st;
      LoadInput(dev, s);
      LoadWeights(dev, s);
      ghost var s2 := dev.st;
      Compute(dev, s, cStart);
      SliceFinished(s, s0, s1, dev.st, cStart, first) by {
        AllAtSameAcc(s, s2, s1, dev.st, cStart);
      }
      ghost var s3 := dev.st;
      if last {
        StoreTile(dev, s, cStart);
        SliceKept(s, s0, s3, dev.st, cStart, first);
        StoredRebase(s, dev.mem.stage, s3, s0.(acc := dev.st.acc), dev.st, cStart, Pos(s.batches, 0, 0, 0));
      }
    }
  }

  lemma AllAtSameAcc(s: Slice, s0: State, s1: State, st: State, base: int)
    requires s0.acc == s1.acc && AllAt(s, s0, st, base, s.krows, 0)
    ensures AllAt(s, s1, st, base, s.krows, 0)
  {
    forall b, orow, ocol | s.InTile(b, orow, ocol)
      ensures s.Accumulated(s1, st, base, b, orow, ocol, s.krows, 0)
    {
      assert s.Accumulated(s0, st, base, b, orow, ocol, s.krows, 0);
    }
  }

  lemma SliceKept(s: Slice, s0: State, st: State, st': State, base: int, first: bool)
    requires st'.acc == st.acc && SliceDone(s, s0, st, base, first)
    ensures SliceDone(s, s0, st', base, first)
  {
    forall b, orow, ocol | s.InTile(b, orow, ocol)
      ensures SliceAt(s, s0, st', base, first, b, orow, ocol)
    {
      assert SliceAt(s, s0, st, base, first, b, orow, ocol);
    }
  }

  lemma StoredRebase(s: Slice, stage: int -> int, s0: State, s1: State, st: State, base: int, at: Position)
    requires s0.acc == s1.acc && s0.c == s1.c && s0.stores == s1.stores && StoredUpto(s, stage, s0, st, base, at)
    ensures StoredUpto(s, stage, s1, st, base, at)
  {
    forall p: Position | OutLayout(s).Contains(p.b, p.r, p.c, p.k)
      ensures OutputAt(s, stage, s1, st, base, at, p)
    {
      assert OutputAt(s, stage, s0, st, base, at, p);
    }
    forall x | SameElement(s0, st, x) ensures SameElement(s1, st, x) {}
  }
}
