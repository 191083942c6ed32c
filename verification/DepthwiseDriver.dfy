/** The driver `tiled_conv_dw` without pooling: the depthwise convolution as slices over the machine. */
module DepthwiseDriver {
  import opened Params
  import opened Machine
  import opened OneChannel
  import opened Depthwise
  import opened DepthwiseTile
  import opened Tensor
  import ConvTiles
  import Rounding

  const HALF := ACC_ROWS / 2

  /** Adding a half to an offset, modulo the accumulator, selects the other half. */
  lemma OtherHalf(base: int)
    requires base == 0 || base == HALF
    ensures (base + ACC_ROWS / 2) % ACC_ROWS == HALF - base && base + ACC_ROWS / 2 <= ACC_ROWS
  {
    assert 2 * HALF == ACC_ROWS;
    DivModUnique(base + HALF, ACC_ROWS, if base == 0 then 0 else 1, HALF - base);
  }

  /** A run: the operands and the tile factors. */
  datatype Run = Run(a: Args, batches: nat, porows: nat, pocols: nat, krows: nat, kcols: nat)
  {
    /** The configuration and tile that the driver's space check is made with. */
    function Config(): ConvTiles.Config { ConvTiles.Config(a.stride, 1, 1, false, false, false, 1, 1) }
    function Tile(): ConvTiles.Tile { [batches, porows, pocols, 1, krows, kcols, 1] }

    /** The checks of the driver: the tile fits both budgets, and the kernel exceeds the padding. */
    predicate Accepted() {
      && 0 < a.stride && 0 <= a.padding < a.kernel && a.inStride == a.channels
      && 0 < batches && 0 < porows && 0 < pocols && 0 < krows && 0 < kcols
      && ConvTiles.Fits(Config(), Tile())
    }

    /** The slice of one call, each size capped by what is left. */
    function SliceOf(b: nat, porow: nat, pocol: nat, ch: nat, krow: nat, kcol: nat): Slice
      requires b < a.batch && porow < a.outRows && pocol < a.outCols && krow < a.kernel && kcol < a.kernel
    {
      Slice(a, b, porow, pocol, ch, krow, kcol,
            Min(batches, a.batch - b), Min(porows, a.outRows - porow), Min(pocols, a.outCols - pocol),
            Min(krows, a.kernel - krow), Min(kcols, a.kernel - kcol))
    }
  }

  predicate InRun(run: Run, b: nat, porow: nat, pocol: nat, ch: nat, krow: nat, kcol: nat) {
    && b < run.a.batch && porow < run.a.outRows && pocol < run.a.outCols && ch < run.a.channels
    && krow < run.a.kernel && kcol < run.a.kernel
  }

  lemma ImageRows(c: ConvTiles.Config, orows: int, krows: int)
    requires c.Valid() && c.inputDilation == 1 && c.kernelDilation == 1 && c.poolSize == 1 && c.poolStride == 1
    ensures ConvTiles.ORows(c, orows) == orows
    ensures ConvTiles.IRows(c, orows, krows) == orows * c.stride + krows - 1
  {
    var x := orows * c.stride + krows - 1;
    assert ConvTiles.ORows(c, orows) == orows;
    assert ConvTiles.CeilDiv(x, 1) == x;
    assert (c.kernelDilation - 1) * (krows - 1) == 0;
  }

  /** The row counts of the space check for one channel in, one channel out. */
  lemma RowCounts(c: ConvTiles.Config, t: ConvTiles.Tile)
    requires c == ConvTiles.Config(c.stride, 1, 1, false, false, false, 1, 1) && 0 < c.stride
    requires |t| == 7 && t[3] == 1 && t[6] == 1
    ensures ConvTiles.SpadRows(c, t)
         == t[0] * (t[1] * c.stride + t[4] - 1) * (t[2] * c.stride + t[5] - 1) + t[4] * t[5]
    ensures ConvTiles.AccRows(c, t) == t[0] * t[1] * t[2]
  {
    ImageRows(c, t[1], t[4]);
    ImageRows(c, t[2], t[5]);
    assert Blocks(1) == 1;
    assert 1 * t[5] * t[4] * 1 == t[4] * t[5];
  }

  /** Every slice passes what the space check promises, because the row counts are monotone. */
  lemma SlicesFit(run: Run, b: nat, porow: nat, pocol: nat, ch: nat, krow: nat, kcol: nat)
    requires run.Accepted() && InRun(run, b, porow, pocol, ch, krow, kcol)
    ensures run.SliceOf(b, porow, pocol, ch, krow, kcol).Valid() && run.SliceOf(b, porow, pocol, ch, krow, kcol).Fits()
  {
    var s, c := run.SliceOf(b, porow, pocol, ch, krow, kcol), run.Config();
    var left: ConvTiles.Tile :=
      [run.a.batch - b, run.a.outRows - porow, run.a.outCols - pocol, 1, run.a.kernel - krow, run.a.kernel - kcol, 1];
    var edge: ConvTiles.Tile := [s.batches, s.orows, s.ocols, 1, s.krows, s.kcols, 1];
    assert edge == ConvTiles.EdgeOf(run.Tile(), left);
    ConvTiles.EdgeTilesFit(c, run.Tile(), left);
    SliceRowCounts(s, c, edge);
  }

  lemma SliceRowCounts(s: Slice, c: ConvTiles.Config, t: ConvTiles.Tile)
    requires c == ConvTiles.Config(s.a.stride, 1, 1, false, false, false, 1, 1) && 0 < s.a.stride
    requires t == [s.batches, s.orows, s.ocols, 1, s.krows, s.kcols, 1] && ConvTiles.Fits(c, t)
    ensures s.Fits()
  {
    RowCounts(c, t);
  }

  // ---- the kernel slices of one tile ----

  lemma {:induction false} RectSplitColumns(a: Args, b: int, orow: int, ocol: int, ch: int, r0: int, r1: int, c0: int,
                                            c1: int, c2: int)
    requires c0 <= c1 <= c2
    ensures a.RectSum(b, orow, ocol, ch, r0, r1, c0, c2)
         == a.RectSum(b, orow, ocol, ch, r0, r1, c0, c1) + a.RectSum(b, orow, ocol, ch, r0, r1, c1, c2)
    decreases r1 - r0
  {
    if r0 < r1 {
      RectSplitColumns(a, b, orow, ocol, ch, r0, r1 - 1, c0, c1, c2);
      RowSumSplit(a, b, orow, ocol, ch, r1 - 1, c0, c1, c2);
    }
  }

  lemma {:induction false} RectSplitRows(a: Args, b: int, orow: int, ocol: int, ch: int, r0: int, r1: int, r2: int,
                                         c0: int, c1: int)
    requires r0 <= r1 <= r2
    ensures a.RectSum(b, orow, ocol, ch, r0, r2, c0, c1)
         == a.RectSum(b, orow, ocol, ch, r0, r1, c0, c1) + a.RectSum(b, orow, ocol, ch, r1, r2, c0, c1)
    decreases r2 - r1
  {
    if r1 < r2 {
      RectSplitRows(a, b, orow, ocol, ch, r0, r1, r2 - 1, c0, c1);
    }
  }

  lemma {:induction false} EmptyRect(a: Args, b: int, orow: int, ocol: int, ch: int, r0: int, r1: int, c: int)
    ensures a.RectSum(b, orow, ocol, ch, r0, r1, c, c) == 0
    decreases r1 - r0
  {
    if r0 < r1 {
      EmptyRect(a, b, orow, ocol, ch, r0, r1 - 1, c);
    }
  }

  /** Sum of the slices before (krow, kcol): whole kernel rows, then columns of rows krow .. krow + rows. */
  function Sliced(a: Args, b: int, orow: int, ocol: int, ch: int, krow: int, rows: int, kcol: int): int {
    a.RectSum(b, orow, ocol, ch, 0, krow, 0, a.kernel) + a.RectSum(b, orow, ocol, ch, krow, krow + rows, 0, kcol)
  }

  lemma NextSlice(s: Slice, b: int, orow: int, ocol: int)
    ensures Sliced(s.a, s.b0 + b, s.orow0 + orow, s.ocol0 + ocol, s.ch, s.krow0, s.krows, s.kcol0 + s.kcols)
         == Sliced(s.a, s.b0 + b, s.orow0 + orow, s.ocol0 + ocol, s.ch, s.krow0, s.krows, s.kcol0)
            + s.Partial(b, orow, ocol, s.krows, 0)
  {
    RectSplitColumns(s.a, s.b0 + b, s.orow0 + orow, s.ocol0 + ocol, s.ch, s.krow0, s.krow0 + s.krows, 0, s.kcol0,
                     s.kcol0 + s.kcols);
  }

  lemma NextSliceRow(a: Args, b: int, orow: int, ocol: int, ch: int, krow: int, rows: int, rows': int)
    requires 0 <= krow && 0 <= rows
    ensures Sliced(a, b, orow, ocol, ch, krow + rows, rows', 0) == Sliced(a, b, orow, ocol, ch, krow, rows, a.kernel)
    ensures krow + rows == a.kernel ==>
              Sliced(a, b, orow, ocol, ch, krow, rows, a.kernel)
                == a.RectSum(b, orow, ocol, ch, 0, a.kernel, 0, a.kernel)
    ensures Sliced(a, b, orow, ocol, ch, 0, rows, 0) == 0
  {
    RectSplitRows(a, b, orow, ocol, ch, 0, krow, krow + rows, 0, a.kernel);
    EmptyRect(a, b, orow, ocol, ch, krow + rows, krow + rows + rows', 0);
    EmptyRect(a, b, orow, ocol, ch, 0, rows, 0);
  }

  predicate TileSumAt(s: Slice, st: State, base: int, n: int, b: int, orow: int, ocol: int) {
    st.acc(base + s.CRow(b, orow, ocol), 0)
    == s.a.Bias(s.ch) + Sliced(s.a, s.b0 + b, s.orow0 + orow, s.ocol0 + ocol, s.ch, s.krow0, s.krows, n)
  }

  /** Before or after slice s: the tile's accumulator rows hold the bias and the slices up to column n. */
  ghost predicate TileSums(s: Slice, st: State, base: int, n: int) {
    forall b, orow, ocol :: s.InTile(b, orow, ocol) ==> TileSumAt(s, st, base, n, b, orow, ocol)
  }

  lemma SliceAdvances(s: Slice, s0: State, st: State, base: int, first: bool)
    requires s.Valid() && SliceDone(s, s0, st, base, first)
    requires if first then s.krow0 == 0 && s.kcol0 == 0 else TileSums(s, s0, base, s.kcol0)
    ensures TileSums(s, st, base, s.kcol0 + s.kcols)
  {
    var n := s.kcol0 + s.kcols;
    forall b, orow, ocol | s.InTile(b, orow, ocol)
      ensures TileSumAt(s, st, base, n, b, orow, ocol)
    {
      assert SliceAt(s, s0, st, base, first, b, orow, ocol);
      NextSlice(s, b, orow, ocol);
      if first {
        NextSliceRow(s.a, s.b0 + b, s.orow0 + orow, s.ocol0 + ocol, s.ch, 0, s.krows, s.krows);
      } else {
        assert TileSumAt(s, s0, base, s.kcol0, b, orow, ocol);
      }
    }
  }

  /** From the end of one row of slices to the start of the next. */
  lemma NextRowOfSlices(s: Slice, t: Slice, st: State, base: int)
    requires s.Valid() && TileSums(s, st, base, s.a.kernel)
    requires t == s.(krow0 := s.krow0 + s.krows, krows := t.krows, kcol0 := 0, kcols := t.kcols)
    ensures TileSums(t, st, base, 0)
  {
    forall b, orow, ocol | t.InTile(b, orow, ocol)
      ensures TileSumAt(t, st, base, 0, b, orow, ocol)
    {
      assert TileSumAt(s, st, base, s.a.kernel, b, orow, ocol);
      NextSliceRow(s.a, s.b0 + b, s.orow0 + orow, s.ocol0 + ocol, s.ch, s.krow0, s.krows, t.krows);
    }
  }

  // ---- one output tile ----

  /** Output p of the tensor, after the output stage. */
  predicate FinalAt(a: Args, stage: int -> int, s0: State, st: State, p: Position) {
    var x := Layout(a.batch, a.outRows, a.outCols, a.channels, a.channels, false).Index(p.b, p.r, p.c, p.k);
    st.c(x) == stage(a.Sum(p.b, p.r, p.c, p.k)) && st.stores(x) == s0.stores(x) + 1
  }

  predicate OutputOf(s: Slice, stage: int -> int, s0: State, st: State, p: Position) {
    if p.k == s.ch && s.InTile(p.b - s.b0, p.r - s.orow0, p.c - s.ocol0) then FinalAt(s.a, stage, s0, st, p)
    else SameElement(s0, st, OutLayout(s).Index(p.b, p.r, p.c, p.k))
  }

  /** The outputs of the tile are final, each stored once; no other element is touched. */
  ghost predicate TileFinal(s: Slice, stage: int -> int, s0: State, st: State) {
    && (forall p: Position :: OutLayout(s).Contains(p.b, p.r, p.c, p.k) ==> OutputOf(s, stage, s0, st, p))
    && OutsideTensorSame(s, s0, st)
  }

  lemma TileBecomesFinal(s: Slice, stage: int -> int, s0: State, s1: State, st: State, base: int)
    requires s.Valid() && s.krow0 + s.krows == s.a.kernel && TileSums(s, s1, base, s.a.kernel)
    requires s1.c == s0.c && s1.stores == s0.stores
    requires StoredUpto(s, stage, s1, st, base, Pos(s.batches, 0, 0, 0))
    ensures TileFinal(s, stage, s0, st)
  {
    forall p: Position | OutLayout(s).Contains(p.b, p.r, p.c, p.k)
      ensures OutputOf(s, stage, s0, st, p)
    {
      assert OutputAt(s, stage, s1, st, base, Pos(s.batches, 0, 0, 0), p);
      OutputBecomesFinal(s, stage, s0, s1, st, base, p);
    }
    forall x | x < 0 || s.a.batch * s.a.outRows * s.a.outCols * s.a.channels <= x
      ensures SameElement(s0, st, x)
    {
      assert SameElement(s1, st, x);
    }
  }

  lemma OutputBecomesFinal(s: Slice, stage: int -> int, s0: State, s1: State, st: State, base: int, p: Position)
    requires s.Valid() && s.krow0 + s.krows == s.a.kernel && TileSums(s, s1, base, s.a.kernel)
    requires s1.c == s0.c && s1.stores == s0.stores
    requires OutLayout(s).Contains(p.b, p.r, p.c, p.k) && OutputAt(s, stage, s1, st, base, Pos(s.batches, 0, 0, 0), p)
    ensures OutputOf(s, stage, s0, st, p)
  {
    var b, orow, ocol := p.b - s.b0, p.r - s.orow0, p.c - s.ocol0;
    if p.k == s.ch && s.InTile(b, orow, ocol) {
      FinalSum(s, s1, base, b, orow, ocol);
    }
  }

  /** After the last slice the accumulator row of an output holds its whole sum. */
  lemma FinalSum(s: Slice, st: State, base: int, b: int, orow: int, ocol: int)
    requires s.Valid() && s.krow0 + s.krows == s.a.kernel && TileSums(s, st, base, s.a.kernel) &&
             s.InTile(b, orow, ocol)
    ensures st.acc(base + s.CRow(b, orow, ocol), 0) == s.a.Sum(s.b0 + b, s.orow0 + orow, s.ocol0 + ocol, s.ch)
  {
    assert TileSumAt(s, st, base, s.a.kernel, b, orow, ocol);
    NextSliceRow(s.a, s.b0 + b, s.orow0 + orow, s.ocol0 + ocol, s.ch, s.krow0, s.krows, 0);
  }

  /** The accumulator outside the half at `base` is the same. */
  ghost predicate OtherHalfSame(s0: State, st: State, base: int) {
    forall row :: row < base || base + HALF <= row ==> st.acc(row, 0) == s0.acc(row, 0)
  }

  lemma HalfKept(s: Slice, s0: State, s1: State, st: State, base: int)
    requires s.Fits() && OtherHalfSame(s0, s1, base) && OutsideTileSame(s, s1, st, base)
    ensures OtherHalfSame(s0, st, base)
  {}

  /** All kernel slices of one output tile: they accumulate in the half where the tile's bias was
      loaded, leave the other half alone, and at the end both offsets have moved to the other half. */
  method OutputTile(driver: Driver, run: Run, b: nat, porow: nat, pocol: nat, ch: nat)
    requires run.Accepted() && InRun(run, b, porow, pocol, ch, 0, 0)
    requires Feeds(driver.dev, run.SliceOf(b, porow, pocol, ch, 0, 0))
    requires driver.dRow == driver.cRow && (driver.cRow == 0 || driver.cRow == HALF)
    modifies driver, driver.dev
    ensures driver.dRow == driver.cRow == HALF - old(driver.cRow)
    ensures OtherHalfSame(old(driver.dev.st), driver.dev.st, old(driver.cRow))
    ensures TileFinal(run.SliceOf(b, porow, pocol, ch, 0, 0), driver.dev.mem.stage, old(driver.dev.st), driver.dev.st)
  {
    ghost var s0, base := driver.dev.st, driver.cRow;
    ghost var tile := run.SliceOf(b, porow, pocol, ch, 0, 0);
    var krow := 0;
    while krow < run.a.kernel
      invariant 0 <= krow <= run.a.kernel
      invariant OtherHalfSame(s0, driver.dev.st, base)
      invariant krow < run.a.kernel ==> driver.cRow == base && driver.dRow == (if krow == 0 then base else HALF - base)
      invariant krow == 0 ==> driver.dev.st == s0
      invariant 0 < krow < run.a.kernel ==> TileSums(run.SliceOf(b, porow, pocol, ch, krow, 0), driver.dev.st, base, 0)
      invariant krow < run.a.kernel ==> driver.dev.st.c == s0.c && driver.dev.st.stores == s0.stores
      invariant krow == run.a.kernel ==>
                  driver.dRow == driver.cRow == HALF - base && TileFinal(tile, driver.dev.mem.stage, s0, driver.dev.st)
    {
      krow := SliceRow(driver, run, b, porow, pocol, ch, krow, s0, base);
    }
  }

  /** One row of kernel slices. */
  method SliceRow(driver: Driver, run: Run, b: nat, porow: nat, pocol: nat, ch: nat, krow: nat, ghost s0: State,
                  ghost base: nat)
    returns (next: nat)
    requires run.Accepted() && InRun(run, b, porow, pocol, ch, krow, 0)
    requires Feeds(driver.dev, run.SliceOf(b, porow, pocol, ch, 0, 0))
    requires base == 0 || base == HALF
    requires driver.cRow == base && driver.dRow == (if krow == 0 then base else HALF - base)
    requires OtherHalfSame(s0, driver.dev.st, base)
    requires 0 < krow ==> TileSums(run.SliceOf(b, porow, pocol, ch, krow, 0), driver.dev.st, base, 0)
    requires driver.dev.st.c == s0.c && driver.dev.st.stores == s0.stores
    modifies driver, driver.dev
    ensures next == Min(krow + run.krows, run.a.kernel)
    ensures OtherHalfSame(s0, driver.dev.st, base)
    ensures next < run.a.kernel ==>
              && driver.cRow == base && driver.dRow == HALF - base
              && TileSums(run.SliceOf(b, porow, pocol, ch, next, 0), driver.dev.st, base, 0)
              && driver.dev.st.c == s0.c && driver.dev.st.stores == s0.stores
    ensures next == run.a.kernel ==>
              && driver.dRow == driver.cRow == HALF - base
              && TileFinal(run.SliceOf(b, porow, pocol, ch, 0, 0), driver.dev.mem.stage, s0, driver.dev.st)
  {
    var kernel := run.a.kernel;
    ghost var lastRow := krow + run.krows >= kernel;
    var kcol := 0;
    while kcol < kernel
      invariant 0 <= kcol <= kernel
      invariant OtherHalfSame(s0, driver.dev.st, base)
      invariant kcol < kernel || !lastRow ==>
        && driver.cRow == base && driver.dRow == (if krow == 0 && kcol == 0 then base else HALF - base)
        && driver.dev.st.c == s0.c && driver.dev.st.stores == s0.stores
      invariant 0 < krow || 0 < kcol ==> kcol < kernel ==>
        TileSums(run.SliceOf(b, porow, pocol, ch, krow, kcol), driver.dev.st, base, kcol)
      invariant kcol == kernel && !lastRow ==>
                  TileSums(run.SliceOf(b, porow, pocol, ch, krow, 0), driver.dev.st, base, kernel)
      invariant kcol == kernel && lastRow ==>
        && driver.dRow == driver.cRow == HALF - base
        && TileFinal(run.SliceOf(b, porow, pocol, ch, 0, 0), driver.dev.mem.stage, s0, driver.dev.st)
    {
      kcol := OneSlice(driver, run, b, porow, pocol, ch, krow, kcol, s0, base);
    }
    next := krow + Min(run.krows, kernel - krow);
    if next < kernel {
      NextRowOfSlices(run.SliceOf(b, porow, pocol, ch, krow, 0), run.SliceOf(b, porow, pocol, ch, next, 0),
                      driver.dev.st, base);
    }
  }

  /** TileSums speaks of the slice's rows only, so any column start will do. */
  lemma SameRowOfSlices(s: Slice, t: Slice, st: State, base: int, n: int)
    requires t == s.(kcol0 := t.kcol0, kcols := t.kcols) && TileSums(s, st, base, n)
    ensures TileSums(t, st, base, n)
  {
    forall b, orow, ocol | t.InTile(b, orow, ocol)
      ensures TileSumAt(t, st, base, n, b, orow, ocol)
    {
      assert TileSumAt(s, st, base, n, b, orow, ocol);
    }
  }

  /** After the slice s the sums are those the next slice of the row, or the end of the row, starts from. */
  lemma SumsForNext(run: Run, s: Slice, b: nat, porow: nat, pocol: nat, ch: nat, krow: nat, next: nat, st: State,
                    base: int)
    requires run.Accepted() && InRun(run, b, porow, pocol, ch, krow, s.kcol0) &&
             s == run.SliceOf(b, porow, pocol, ch, krow, s.kcol0)
    requires TileSums(s, st, base, next)
    ensures next < run.a.kernel ==> TileSums(run.SliceOf(b, porow, pocol, ch, krow, next), st, base, next)
    ensures TileSums(run.SliceOf(b, porow, pocol, ch, krow, 0), st, base, next)
  {
    SameRowOfSlices(s, run.SliceOf(b, porow, pocol, ch, krow, 0), st, base, next);
    if next < run.a.kernel {
      SameRowOfSlices(s, run.SliceOf(b, porow, pocol, ch, krow, next), st, base, next);
    }
  }

  /** The tile and the two offsets after the slice at (krow, kcol); `next` is the column after it. */
  ghost predicate SliceResult(run: Run, b: nat, porow: nat, pocol: nat, ch: nat, krow: nat, next: nat,
                              stage: int -> int, s0: State, st: State, base: int, dRow: int, cRow: int)
    requires InRun(run, b, porow, pocol, ch, krow, 0)
  {
    && OtherHalfSame(s0, st, base)
    && (next < run.a.kernel ==> TileSums(run.SliceOf(b, porow, pocol, ch, krow, next), st, base, next))
    && (next == run.a.kernel ==> TileSums(run.SliceOf(b, porow, pocol, ch, krow, 0), st, base, next))
    && (if next < run.a.kernel || krow + run.krows < run.a.kernel
        then cRow == base && dRow == HALF - base && st.c == s0.c && st.stores == s0.stores
        else cRow == dRow == HALF - base && TileFinal(run.SliceOf(b, porow, pocol, ch, 0, 0), stage, s0, st))
  }

  method OneSlice(driver: Driver, run: Run, b: nat, porow: nat, pocol: nat, ch: nat, krow: nat, kcol: nat,
                  ghost s0: State, ghost base: nat)
    returns (next: nat)
    requires run.Accepted() && InRun(run, b, porow, pocol, ch, krow, kcol)
    requires Feeds(driver.dev, run.SliceOf(b, porow, pocol, ch, 0, 0))
    requires base == 0 || base == HALF
    requires driver.cRow == base && driver.dRow == (if krow == 0 && kcol == 0 then base else HALF - base)
    requires OtherHalfSame(s0, driver.dev.st, base)
    requires 0 < krow || 0 < kcol ==> TileSums(run.SliceOf(b, porow, pocol, ch, krow, kcol), driver.dev.st, base, kcol)
    requires driver.dev.st.c == s0.c && driver.dev.st.stores == s0.stores
    modifies driver, driver.dev
    ensures next == Min(kcol + run.kcols, run.a.kernel)
    ensures SliceResult(run, b, porow, pocol, ch, krow, next, driver.dev.mem.stage, s0, driver.dev.st, base,
                        driver.dRow, driver.cRow)
  {
    var s := run.SliceOf(b, porow, pocol, ch, krow, kcol);
    SlicesFit(run, b, porow, pocol, ch, krow, kcol);
    var first := !(krow > 0 || kcol > 0);
    var last := !(krow + run.krows < run.a.kernel || kcol + run.kcols < run.a.kernel);
    ghost var s1 := driver.dev.st;
    OtherHalf(base);
    OtherHalf(HALF - base);
    driver.SpTiledConv(s, first, last);
    next := kcol + s.kcols;
    AfterSlice(run, s, b, porow, pocol, ch, krow, next, driver.dev.mem.stage, s0, s1, driver.dev.st, base, driver.dRow,
               driver.cRow, first, last);
  }

  /** What one slice has done to the tile: s1 is the state before it, st the state after it. */
  lemma AfterSlice(run: Run, s: Slice, b: nat, porow: nat, pocol: nat, ch: nat, krow: nat, next: nat, stage: int -> int,
                   s0: State, s1: State, st: State, base: int, dRow: int, cRow: int, first: bool, last: bool)
    requires 0 <= s.kcol0 && run.Accepted() && InRun(run, b, porow, pocol, ch, krow, s.kcol0) && s.Valid() && s.Fits()
    requires s == run.SliceOf(b, porow, pocol, ch, krow, s.kcol0)
    requires next == s.kcol0 + s.kcols && (first <==> krow == 0 && s.kcol0 == 0)
    requires last <==> krow + run.krows >= run.a.kernel && s.kcol0 + run.kcols >= run.a.kernel
    requires OtherHalfSame(s0, s1, base) && (!first ==> TileSums(s, s1, base, s.kcol0))
    requires s1.c == s0.c && s1.stores == s0.stores
    requires SliceDone(s, s1, st, base, first)
    requires if last then StoredUpto(s, stage, s1.(acc := st.acc), st, base, Pos(s.batches, 0, 0, 0))
             else st.c == s1.c && st.stores == s1.stores
    requires dRow == HALF - base && cRow == if last then HALF - base else base
    ensures SliceResult(run, b, porow, pocol, ch, krow, next, stage, s0, st, base, dRow, cRow)
  {
    SliceAdvances(s, s1, st, base, first);
    HalfKept(s, s0, s1, st, base);
    SumsForNext(run, s, b, porow, pocol, ch, krow, next, st, base);
    if last {
      FinalSlice(s, run.SliceOf(b, porow, pocol, ch, 0, 0), stage, s0, s1, st, base);
    }
  }

  lemma FinalSlice(s: Slice, tile: Slice, stage: int -> int, s0: State, s1: State, st: State, base: int)
    requires s.Valid() && s.krow0 + s.krows == s.a.kernel && s.kcol0 + s.kcols == s.a.kernel
    requires tile == s.(krow0 := tile.krow0, kcol0 := tile.kcol0, krows := tile.krows, kcols := tile.kcols)
    requires TileSums(s, st, base, s.a.kernel) && s1.c == s0.c && s1.stores == s0.stores
    requires StoredUpto(s, stage, s1.(acc := st.acc), st, base, Pos(s.batches, 0, 0, 0))
    ensures TileFinal(tile, stage, s0, st)
  {
    var s2 := s1.(acc := st.acc);
    forall b, orow, ocol | s.InTile(b, orow, ocol)
      ensures TileSumAt(s, s2, base, s.a.kernel, b, orow, ocol)
    {
      assert TileSumAt(s, st, base, s.a.kernel, b, orow, ocol);
    }
    TileBecomesFinal(s, stage, s0, s2, st, base);
    forall p: Position | OutLayout(tile).Contains(p.b, p.r, p.c, p.k)
      ensures OutputOf(tile, stage, s0, st, p)
    {
      assert OutputOf(s, stage, s0, st, p);
    }
  }

  // ---- the whole run ----

  function Step(x: int, step: int, max: int): int { Min(x + step, max) }

  /** Output p belongs to a tile before (b, porow, pocol, ch). */
  predicate Reached(run: Run, b: int, porow: int, pocol: int, ch: int, p: Position) {
    || p.b < b
    || (p.b < Step(b, run.batches, run.a.batch) &&
         (p.r < porow || (p.r < Step(porow, run.porows, run.a.outRows) &&
           (p.c < pocol || (p.c < Step(pocol, run.pocols, run.a.outCols) && p.k < ch)))))
  }

  function Whole(a: Args): Layout { Layout(a.batch, a.outRows, a.outCols, a.channels, a.channels, false) }

  predicate ProgressAt(run: Run, stage: int -> int, s0: State, st: State, b: int, porow: int, pocol: int, ch: int,
                       p: Position) {
    if Reached(run, b, porow, pocol, ch, p) then FinalAt(run.a, stage, s0, st, p)
    else SameElement(s0, st, Whole(run.a).Index(p.b, p.r, p.c, p.k))
  }

  ghost predicate Progress(run: Run, stage: int -> int, s0: State, st: State, b: int, porow: int, pocol: int, ch: int) {
    && (forall p: Position :: Whole(run.a).Contains(p.b, p.r, p.c, p.k) ==>
        ProgressAt(run, stage, s0, st, b, porow, pocol, ch, p))
    && OutsideSame(run.a, s0, st)
  }

  /** Elements outside the output tensor are untouched. */
  ghost predicate OutsideSame(a: Args, s0: State, st: State) {
    forall x :: x < 0 || a.batch * a.outRows * a.outCols * a.channels <= x ==> SameElement(s0, st, x)
  }

  lemma NextTile(run: Run, stage: int -> int, s0: State, st: State, st': State, b: nat, porow: nat, pocol: nat, ch: nat)
    requires InRun(run, b, porow, pocol, ch, 0, 0) && Progress(run, stage, s0, st, b, porow, pocol, ch)
    requires TileFinal(run.SliceOf(b, porow, pocol, ch, 0, 0), stage, st, st')
    ensures Progress(run, stage, s0, st', b, porow, pocol, ch + 1)
  {
    var s, next := run.SliceOf(b, porow, pocol, ch, 0, 0), ch + 1;
    forall p: Position | Whole(run.a).Contains(p.b, p.r, p.c, p.k)
      ensures ProgressAt(run, stage, s0, st', b, porow, pocol, next, p)
    {
      assert ProgressAt(run, stage, s0, st, b, porow, pocol, ch, p);
      assert OutputOf(s, stage, st, st', p);
    }
    forall x | x < 0 || run.a.batch * run.a.outRows * run.a.outCols * run.a.channels <= x
      ensures SameElement(s0, st', x)
    {
      assert SameElement(s0, st, x) && SameElement(st, st', x);
    }
  }

  /** Moving on to the next tile column, row or batch when the inner loops are done. */
  lemma Carry(run: Run, stage: int -> int, s0: State, st: State, b: nat, porow: nat, pocol: nat, ch: nat, b': nat,
              porow': nat, pocol': nat)
    requires Progress(run, stage, s0, st, b, porow, pocol, ch)
    requires
      || (ch == run.a.channels && b' == b && porow' == porow && pocol' == Step(pocol, run.pocols, run.a.outCols) &&
          pocol < run.a.outCols)
      || (ch == 0 && pocol == run.a.outCols && b' == b && porow' == Step(porow, run.porows, run.a.outRows) &&
          pocol' == 0 && porow < run.a.outRows)
      || (ch == 0 && pocol == 0 && porow == run.a.outRows && b' == Step(b, run.batches, run.a.batch) && porow' == 0 &&
          pocol' == 0 && b < run.a.batch)
    requires 0 < run.batches && 0 < run.porows && 0 < run.pocols
    ensures Progress(run, stage, s0, st, b', porow', pocol', 0)
  {
    forall p: Position | Whole(run.a).Contains(p.b, p.r, p.c, p.k)
      ensures ProgressAt(run, stage, s0, st, b', porow', pocol', 0, p)
    {
      assert ProgressAt(run, stage, s0, st, b, porow, pocol, ch, p);
    }
  }

  /** The device holds the operands of the run and is set up for its strides. */
  predicate Operands(dev: Gemmini, a: Args) {
    && dev.mem.a == a.input && dev.mem.b == a.weights
    && (a.bias.Some? ==> dev.mem.d == a.bias.value && a.channels <= |dev.mem.d| && dev.mem.strideD == 0)
    && a.batch * a.inRows * a.inCols * a.channels <= |dev.mem.a|
    && a.channels * a.kernel * a.kernel <= |dev.mem.b|
    && a.batch * a.outRows * a.outCols * a.channels <= dev.mem.lenC
    && dev.mem.strideA == a.channels && dev.mem.strideC == a.channels && dev.mem.settings == ConvSettings(a.stride)
  }

  /** The two static offsets are equal, and select one half of the accumulator. */
  predicate Aligned(dRow: nat, cRow: nat) { dRow == cRow && (cRow == 0 || cRow == HALF) }

  /** All channels of one tile position. */
  method TileChannels(driver: Driver, run: Run, b: nat, porow: nat, pocol: nat, ghost s0: State)
    requires run.Accepted() && b < run.a.batch && porow < run.a.outRows && pocol < run.a.outCols
    requires Operands(driver.dev, run.a) && Aligned(driver.dRow, driver.cRow)
    requires Progress(run, driver.dev.mem.stage, s0, driver.dev.st, b, porow, pocol, 0)
    modifies driver, driver.dev
    ensures Aligned(driver.dRow, driver.cRow)
    ensures Progress(run, driver.dev.mem.stage, s0, driver.dev.st, b, porow, pocol, run.a.channels)
  {
    for ch := 0 to run.a.channels
      invariant Aligned(driver.dRow, driver.cRow)
      invariant Progress(run, driver.dev.mem.stage, s0, driver.dev.st, b, porow, pocol, ch)
    {
      ghost var st := driver.dev.st;
      OutputTile(driver, run, b, porow, pocol, ch);
      NextTile(run, driver.dev.mem.stage, s0, st, driver.dev.st, b, porow, pocol, ch);
    }
  }

  /** The depthwise convolution of any size: every output element is stored exactly once, with the
      sum of the reference after the output stage, and nothing else is stored. Before and after every
      tile the static offsets are aligned. */
  method Execute(driver: Driver, run: Run)
    requires run.Accepted() && Operands(driver.dev, run.a) && Aligned(driver.dRow, driver.cRow)
    modifies driver, driver.dev
    ensures Aligned(driver.dRow, driver.cRow)
    ensures forall p: Position :: Whole(run.a).Contains(p.b, p.r, p.c, p.k) ==>
              FinalAt(run.a, driver.dev.mem.stage, old(driver.dev.st), driver.dev.st, p)
    ensures OutsideSame(run.a, old(driver.dev.st), driver.dev.st)
  {
    ghost var s0, stage := driver.dev.st, driver.dev.mem.stage;
    var b := 0;
    while b < run.a.batch
      invariant 0 <= b <= run.a.batch && Aligned(driver.dRow, driver.cRow)
      invariant Progress(run, stage, s0, driver.dev.st, b, 0, 0, 0)
    {
      var porow := 0;
      while porow < run.a.outRows
        invariant 0 <= porow <= run.a.outRows && Aligned(driver.dRow, driver.cRow)
        invariant Progress(run, stage, s0, driver.dev.st, b, porow, 0, 0)
      {
        var pocol := 0;
        while pocol < run.a.outCols
          invariant 0 <= pocol <= run.a.outCols && Aligned(driver.dRow, driver.cRow)
          invariant Progress(run, stage, s0, driver.dev.st, b, porow, pocol, 0)
        {
          TileChannels(driver, run, b, porow, pocol, s0);
          Carry(run, stage, s0, driver.dev.st, b, porow, pocol, run.a.channels, b, porow,
                Step(pocol, run.pocols, run.a.outCols));
          pocol := Step(pocol, run.pocols, run.a.outCols);
        }
        Carry(run, stage, s0, driver.dev.st, b, porow, pocol, 0, b, Step(porow, run.porows, run.a.outRows), 0);
        porow := Step(porow, run.porows, run.a.outRows);
      }
      Carry(run, stage, s0, driver.dev.st, b, porow, 0, 0, Step(b, run.batches, run.a.batch), 0, 0);
      b := Step(b, run.batches, run.a.batch);
    }
    forall p: Position | Whole(run.a).Contains(p.b, p.r, p.c, p.k)
      ensures FinalAt(run.a, stage, s0, driver.dev.st, p)
    {
      assert ProgressAt(run, stage, s0, driver.dev.st, run.a.batch, 0, 0, 0, p);
    }
  }

  predicate SameOutput(a: Args, st: State, out: seq<int>, p: Position) {
    st.c(Whole(a).Index(p.b, p.r, p.c, p.k)) == At(out, Whole(a).Index(p.b, p.r, p.c, p.k))
  }

  /** Running both: every output element of the accelerator is that of the reference. */
  method RunAndCheck(driver: Driver, run: Run, act: Rounding.Activation, scale: real, gold: array<int>)
    requires run.Accepted() && Operands(driver.dev, run.a) && Aligned(driver.dRow, driver.cRow)
    requires forall x :: driver.dev.mem.stage(x) == Rounding.ScaleAndSat(x, act, scale)
    requires Whole(run.a).FitsIn(gold.Length)
    modifies driver, driver.dev, gold
    ensures forall p: Position :: Whole(run.a).Contains(p.b, p.r, p.c, p.k) ==>
              SameOutput(run.a, driver.dev.st, gold[..], p)
  {
    ghost var s0 := driver.dev.st;
    Execute(driver, run);
    ConvDwCpu(run.a, act, scale, Whole(run.a), gold);
    forall p: Position | Whole(run.a).Contains(p.b, p.r, p.c, p.k)
      ensures SameOutput(run.a, driver.dev.st, gold[..], p)
    {
      assert FinalAt(run.a, driver.dev.mem.stage, s0, driver.dev.st, p);
      assert HoldsAt(gold[..], Whole(run.a), ReferenceValues(run.a, act, scale), p);
    }
  }
}
