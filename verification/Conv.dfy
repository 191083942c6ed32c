/** The reference convolutions `conv_cpu_without_pool` and `conv_cpu`, and the pooling layer. */
module Conv {
  import opened Params
  import opened Rounding
  import opened Tensor
  import Machine

  datatype Args = Args(batch: nat, inRows: nat, inCols: nat, inCh: nat, outCh: nat, outRows: nat, outCols: nat,
                       stride: int, inputDilation: int, kernelDilation: int, padding: int, kernel: nat,
                       inStride: int, weightStride: int,
                       wrot180: bool, transInput3120: bool, transWeight1203: bool, transWeight0132: bool,
                       input: seq<int>, weights: seq<int>, bias: Option<seq<int>>, act: Activation, scale: real)
  {
    /** Position in the dilated image that output coordinate o and kernel coordinate k read. */
    function Source(o: int, k: int): int { o * stride + k * kernelDilation - padding }
    predicate Skipped(o: int, k: int)
      requires 0 < inputDilation
    { Source(o, k) % inputDilation != 0 }

    function InputIndex(b: int, row: int, col: int, kch: int): int {
      if transInput3120 then (kch * inRows * inCols + row * inCols + col) * batch + b
      else (b * inRows * inCols + row * inCols + col) * inStride + kch
    }

    function WeightIndex(krow: int, kcol: int, kch: int, och: int): int {
      var r, c := if wrot180 then kernel - krow - 1 else krow, if wrot180 then kernel - kcol - 1 else kcol;
      if transWeight1203 then (kch * kernel * kernel + r * kernel + c) * outCh + och
      else if transWeight0132 then (r * kernel * outCh + c * outCh + och) * inCh + kch
      else (r * kernel * inCh + c * inCh + kch) * weightStride + och
    }

    /** A pixel of the image, zero outside it. */
    function Pixel(b: int, row: int, col: int, kch: int): int {
      if row < 0 || row >= inRows || col < 0 || col >= inCols then 0
      else Machine.At(input, InputIndex(b, row, col, kch))
    }

    function Weight(krow: int, kcol: int, kch: int, och: int): int {
      Machine.At(weights, WeightIndex(krow, kcol, kch, och))
    }

    function Bias(och: int): int { if bias.None? then 0 else Machine.At(bias.value, och) }

    // The textbook triple sum: over kernel rows, kernel columns and input channels.

    function ChannelSum(b: int, row: int, col: int, krow: int, kcol: int, och: int, n: nat): int {
      if n == 0 then 0
      else ChannelSum(b, row, col, krow, kcol, och, n - 1) + Weight(krow, kcol, n - 1, och) * Pixel(b, row, col, n - 1)
    }

    function ColumnSum(b: int, row: int, ocol: int, krow: int, och: int, n: nat): int
      requires 0 < inputDilation
    {
      if n == 0 then 0
      else ColumnSum(b, row, ocol, krow, och, n - 1)
           + if Skipped(ocol, n - 1) then 0
             else ChannelSum(b, row, Source(ocol, n - 1) / inputDilation, krow, n - 1, och, inCh)
    }

    function RowSum(b: int, orow: int, ocol: int, och: int, n: nat): int
      requires 0 < inputDilation
    {
      if n == 0 then 0
      else RowSum(b, orow, ocol, och, n - 1)
           + if Skipped(orow, n - 1) then 0
             else ColumnSum(b, Source(orow, n - 1) / inputDilation, ocol, n - 1, och, kernel)
    }

    function Value(b: int, orow: int, ocol: int, och: int): int
      requires 0 < inputDilation
    { ScaleAndSat(Bias(och) + RowSum(b, orow, ocol, och, kernel), act, scale) }
  }

  function Values(a: Args): Position -> int
    requires 0 < a.inputDilation
  { (p: Position) => a.Value(p.b, p.r, p.c, p.k) }

  function Elements(s: seq<int>, l: Layout): Position -> int {
    (p: Position) => Machine.At(s, l.Index(p.b, p.r, p.c, p.k))
  }

  /** The accumulation of one output element, which both reference convolutions spell out. */
  method OutputPixel(a: Args, b: int, orow: int, ocol: int, och: int) returns (opixel: int)
    requires 0 < a.inputDilation
    ensures opixel == a.Bias(och) + a.RowSum(b, orow, ocol, och, a.kernel)
  {
    opixel := if a.bias.None? then 0 else Machine.At(a.bias.value, och);
    for krow := 0 to a.kernel
      invariant opixel == a.Bias(och) + a.RowSum(b, orow, ocol, och, krow)
    {
      if (orow * a.stride + krow * a.kernelDilation - a.padding) % a.inputDilation != 0 {
        continue;
      }
      var irow := (orow * a.stride + krow * a.kernelDilation - a.padding) / a.inputDilation;
      for kcol := 0 to a.kernel
        invariant opixel == a.Bias(och) + a.RowSum(b, orow, ocol, och, krow)
                            + a.ColumnSum(b, irow, ocol, krow, och, kcol)
      {
        if (ocol * a.stride + kcol * a.kernelDilation - a.padding) % a.inputDilation != 0 {
          continue;
        }
        var icol := (ocol * a.stride + kcol * a.kernelDilation - a.padding) / a.inputDilation;
        for kch := 0 to a.inCh
          invariant opixel == a.Bias(och) + a.RowSum(b, orow, ocol, och, krow)
                              + a.ColumnSum(b, irow, ocol, krow, och, kcol)
                              + a.ChannelSum(b, irow, icol, krow, kcol, och, kch)
        {
          var ipixel := if irow < 0 || irow >= a.inRows || icol < 0 || icol >= a.inCols then 0
                        else Machine.At(a.input, a.InputIndex(b, irow, icol, kch));
          opixel := opixel + Machine.At(a.weights, a.WeightIndex(krow, kcol, kch, och)) * ipixel;
        }
      }
    }
  }

  method ConvWithoutPool(a: Args, l: Layout, out: array<int>)
    requires 0 < a.inputDilation && l.Valid() && l.FitsIn(out.Length)
    requires l.batches == a.batch && l.rows == a.outRows && l.cols == a.outCols && l.channels == a.outCh
    modifies out
    ensures Filled(out[..], l, Values(a), (p: Position) => true)
    ensures Kept(old(out[..]), out[..], l)
  {
    ghost var val := Values(a);
    for b := 0 to a.batch
      invariant Kept(old(out[..]), out[..], l)
      invariant Filled(out[..], l, val, (p: Position) => Before(p, Pos(b, 0, 0, 0)))
    {
      for orow := 0 to a.outRows
        invariant Kept(old(out[..]), out[..], l)
        invariant Filled(out[..], l, val, (p: Position) => Before(p, Pos(b, orow, 0, 0)))
      {
        for ocol := 0 to a.outCols
          invariant Kept(old(out[..]), out[..], l)
          invariant Filled(out[..], l, val, (p: Position) => Before(p, Pos(b, orow, ocol, 0)))
        {
          for och := 0 to a.outCh
            invariant Kept(old(out[..]), out[..], l)
            invariant Filled(out[..], l, val, (p: Position) => Before(p, Pos(b, orow, ocol, och)))
          {
            var opixel := OutputPixel(a, b, orow, ocol, och);
            StoreAt(out, l, Pos(b, orow, ocol, och), ScaleAndSat(opixel, a.act, a.scale), old(out[..]), val,
                    (p: Position) => Before(p, Pos(b, orow, ocol, och)),
                    (p: Position) => Before(p, Pos(b, orow, ocol, och + 1)));
          }
        }
      }
    }
  }

  // ---- pooling ----

  /** C's truncating division. */
  function CDiv(x: int, d: int): int
    requires d > 0
  { if x < 0 then -(-x / d) else x / d }

  datatype Pooling = Pooling(size: nat, stride: nat, padding: nat) {
    function OutDim(dim: nat): int
      requires stride > 0
    { CDiv(dim + 2 * padding - size, stride) + 1 }

    /** The coordinate that window position w of pooled coordinate p covers. */
    function Covered(p: int, w: int): int { p * stride + w - padding }
  }

  /** What a window sees at a coordinate: the tensor, and 0 in the padding. */
  function Padded(f: Position -> int, rows: nat, cols: nat, b: int, row: int, col: int, ch: int): int {
    if row < 0 || row >= rows || col < 0 || col >= cols then 0 else f(Pos(b, row, col, ch))
  }

  function Max(x: int, y: int): int { if x > y then x else y }

  /** Maximum of the first n positions of a window in row-major order, and of ELEM_MIN. */
  function WindowMax(f: Position -> int, rows: nat, cols: nat, q: Pooling, p: Position, n: nat): int
    requires 0 < q.size
  {
    if n == 0 then ELEM_MIN else
      Max(WindowMax(f, rows, cols, q, p, n - 1),
          Padded(f, rows, cols, p.b, q.Covered(p.r, (n - 1) / q.size), q.Covered(p.c, (n - 1) % q.size), p.k))
  }

  function Pooled(f: Position -> int, rows: nat, cols: nat, q: Pooling, p: Position): int
    requires 0 < q.size
  { WindowMax(f, rows, cols, q, p, q.size * q.size) }

  function PooledAt(f: Position -> int, rows: nat, cols: nat, q: Pooling): Position -> int
    requires 0 < q.size
  { (p: Position) => Pooled(f, rows, cols, q, p) }

  /** A pooled element is the maximum of its window: no window element exceeds it, and it is one of
      them unless it is the least element value. */
  lemma {:induction false} WindowMaxIsMaximum(f: Position -> int, rows: nat, cols: nat, q: Pooling, p: Position, n: nat)
    requires 0 < q.size
    ensures forall i :: 0 <= i < n ==>
              Padded(f, rows, cols, p.b, q.Covered(p.r, i / q.size), q.Covered(p.c, i % q.size), p.k)
              <= WindowMax(f, rows, cols, q, p, n)
    ensures WindowMax(f, rows, cols, q, p, n) == ELEM_MIN
         || exists i :: 0 <= i < n &&
              WindowMax(f, rows, cols, q, p, n)
              == Padded(f, rows, cols, p.b, q.Covered(p.r, i / q.size), q.Covered(p.c, i % q.size), p.k)
  {
    if n != 0 {
      WindowMaxIsMaximum(f, rows, cols, q, p, n - 1);
    }
  }

  /** For element values a window of at least one position has its maximum among its elements. */
  lemma WindowMaxIsElement(f: Position -> int, rows: nat, cols: nat, q: Pooling, p: Position, n: nat)
    requires 0 < q.size && 0 < n
    requires forall i :: 0 <= i < n ==>
               ELEM_MIN <= Padded(f, rows, cols, p.b, q.Covered(p.r, i / q.size), q.Covered(p.c, i % q.size), p.k)
    ensures exists i :: 0 <= i < n &&
              WindowMax(f, rows, cols, q, p, n)
              == Padded(f, rows, cols, p.b, q.Covered(p.r, i / q.size), q.Covered(p.c, i % q.size), p.k)
  {
    WindowMaxIsMaximum(f, rows, cols, q, p, n);
    assert WindowMax(f, rows, cols, q, p, n) == ELEM_MIN ==>
             ELEM_MIN == Padded(f, rows, cols, p.b, q.Covered(p.r, 0 / q.size), q.Covered(p.c, 0 % q.size), p.k);
  }

  /** v is not below what the window at p sees at its position (wr, wc): the tensor, or 0 in the padding ... */
  predicate NotBelow(v: int, f: Position -> int, rows: nat, cols: nat, q: Pooling, p: Position, wr: int, wc: int) {
    var row, col := p.r * q.stride + wr - q.padding, p.c * q.stride + wc - q.padding;
    if 0 <= row < rows && 0 <= col < cols then f(Pos(p.b, row, col, p.k)) <= v else 0 <= v
  }

  /** ... and v is what it sees there. */
  predicate SeenAt(v: int, f: Position -> int, rows: nat, cols: nat, q: Pooling, p: Position, wr: int, wc: int) {
    var row, col := p.r * q.stride + wr - q.padding, p.c * q.stride + wc - q.padding;
    if 0 <= row < rows && 0 <= col < cols then f(Pos(p.b, row, col, p.k)) == v else 0 == v
  }

  /** v is the maximum of the window at p, and at least the least element value. */
  ghost predicate IsWindowMaximum(v: int, f: Position -> int, rows: nat, cols: nat, q: Pooling, p: Position) {
    && -128 <= v
    && (forall wr, wc :: 0 <= wr < q.size && 0 <= wc < q.size ==> NotBelow(v, f, rows, cols, q, p, wr, wc))
    && (v == -128 || exists wr, wc :: 0 <= wr < q.size && 0 <= wc < q.size && SeenAt(v, f, rows, cols, q, p, wr, wc))
  }

  /** Window position (wr, wc) in row-major order. */
  lemma WindowPosition(size: nat, wr: int, wc: int)
    requires 0 <= wr < size && 0 <= wc < size
    ensures var i := wr * size + wc;
            0 <= i < size * size && i / size == wr && i % size == wc
  {
    RowMajorBound(size, size, wr, wc);
    DivModUnique(wr * size + wc, size, wr, wc);
  }

  lemma WindowRow(size: nat, i: int)
    requires 0 < size && 0 <= i < size * size
    ensures 0 <= i / size < size && 0 <= i % size < size
  {
    assert i == size * (i / size) + i % size;
    MulMono(size, i / size, size);
    MulMono(i / size, -1, size);
  }

  lemma PooledNotBelow(f: Position -> int, rows: nat, cols: nat, q: Pooling, p: Position, wr: int, wc: int)
    requires 0 < q.size && 0 <= wr < q.size && 0 <= wc < q.size
    ensures NotBelow(Pooled(f, rows, cols, q, p), f, rows, cols, q, p, wr, wc)
  {
    WindowPosition(q.size, wr, wc);
    WindowMaxBounds(f, rows, cols, q, p, q.size * q.size, wr * q.size + wc, wr, wc);
  }

  lemma WindowMaxBounds(f: Position -> int, rows: nat, cols: nat, q: Pooling, p: Position, n: nat, i: int, wr: int,
                        wc: int)
    requires 0 < q.size && 0 <= i < n && wr == i / q.size && wc == i % q.size
    ensures Padded(f, rows, cols, p.b, q.Covered(p.r, wr), q.Covered(p.c, wc), p.k) <= WindowMax(f, rows, cols, q, p, n)
  {
    WindowMaxIsMaximum(f, rows, cols, q, p, n);
  }

  lemma PooledSeen(f: Position -> int, rows: nat, cols: nat, q: Pooling, p: Position, v: int)
    requires 0 < q.size && v == Pooled(f, rows, cols, q, p) != ELEM_MIN
    ensures exists wr, wc :: 0 <= wr < q.size && 0 <= wc < q.size && SeenAt(v, f, rows, cols, q, p, wr, wc)
  {
    WindowMaxIsMaximum(f, rows, cols, q, p, q.size * q.size);
    var i :| 0 <= i < q.size * q.size &&
             v == Padded(f, rows, cols, p.b, q.Covered(p.r, i / q.size), q.Covered(p.c, i % q.size), p.k);
    WindowRow(q.size, i);
    assert SeenAt(v, f, rows, cols, q, p, i / q.size, i % q.size);
  }

  /** A pooled element is the maximum of its window. */
  lemma PooledIsMaximum(f: Position -> int, rows: nat, cols: nat, q: Pooling, p: Position)
    requires 0 < q.size
    ensures IsWindowMaximum(PooledAt(f, rows, cols, q)(p), f, rows, cols, q, p)
  {
    var v := Pooled(f, rows, cols, q, p);
    WindowMaxAtLeast(f, rows, cols, q, p, q.size * q.size);
    forall wr, wc | 0 <= wr < q.size && 0 <= wc < q.size ensures NotBelow(v, f, rows, cols, q, p, wr, wc) {
      PooledNotBelow(f, rows, cols, q, p, wr, wc);
    }
    if v != ELEM_MIN {
      PooledSeen(f, rows, cols, q, p, v);
    }
  }

  lemma {:induction false} WindowMaxAtLeast(f: Position -> int, rows: nat, cols: nat, q: Pooling, p: Position, n: nat)
    requires 0 < q.size
    ensures ELEM_MIN <= WindowMax(f, rows, cols, q, p, n)
  {
    if n != 0 {
      WindowMaxAtLeast(f, rows, cols, q, p, n - 1);
    }
  }

  /** The maximum is unique. */
  lemma MaximumIsUnique(v: int, v': int, f: Position -> int, rows: nat, cols: nat, q: Pooling, p: Position)
    requires IsWindowMaximum(v, f, rows, cols, q, p) && IsWindowMaximum(v', f, rows, cols, q, p)
    ensures v == v'
  {
    NoLargerMaximum(v, v', f, rows, cols, q, p);
    NoLargerMaximum(v', v, f, rows, cols, q, p);
  }

  lemma NoLargerMaximum(v: int, v': int, f: Position -> int, rows: nat, cols: nat, q: Pooling, p: Position)
    requires IsWindowMaximum(v, f, rows, cols, q, p) && IsWindowMaximum(v', f, rows, cols, q, p)
    ensures v <= v'
  {
    if v != -128 {
      var wr, wc :| 0 <= wr < q.size && 0 <= wc < q.size && SeenAt(v, f, rows, cols, q, p, wr, wc);
      assert NotBelow(v', f, rows, cols, q, p, wr, wc);
    }
  }

  /** For element values the maximum is one of the values in the window, or 0 when some position of it is
      outside the tensor. */
  lemma MaximumIsAttained(v: int, f: Position -> int, rows: nat, cols: nat, q: Pooling, p: Position)
    requires 0 < q.size && IsWindowMaximum(v, f, rows, cols, q, p)
    requires forall row, col :: 0 <= row < rows && 0 <= col < cols ==> -128 <= f(Pos(p.b, row, col, p.k))
    ensures exists wr, wc :: 0 <= wr < q.size && 0 <= wc < q.size && SeenAt(v, f, rows, cols, q, p, wr, wc)
  {
    if v == -128 {
      assert NotBelow(v, f, rows, cols, q, p, 0, 0);
      assert SeenAt(v, f, rows, cols, q, p, 0, 0);
    }
  }

  /** The pooled dimension is the number of windows that fit: the last one does, one more would not. Where none
      fits, C's truncating division leaves one for a window too large by less than the stride, and otherwise
      none. */
  lemma OutDimCountsWindows(q: Pooling, dim: nat)
    requires 0 < q.stride
    ensures q.size <= dim + 2 * q.padding ==>
              (q.OutDim(dim) - 1) * q.stride + q.size <= dim + 2 * q.padding < q.OutDim(dim) * q.stride + q.size
    ensures dim + 2 * q.padding < q.size ==>
              (1 - q.OutDim(dim)) * q.stride <= q.size - dim - 2 * q.padding < (2 - q.OutDim(dim)) * q.stride
  {
    var x := dim + 2 * q.padding - q.size;
    Quotient(if x < 0 then -x else x, q.stride);
  }

  lemma Quotient(x: nat, d: int)
    requires 0 < d
    ensures x / d * d <= x < (x / d + 1) * d
  {
    assert x == d * (x / d) + x % d;
  }

  /** Window maximum over the full rows before kr and the first kc positions of row kr. */
  function MaxUpto(f: Position -> int, rows: nat, cols: nat, q: Pooling, p: Position, kr: nat, kc: nat): int
    requires 0 < q.size
  { WindowMax(f, rows, cols, q, p, kr * q.size + kc) }

  lemma MaxUptoSteps(f: Position -> int, rows: nat, cols: nat, q: Pooling, p: Position, kr: nat, kc: nat)
    requires 0 < q.size
    ensures kc < q.size ==>
              MaxUpto(f, rows, cols, q, p, kr, kc + 1)
              == Max(MaxUpto(f, rows, cols, q, p, kr, kc),
                     Padded(f, rows, cols, p.b, q.Covered(p.r, kr), q.Covered(p.c, kc), p.k))
    ensures MaxUpto(f, rows, cols, q, p, kr + 1, 0) == MaxUpto(f, rows, cols, q, p, kr, q.size)
    ensures MaxUpto(f, rows, cols, q, p, 0, 0) == ELEM_MIN
    ensures MaxUpto(f, rows, cols, q, p, q.size, 0) == Pooled(f, rows, cols, q, p)
  {
    if kc < q.size {
      DivModUnique(kr * q.size + kc, q.size, kr, kc);
    }
    assert (kr + 1) * q.size + 0 == kr * q.size + q.size;
    assert q.size * q.size + 0 == q.size * q.size;
  }

  /** The result depends only on the tensor values inside the image. */
  lemma {:induction false} WindowMaxSame(f: Position -> int, g: Position -> int, rows: nat, cols: nat, q: Pooling,
                                         p: Position, n: nat)
    requires 0 < q.size
    requires forall row, col :: 0 <= row < rows && 0 <= col < cols ==>
               f(Pos(p.b, row, col, p.k)) == g(Pos(p.b, row, col, p.k))
    ensures WindowMax(f, rows, cols, q, p, n) == WindowMax(g, rows, cols, q, p, n)
  {
    if n != 0 {
      WindowMaxSame(f, g, rows, cols, q, p, n - 1);
    }
  }

  /** Every element of the tensor in `out` is the maximum of its window. */
  ghost predicate HoldsMaxima(out: seq<int>, l: Layout, f: Position -> int, rows: nat, cols: nat, q: Pooling) {
    forall p: Position :: l.Contains(p.b, p.r, p.c, p.k) ==> MaximumAt(out, l, f, rows, cols, q, p)
  }

  ghost predicate MaximumAt(out: seq<int>, l: Layout, f: Position -> int, rows: nat, cols: nat, q: Pooling, p: Position)
  { IsWindowMaximum(Machine.At(out, l.Index(p.b, p.r, p.c, p.k)), f, rows, cols, q, p) }

  lemma FilledHoldsMaxima(out: seq<int>, l: Layout, f: Position -> int, rows: nat, cols: nat, q: Pooling)
    requires 0 < q.size && Filled(out, l, PooledAt(f, rows, cols, q), (p: Position) => true)
    ensures HoldsMaxima(out, l, f, rows, cols, q)
  {
    forall p: Position | l.Contains(p.b, p.r, p.c, p.k) ensures MaximumAt(out, l, f, rows, cols, q, p) {
      assert HoldsAt(out, l, PooledAt(f, rows, cols, q), p);
      PooledIsMaximum(f, rows, cols, q, p);
    }
  }

  /** `pool` of the layer library, on an NHWC tensor. */
  method Pool(input: seq<int>, from: Layout, q: Pooling, out: array<int>, to: Layout)
    requires 0 < q.size && to.Valid() && to.FitsIn(out.Length)
    modifies out
    ensures Filled(out[..], to, PooledAt(Elements(input, from), from.rows, from.cols, q), (p: Position) => true)
    ensures HoldsMaxima(out[..], to, Elements(input, from), from.rows, from.cols, q)
    ensures Kept(old(out[..]), out[..], to)
  {
    ghost var f := Elements(input, from);
    ghost var val := PooledAt(f, from.rows, from.cols, q);
    for b := 0 to to.batches
      invariant Kept(old(out[..]), out[..], to)
      invariant Filled(out[..], to, val, (p: Position) => p.b < b)
    {
      for ch := 0 to to.channels
        invariant Kept(old(out[..]), out[..], to)
        invariant Filled(out[..], to, val, (p: Position) => p.b < b || (p.b == b && p.k < ch))
      {
        for row := 0 to to.rows
          invariant Kept(old(out[..]), out[..], to)
          invariant Filled(out[..], to, val, (p: Position) => p.b < b ||
                           (p.b == b && (p.k < ch || (p.k == ch && p.r < row))))
        {
          for col := 0 to to.cols
            invariant Kept(old(out[..]), out[..], to)
            invariant Filled(out[..], to, val, (p: Position) => BeforeByChannel(p, Pos(b, row, col, ch)))
          {
            var result := PoolWindow(input, from, q, b, row, col, ch);
            assert result == val(Pos(b, row, col, ch));
            StoreAt(out, to, Pos(b, row, col, ch), result, old(out[..]), val,
                    (p: Position) => BeforeByChannel(p, Pos(b, row, col, ch)),
                    (p: Position) => BeforeByChannel(p, Pos(b, row, col + 1, ch)));
          }
        }
      }
    }
    FilledHoldsMaxima(out[..], to, f, from.rows, from.cols, q);
  }

  /** The order in which `pool` visits its outputs: batch, channel, row, column. */
  predicate BeforeByChannel(q: Position, p: Position) { Before(Pos(q.b, q.k, q.r, q.c), Pos(p.b, p.k, p.r, p.c)) }

  method PoolWindow(input: seq<int>, from: Layout, q: Pooling, b: int, row: int, col: int, ch: int)
    returns (result: int)
    requires 0 < q.size
    ensures result == Pooled(Elements(input, from), from.rows, from.cols, q, Pos(b, row, col, ch))
  {
    ghost var f := Elements(input, from);
    ghost var at := Pos(b, row, col, ch);
    var inRow := row * q.stride - q.padding;
    result := ELEM_MIN;
    MaxUptoSteps(f, from.rows, from.cols, q, at, 0, 0);
    for kernelRow := 0 to q.size
      invariant inRow == q.Covered(row, kernelRow)
      invariant result == MaxUpto(f, from.rows, from.cols, q, at, kernelRow, 0)
    {
      var inCol := col * q.stride - q.padding;
      for kernelCol := 0 to q.size
        invariant inRow == q.Covered(row, kernelRow) && inCol == q.Covered(col, kernelCol)
        invariant result == MaxUpto(f, from.rows, from.cols, q, at, kernelRow, kernelCol)
      {
        MaxUptoSteps(f, from.rows, from.cols, q, at, kernelRow, kernelCol);
        if inRow >= 0 && inRow < from.rows && inCol >= 0 && inCol < from.cols {
          if Machine.At(input, from.Index(b, inRow, inCol, ch)) > result {
            result := Machine.At(input, from.Index(b, inRow, inCol, ch));
          }
        } else if 0 > result {
          result := 0;
        }
        inCol := inCol + 1;
      }
      MaxUptoSteps(f, from.rows, from.cols, q, at, kernelRow, q.size);
      inRow := inRow + 1;
    }
    MaxUptoSteps(f, from.rows, from.cols, q, at, 0, 0);
  }

  // ---- conv_cpu: convolution and pooling in one pass ----

  method FusedElement(a: Args, b: int, orow: int, ocol: int, poch: int) returns (opixel: int)
    requires 0 < a.inputDilation && 0 <= orow < a.outRows && 0 <= ocol < a.outCols
    ensures opixel == Padded(Values(a), a.outRows, a.outCols, b, orow, ocol, poch) && ELEM_MIN <= opixel
  {
    opixel := OutputPixel(a, b, orow, ocol, poch);
    opixel := ScaleAndSat(opixel, a.act, a.scale);
  }

  /** Position (kr, kc) of the window adds the element at (orow, ocol) of the padded tensor. */
  lemma NextInWindow(f: Position -> int, rows: nat, cols: nat, q: Pooling, p: Position, kr: nat, kc: nat, orow: int,
                     ocol: int)
    requires 0 < q.size && kc < q.size && orow == p.r * q.stride + kr - q.padding &&
             ocol == p.c * q.stride + kc - q.padding
    ensures var next := kc + 1;
            MaxUpto(f, rows, cols, q, p, kr, next)
              == Max(MaxUpto(f, rows, cols, q, p, kr, kc), Padded(f, rows, cols, p.b, orow, ocol, p.k))
  {
    MaxUptoSteps(f, rows, cols, q, p, kr, kc);
  }

  method FusedWindow(a: Args, q: Pooling, b: int, porow: int, pocol: int, poch: int) returns (runningMax: int)
    requires 0 < a.inputDilation && 0 < q.size
    ensures runningMax == Pooled(Values(a), a.outRows, a.outCols, q, Pos(b, porow, pocol, poch))
  {
    ghost var f := Values(a);
    ghost var at := Pos(b, porow, pocol, poch);
    runningMax := 0;
    var initialized := false;
    MaxUptoSteps(f, a.outRows, a.outCols, q, at, 0, 0);
    for pwrow := 0 to q.size
      invariant initialized == (pwrow > 0)
      invariant (if initialized then runningMax else ELEM_MIN) == MaxUpto(f, a.outRows, a.outCols, q, at, pwrow, 0)
    {
      var orow := porow * q.stride + pwrow - q.padding;
      for pwcol := 0 to q.size
        invariant initialized == (pwrow > 0 || pwcol > 0)
        invariant (if initialized then runningMax else ELEM_MIN)
                  == MaxUpto(f, a.outRows, a.outCols, q, at, pwrow, pwcol)
      {
        var ocol := pocol * q.stride + pwcol - q.padding;
        NextInWindow(f, a.outRows, a.outCols, q, at, pwrow, pwcol, orow, ocol);
        if orow < 0 || orow >= a.outRows || ocol < 0 || ocol >= a.outCols {
          if !initialized || runningMax < 0 {
            runningMax := 0;
            initialized := true;
          }
        } else {
          var opixel := FusedElement(a, b, orow, ocol, poch);
          if !initialized || opixel > runningMax {
            runningMax := opixel;
            initialized := true;
          }
        }
      }
      MaxUptoSteps(f, a.outRows, a.outCols, q, at, pwrow, q.size);
    }
  }

  /** `conv_cpu` with pool_stride >= 1, writing to a layout of the pooled dimensions. */
  method ConvWithPool(a: Args, q: Pooling, l: Layout, out: array<int>)
    requires 0 < a.inputDilation && 0 < q.size && 0 < q.stride && l.Valid() && l.FitsIn(out.Length)
    requires l.batches == a.batch && l.channels == a.outCh && l.rows == q.OutDim(a.outRows) &&
             l.cols == q.OutDim(a.outCols)
    modifies out
    ensures Filled(out[..], l, PooledAt(Values(a), a.outRows, a.outCols, q), (p: Position) => true)
    ensures HoldsMaxima(out[..], l, Values(a), a.outRows, a.outCols, q)
    ensures Kept(old(out[..]), out[..], l)
  {
    ghost var f := Values(a);
    ghost var val := PooledAt(f, a.outRows, a.outCols, q);
    for b := 0 to a.batch
      invariant Kept(old(out[..]), out[..], l)
      invariant Filled(out[..], l, val, (p: Position) => Before(p, Pos(b, 0, 0, 0)))
    {
      for porow := 0 to l.rows
        invariant Kept(old(out[..]), out[..], l)
        invariant Filled(out[..], l, val, (p: Position) => Before(p, Pos(b, porow, 0, 0)))
      {
        for pocol := 0 to l.cols
          invariant Kept(old(out[..]), out[..], l)
          invariant Filled(out[..], l, val, (p: Position) => Before(p, Pos(b, porow, pocol, 0)))
        {
          for poch := 0 to a.outCh
            invariant Kept(old(out[..]), out[..], l)
            invariant Filled(out[..], l, val, (p: Position) => Before(p, Pos(b, porow, pocol, poch)))
          {
            var runningMax := FusedWindow(a, q, b, porow, pocol, poch);
            assert runningMax == val(Pos(b, porow, pocol, poch));
            StoreAt(out, l, Pos(b, porow, pocol, poch), runningMax, old(out[..]), val,
                    (p: Position) => Before(p, Pos(b, porow, pocol, poch)),
                    (p: Position) => Before(p, Pos(b, porow, pocol, poch + 1)));
          }
        }
      }
    }
    FilledHoldsMaxima(out[..], l, f, a.outRows, a.outCols, q);
  }

  /** Pooling a stored convolution gives the window maxima of the convolution itself. */
  lemma PoolingStoredConvolution(a: Args, q: Pooling, conv: seq<int>, from: Layout, p: Position)
    requires 0 < a.inputDilation && 0 < q.size
    requires from.rows == a.outRows && from.cols == a.outCols && from.batches == a.batch && from.channels == a.outCh
    requires Filled(conv, from, Values(a), (r: Position) => true)
    requires 0 <= p.b < a.batch && 0 <= p.k < a.outCh
    ensures Pooled(Values(a), a.outRows, a.outCols, q, p) == Pooled(Elements(conv, from), from.rows, from.cols, q, p)
  {
    var val, f := Values(a), Elements(conv, from);
    forall row, col | 0 <= row < a.outRows && 0 <= col < a.outCols
      ensures val(Pos(p.b, row, col, p.k)) == f(Pos(p.b, row, col, p.k))
    {
      assert HoldsAt(conv, from, val, Pos(p.b, row, col, p.k));
    }
    WindowMaxSame(val, f, a.outRows, a.outCols, q, p, q.size * q.size);
  }

  /** Fusing pooling into the convolution preserves meaning: for every window, also those that hang
      over the padding and all-negative ones, `conv_cpu` writes the element that
      `conv_cpu_without_pool` followed by `pool` writes. */
  lemma FusionPreservesMeaning(a: Args, q: Pooling, conv: seq<int>, from: Layout,
                               fused: seq<int>, l: Layout, pooled: seq<int>, to: Layout, p: Position)
    requires 0 < a.inputDilation && 0 < q.size && 0 < q.stride
    requires from.rows == a.outRows && from.cols == a.outCols && from.batches == a.batch && from.channels == a.outCh
    requires Filled(conv, from, Values(a), (r: Position) => true)
    requires Filled(fused, l, PooledAt(Values(a), a.outRows, a.outCols, q), (r: Position) => true)
    requires Filled(pooled, to, PooledAt(Elements(conv, from), from.rows, from.cols, q), (r: Position) => true)
    requires l.Contains(p.b, p.r, p.c, p.k) && to.Contains(p.b, p.r, p.c, p.k) && p.b < a.batch && p.k < a.outCh
    ensures Machine.At(fused, l.Index(p.b, p.r, p.c, p.k)) == Machine.At(pooled, to.Index(p.b, p.r, p.c, p.k))
  {
    PoolingStoredConvolution(a, q, conv, from, p);
    assert HoldsAt(fused, l, PooledAt(Values(a), a.outRows, a.outCols, q), p);
    assert HoldsAt(pooled, to, PooledAt(Elements(conv, from), from.rows, from.cols, q), p);
  }

  /** The same as a statement about the three methods: convolving and then pooling leaves the output
      elements that the fused pass leaves. */
  method PoolBothWays(a: Args, q: Pooling, from: Layout, l: Layout, conv: array<int>, pooled: array<int>,
                      fused: array<int>)
    requires conv != pooled && conv != fused && pooled != fused
    requires 0 < a.inputDilation && 0 < q.size && 0 < q.stride && from.Valid() && from.FitsIn(conv.Length)
    requires from.batches == a.batch && from.rows == a.outRows && from.cols == a.outCols && from.channels == a.outCh
    requires l.Valid() && l.FitsIn(pooled.Length) && l.FitsIn(fused.Length)
    requires l.batches == a.batch && l.channels == a.outCh && l.rows == q.OutDim(a.outRows) &&
             l.cols == q.OutDim(a.outCols)
    modifies conv, pooled, fused
    ensures forall p: Position :: l.Contains(p.b, p.r, p.c, p.k) ==> SameAt(l, fused[..], l, pooled[..], p)
  {
    ConvWithoutPool(a, from, conv);
    ghost var s := conv[..];
    Pool(conv[..], from, q, pooled, l);
    ghost var t := pooled[..];
    ConvWithPool(a, q, l, fused);
    forall p: Position | l.Contains(p.b, p.r, p.c, p.k)
      ensures SameAt(l, fused[..], l, pooled[..], p)
    {
      FusionPreservesMeaning(a, q, s, from, fused[..], l, t, l, p);
    }
  }
}
