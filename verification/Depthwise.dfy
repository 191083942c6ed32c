/** The depthwise references: `conv_dw_cpu_without_pool` and the layer `conv_dw_with_col2im`
    (with the channel count as its row length it is also `conv_dw`). */
module Depthwise {
  import opened Params
  import opened Rounding
  import opened Tensor
  import Machine

  /** `inStride` is the distance from one pixel of the flattened input to the next. */
  datatype Args = Args(batch: nat, inRows: nat, inCols: nat, channels: nat, inStride: nat, outRows: nat, outCols: nat,
                       stride: int, padding: int, kernel: nat,
                       input: seq<int>, weights: seq<int>, bias: Option<seq<int>>)
  {
    predicate Inside(row: int, col: int) { 0 <= row < inRows && 0 <= col < inCols }

    /** Pixel of the flattened input, zero outside the image. */
    function Pixel(b: int, row: int, col: int, ch: int): int {
      if Inside(row, col) then Machine.At(input, (b * inRows * inCols + row * inCols + col) * inStride + ch) else 0
    }

    function Weight(ch: int, krow: int, kcol: int): int { Machine.At(weights, (ch * kernel + krow) * kernel + kcol) }
    function Bias(ch: int): int { if bias.None? then 0 else Machine.At(bias.value, ch) }

    function Product(b: int, orow: int, ocol: int, ch: int, krow: int, kcol: int): int {
      Weight(ch, krow, kcol) * Pixel(b, orow * stride + krow - padding, ocol * stride + kcol - padding, ch)
    }

    /** Products of one kernel row, columns from .. until. */
    function RowSum(b: int, orow: int, ocol: int, ch: int, krow: int, from: int, until: int): int
      decreases until - from
    {
      if until <= from then 0
      else RowSum(b, orow, ocol, ch, krow, from, until - 1) + Product(b, orow, ocol, ch, krow, until - 1)
    }

    /** Products of a rectangle of the kernel: rows r0 .. r1, columns c0 .. c1. */
    function RectSum(b: int, orow: int, ocol: int, ch: int, r0: int, r1: int, c0: int, c1: int): int
      decreases r1 - r0
    {
      if r1 <= r0 then 0
      else RectSum(b, orow, ocol, ch, r0, r1 - 1, c0, c1) + RowSum(b, orow, ocol, ch, r1 - 1, c0, c1)
    }

    /** The depthwise convolution before scaling. */
    function Sum(b: int, orow: int, ocol: int, ch: int): int {
      Bias(ch) + RectSum(b, orow, ocol, ch, 0, kernel, 0, kernel)
    }
  }

  /** The reference: scale, saturate, then the activation. */
  function ReferenceValues(a: Args, act: Activation, scale: real): Position -> int {
    (p: Position) => ScaleAndSat(a.Sum(p.b, p.r, p.c, p.k), act, scale)
  }

  method ConvDwCpu(a: Args, act: Activation, scale: real, l: Layout, out: array<int>)
    requires a.inStride == a.channels
    requires l == Layout(a.batch, a.outRows, a.outCols, a.channels, a.channels, false) && l.FitsIn(out.Length)
    modifies out
    ensures Filled(out[..], l, ReferenceValues(a, act, scale), (p: Position) => true)
    ensures Kept(old(out[..]), out[..], l)
  {
    ghost var val := ReferenceValues(a, act, scale);
    for b := 0 to a.batch
      invariant Kept(old(out[..]), out[..], l)
      invariant Filled(out[..], l, val, (p: Position) => Before(p, Pos(b, 0, 0, 0)))
    {
      for orow := 0 to a.outRows
        invariant Kept(old(out[..]), out[..], l)
        invariant Filled(out[..], l, val, (p: Position) => Before(p, Pos(b, orow, 0, 0)))
      {
        for ocol := 0 to a.outCols
          invariant Kept(old(out[..]), out[..], l)
          invariant Filled(out[..], l, val, (p: Position) => Before(p, Pos(b, orow, ocol, 0)))
        {
          for ch := 0 to a.channels
            invariant Kept(old(out[..]), out[..], l)
            invariant Filled(out[..], l, val, (p: Position) => Before(p, Pos(b, orow, ocol, ch)))
          {
            var opixel := ReferencePixel(a, b, orow, ocol, ch);
            StoreAt(out, l, Pos(b, orow, ocol, ch), ScaleAndSat(opixel, act, scale), old(out[..]), val,
                    (p: Position) => Before(p, Pos(b, orow, ocol, ch)),
                    (p: Position) => Before(p, Pos(b, orow, ocol, ch + 1)));
          }
        }
      }
    }
  }

  method ReferencePixel(a: Args, b: int, orow: int, ocol: int, ch: int) returns (opixel: int)
    requires a.inStride == a.channels
    ensures opixel == a.Sum(b, orow, ocol, ch)
  {
    opixel := if a.bias.None? then 0 else Machine.At(a.bias.value, ch);
    for krow := 0 to a.kernel
      invariant opixel == a.Bias(ch) + a.RectSum(b, orow, ocol, ch, 0, krow, 0, a.kernel)
    {
      var irow := orow * a.stride + krow - a.padding;
      for kcol := 0 to a.kernel
        invariant opixel == a.Bias(ch) + a.RectSum(b, orow, ocol, ch, 0, krow, 0, a.kernel)
                            + a.RowSum(b, orow, ocol, ch, krow, 0, kcol)
      {
        var icol := ocol * a.stride + kcol - a.padding;
        var ipixel := if irow < 0 || irow >= a.inRows || icol < 0 || icol >= a.inCols then 0
                      else Machine.At(a.input, (b * a.inRows * a.inCols + irow * a.inCols + icol) * a.channels + ch);
        var weight := Machine.At(a.weights, (ch * a.kernel + krow) * a.kernel + kcol);
        opixel := opixel + weight * ipixel;
      }
    }
  }

  /** The layer: clamp at zero, then scale and saturate. */
  function LayerStage(x: int, scale: real): int { Clip(AccScale(if x < 0 then 0 else x, scale)) }

  /** In numbers: for every r that is the clamped sum times the scale, rounded to nearest, ties to even, it
      is r limited to -128 .. 127. */
  lemma LayerStageRounds(x: int, scale: real, r: int)
    requires NearestEven((if x < 0 then 0 else x) as real * scale, r)
    ensures LayerStage(x, scale) == if r > 127 then 127 else if r < -128 then -128 else r
  {
    ScalesRound(if x < 0 then 0 else x, scale, r);
  }

  function LayerValues(a: Args, scale: real): Position -> int {
    (p: Position) => LayerStage(a.Sum(p.b, p.r, p.c, p.k), scale)
  }

  /** The layer's loops: batch, channel, row, column; the output is a matrix of `j` columns. */
  method ConvDwWithCol2im(a: Args, scale: real, l: Layout, out: array<int>)
    requires l == Layout(a.batch, a.outRows, a.outCols, a.channels, l.stride, false) && l.Valid() &&
             l.FitsIn(out.Length)
    modifies out
    ensures Filled(out[..], l, LayerValues(a, scale), (p: Position) => true)
    ensures Kept(old(out[..]), out[..], l)
  {
    ghost var val := LayerValues(a, scale);
    for b := 0 to a.batch
      invariant Kept(old(out[..]), out[..], l)
      invariant Filled(out[..], l, val, (p: Position) => p.b < b)
    {
      for ch := 0 to a.channels
        invariant Kept(old(out[..]), out[..], l)
        invariant Filled(out[..], l, val, (p: Position) => ByChannel(p, Pos(b, 0, 0, ch)))
      {
        for row := 0 to a.outRows
          invariant Kept(old(out[..]), out[..], l)
          invariant Filled(out[..], l, val, (p: Position) => ByChannel(p, Pos(b, row, 0, ch)))
        {
          for col := 0 to a.outCols
            invariant Kept(old(out[..]), out[..], l)
            invariant Filled(out[..], l, val, (p: Position) => ByChannel(p, Pos(b, row, col, ch)))
          {
            var result := LayerPixel(a, b, row, col, ch);
            if result < 0 {
              result := 0;
            }
            var scaled := AccScale(result, scale);
            if scaled > ELEM_MAX {
              scaled := ELEM_MAX;
            } else if scaled < ELEM_MIN {
              scaled := ELEM_MIN;
            }
            StoreAt(out, l, Pos(b, row, col, ch), scaled, old(out[..]), val,
                    (p: Position) => ByChannel(p, Pos(b, row, col, ch)),
                    (p: Position) => ByChannel(p, Pos(b, row, col + 1, ch)));
          }
        }
      }
    }
  }

  predicate ByChannel(q: Position, p: Position) { Before(Pos(q.b, q.k, q.r, q.c), Pos(p.b, p.k, p.r, p.c)) }

  /** The layer skips what is outside the image and walks the input with running counters. */
  method LayerPixel(a: Args, b: int, outRow: int, outCol: int, ch: int) returns (result: int)
    ensures result == a.Sum(b, outRow, outCol, ch)
  {
    var inRow := outRow * a.stride - a.padding;
    result := 0;
    if a.bias.Some? {
      result := Machine.At(a.bias.value, ch);
    }
    for kernelRow := 0 to a.kernel
      invariant inRow == outRow * a.stride + kernelRow - a.padding
      invariant result == a.Bias(ch) + a.RectSum(b, outRow, outCol, ch, 0, kernelRow, 0, a.kernel)
    {
      var inCol := outCol * a.stride - a.padding;
      for kernelCol := 0 to a.kernel
        invariant inCol == outCol * a.stride + kernelCol - a.padding
        invariant result == a.Bias(ch) + a.RectSum(b, outRow, outCol, ch, 0, kernelRow, 0, a.kernel)
                            + a.RowSum(b, outRow, outCol, ch, kernelRow, 0, kernelCol)
      {
        if inRow >= 0 && inRow < a.inRows && inCol >= 0 && inCol < a.inCols {
          var r := b * a.inRows * a.inCols + inRow * a.inCols + inCol;
          var x := Machine.At(a.input, r * a.inStride + ch);
          var w := Machine.At(a.weights, (ch * a.kernel + kernelRow) * a.kernel + kernelCol);
          assert x * w == w * x;
          result := result + x * w;
        }
        inCol := inCol + 1;
      }
      inRow := inRow + 1;
    }
  }

  // ---- the depthwise convolution, written out ----

  /** Tap (krow, kcol) of the flat loop of one output, in numbers: `p` are partial sums, one after each tap. Each
      channel has its own kernel, by rows; outside the image there are zeros. */
  predicate TapWritten(a: Args, p: int -> int, b: int, orow: int, ocol: int, ch: int, krow: int, kcol: int) {
    var row, col := orow * a.stride + krow - a.padding, ocol * a.stride + kcol - a.padding;
    var t := krow * a.kernel + kcol;
    p(t + 1) == p(t) + if 0 <= row < a.inRows && 0 <= col < a.inCols
                       then Machine.At(a.weights, (ch * a.kernel + krow) * a.kernel + kcol)
                            * Machine.At(a.input, ((b * a.inRows + row) * a.inCols + col) * a.inStride + ch)
                       else 0
  }

  /** The whole flat loop, from the bias or 0. */
  ghost predicate Written(a: Args, p: int -> int, b: int, orow: int, ocol: int, ch: int) {
    && (a.bias.None? ==> p(0) == 0) && (a.bias.Some? ==> p(0) == Machine.At(a.bias.value, ch))
    && forall krow, kcol :: 0 <= krow < a.kernel && 0 <= kcol < a.kernel ==>
         TapWritten(a, p, b, orow, ocol, ch, krow, kcol)
  }

  lemma TapIsProduct(a: Args, p: int -> int, b: int, orow: int, ocol: int, ch: int, krow: int, kcol: int)
    requires TapWritten(a, p, b, orow, ocol, ch, krow, kcol)
    ensures p(krow * a.kernel + kcol + 1)
         == p(krow * a.kernel + kcol) + a.Product(b, orow, ocol, ch, krow, kcol)
  {
    Flat3(a.inRows, a.inCols, b, orow * a.stride + krow - a.padding, ocol * a.stride + kcol - a.padding);
  }

  lemma {:induction false} RowWritten(a: Args, p: int -> int, b: int, orow: int, ocol: int, ch: int, krow: int, n: nat,
                                      t: int)
    requires Written(a, p, b, orow, ocol, ch) && 0 <= krow < a.kernel && n <= a.kernel && t == krow * a.kernel
    ensures p(t + n) == p(t) + a.RowSum(b, orow, ocol, ch, krow, 0, n)
  {
    if n != 0 {
      RowWritten(a, p, b, orow, ocol, ch, krow, n - 1, t);
      TapIsProduct(a, p, b, orow, ocol, ch, krow, n - 1);
    }
  }

  lemma {:induction false} RectWritten(a: Args, p: int -> int, b: int, orow: int, ocol: int, ch: int, n: nat, t: int)
    requires Written(a, p, b, orow, ocol, ch) && n <= a.kernel && t == n * a.kernel
    ensures p(t) == p(0) + a.RectSum(b, orow, ocol, ch, 0, n, 0, a.kernel)
  {
    if n != 0 {
      var mid := (n - 1) * a.kernel;
      assert t == mid + a.kernel;
      RectWritten(a, p, b, orow, ocol, ch, n - 1, mid);
      RowWritten(a, p, b, orow, ocol, ch, n - 1, a.kernel, mid);
    } else {
      assert t == 0;
    }
  }

  lemma WrittenSum(a: Args, p: int -> int, b: int, orow: int, ocol: int, ch: int, n: int)
    requires Written(a, p, b, orow, ocol, ch) && n == a.kernel * a.kernel
    ensures p(n) == a.Sum(b, orow, ocol, ch)
  {
    RectWritten(a, p, b, orow, ocol, ch, a.kernel, n);
  }

  /** What the reference stores is the last partial sum times the scale, rounded to nearest, ties to even, limited to
      8 bits and, for RELU, below by 0. */
  lemma ReferenceWrittenOut(a: Args, act: Activation, scale: real, p: int -> int, b: int, orow: int, ocol: int, ch: int,
                            n: int, sum: int, r: int)
    requires Written(a, p, b, orow, ocol, ch) && n == a.kernel * a.kernel && sum == p(n)
    requires NearestEven(sum as real * scale, r)
    ensures ReferenceValues(a, act, scale)(Pos(b, orow, ocol, ch))
         == if r > 127 then 127 else if act == Relu && r < 0 then 0 else if r < -128 then -128 else r
  {
    WrittenSum(a, p, b, orow, ocol, ch, n);
    ScaleAndSatRounds(sum, act, scale, r);
  }

  /** What the layer stores is the last partial sum, limited below by 0, times the scale, rounded to nearest, ties to
      even, and limited to 8 bits. */
  lemma LayerWrittenOut(a: Args, scale: real, p: int -> int, b: int, orow: int, ocol: int, ch: int, n: int, sum: int,
                        r: int)
    requires Written(a, p, b, orow, ocol, ch) && n == a.kernel * a.kernel && sum == p(n)
    requires NearestEven((if sum < 0 then 0 else sum) as real * scale, r)
    ensures LayerValues(a, scale)(Pos(b, orow, ocol, ch)) == if r > 127 then 127 else if r < -128 then -128 else r
  {
    WrittenSum(a, p, b, orow, ocol, ch, n);
    LayerStageRounds(sum, scale, r);
  }

  // ---- clamp, scale, saturate against scale, saturate, clamp ----

  /** For a non-negative scale the two orders agree on every accumulator value. */
  lemma ClampCommutes(x: int, scale: real)
    requires scale >= 0.0
    ensures LayerStage(x, scale) == ScaleAndSat(x, Relu, scale)
  {
    RoundNearEvenFixesIntegers(0);
    var v := x as real * scale;
    if x < 0 {
      RealMulMono(x as real, 0.0, scale);
      RoundNearEvenMonotone(v, 0.0);
    } else {
      RealMulMono(0.0, x as real, scale);
      RoundNearEvenMonotone(0.0, v);
    }
  }

  /** And only for a non-negative scale: a negative one makes a negative sum positive. */
  lemma ClampCommutesExactly(scale: real)
    ensures (forall x :: LayerStage(x, scale) == ScaleAndSat(x, Relu, scale)) <==> scale >= 0.0
  {
    if scale >= 0.0 {
      forall x ensures LayerStage(x, scale) == ScaleAndSat(x, Relu, scale) {
        ClampCommutes(x, scale);
      }
    } else {
      var n := (1.0 / -scale).Floor + 1;
      RealMulMono(1.0 / -scale, n as real, -scale);
      var v := (-n) as real * scale;
      assert v == n as real * -scale;
      RoundNearEvenFixesIntegers(1);
      RoundNearEvenFixesIntegers(0);
      RoundNearEvenMonotone(1.0, v);
      assert 1.0 / -scale > 0.0;
      assert LayerStage(-n, scale) == 0;
      assert ScaleAndSat(-n, Relu, scale) >= 1;
    }
  }

  /** So with RELU and a non-negative scale the layer and the reference write the same tensor. */
  lemma LayerMatchesReference(a: Args, scale: real, p: Position)
    requires scale >= 0.0
    ensures LayerValues(a, scale)(p) == ReferenceValues(a, Relu, scale)(p)
  {
    ClampCommutes(a.Sum(p.b, p.r, p.c, p.k), scale);
  }

  /** The same convolution of the same tensor, stored with another row length. */
  ghost predicate SameTensor(a: Args, wide: Args) {
    && wide == a.(input := wide.input, inStride := wide.inStride)
    && forall b, row, col, ch :: SamePixel(a, wide, b, row, col, ch)
  }

  predicate SamePixel(a: Args, wide: Args, b: int, row: int, col: int, ch: int) {
    0 <= b < a.batch && 0 <= ch < a.channels ==> wide.Pixel(b, row, col, ch) == a.Pixel(b, row, col, ch)
  }

  lemma {:induction false} SameRowSum(a: Args, wide: Args, b: int, orow: int, ocol: int, ch: int, krow: int, from: int,
                                      until: int)
    requires SameTensor(a, wide) && 0 <= b < a.batch && 0 <= ch < a.channels
    ensures wide.RowSum(b, orow, ocol, ch, krow, from, until) == a.RowSum(b, orow, ocol, ch, krow, from, until)
    decreases until - from
  {
    if from < until {
      SameRowSum(a, wide, b, orow, ocol, ch, krow, from, until - 1);
      assert SamePixel(a, wide, b, orow * a.stride + krow - a.padding, ocol * a.stride + (until - 1) - a.padding, ch);
    }
  }

  lemma {:induction false} SameRectSum(a: Args, wide: Args, b: int, orow: int, ocol: int, ch: int, r0: int, r1: int,
                                       c0: int, c1: int)
    requires SameTensor(a, wide) && 0 <= b < a.batch && 0 <= ch < a.channels
    ensures wide.RectSum(b, orow, ocol, ch, r0, r1, c0, c1) == a.RectSum(b, orow, ocol, ch, r0, r1, c0, c1)
    decreases r1 - r0
  {
    if r0 < r1 {
      SameRectSum(a, wide, b, orow, ocol, ch, r0, r1 - 1, c0, c1);
      SameRowSum(a, wide, b, orow, ocol, ch, r1 - 1, c0, c1);
    }
  }

  /** Running both: the layer's matrix and the reference tensor have the same elements, also when the
      rows of the layer's input matrix are longer than there are channels. */
  method LayerBothWays(a: Args, wide: Args, scale: real, l: Layout, layer: array<int>, m: Layout, direct: array<int>)
    requires layer != direct && scale >= 0.0 && SameTensor(a, wide) && a.inStride == a.channels
    requires l == Layout(a.batch, a.outRows, a.outCols, a.channels, l.stride, false) && l.Valid() &&
             l.FitsIn(layer.Length)
    requires m == Layout(a.batch, a.outRows, a.outCols, a.channels, a.channels, false) && m.FitsIn(direct.Length)
    modifies layer, direct
    ensures forall p: Position :: m.Contains(p.b, p.r, p.c, p.k) ==> SameAt(l, layer[..], m, direct[..], p)
  {
    ConvDwWithCol2im(wide, scale, l, layer);
    ConvDwCpu(a, Relu, scale, m, direct);
    forall p: Position | m.Contains(p.b, p.r, p.c, p.k)
      ensures SameAt(l, layer[..], m, direct[..], p)
    {
      LayerMatchesReference(wide, scale, p);
      SameRectSum(a, wide, p.b, p.r, p.c, p.k, 0, a.kernel, 0, a.kernel);
      assert HoldsAt(layer[..], l, LayerValues(wide, scale), p);
      assert HoldsAt(direct[..], m, ReferenceValues(a, Relu, scale), p);
    }
  }
}
