/** The triple sum of a convolution, tap by tap: one flat loop over kernel rows, kernel columns and channels. */
module ConvTaps {
  import opened Params
  import opened Rounding
  import opened Tensor
  import Conv
  import Machine

  /** What tap (krow, kcol, kch) adds to an output. */
  function Contribution(a: Conv.Args, b: int, orow: int, ocol: int, och: int, krow: int, kcol: int, kch: int): int
    requires 0 < a.inputDilation
  {
    if a.Skipped(orow, krow) || a.Skipped(ocol, kcol) then 0
    else a.Weight(krow, kcol, kch, och)
         * a.Pixel(b, a.Source(orow, krow) / a.inputDilation, a.Source(ocol, kcol) / a.inputDilation, kch)
  }

  /** `p` are partial sums, one after each tap. */
  predicate TapAdds(a: Conv.Args, p: int -> int, b: int, orow: int, ocol: int, och: int, krow: int, kcol: int, kch: int)
    requires 0 < a.inputDilation
  {
    var t := (krow * a.kernel + kcol) * a.inCh + kch;
    p(t + 1) == p(t) + Contribution(a, b, orow, ocol, och, krow, kcol, kch)
  }

  ghost predicate TapsAdd(a: Conv.Args, p: int -> int, b: int, orow: int, ocol: int, och: int)
    requires 0 < a.inputDilation
  {
    forall krow, kcol, kch :: 0 <= krow < a.kernel && 0 <= kcol < a.kernel && 0 <= kch < a.inCh ==>
      TapAdds(a, p, b, orow, ocol, och, krow, kcol, kch)
  }

  lemma {:induction false} ChannelPrefix(a: Conv.Args, p: int -> int, b: int, orow: int, ocol: int, och: int, krow: int,
                                         kcol: int, n: nat, t: int)
    requires 0 < a.inputDilation && TapsAdd(a, p, b, orow, ocol, och)
    requires 0 <= krow < a.kernel && 0 <= kcol < a.kernel && n <= a.inCh && t == (krow * a.kernel + kcol) * a.inCh
    ensures p(t + n) == p(t) + if a.Skipped(orow, krow) || a.Skipped(ocol, kcol) then 0
      else a.ChannelSum(b, a.Source(orow, krow) / a.inputDilation, a.Source(ocol, kcol) / a.inputDilation, krow, kcol,
                        och, n)
  {
    if n != 0 {
      ChannelPrefix(a, p, b, orow, ocol, och, krow, kcol, n - 1, t);
      assert TapAdds(a, p, b, orow, ocol, och, krow, kcol, n - 1);
    }
  }

  lemma TapStart(krow: int, kernel: int, n: int, channels: int)
    ensures (krow * kernel + n) * channels == (krow * kernel + (n - 1)) * channels + channels
  {}

  lemma {:induction false} ColumnPrefix(a: Conv.Args, p: int -> int, b: int, orow: int, ocol: int, och: int, krow: int,
                                        n: nat, t: int, t': int)
    requires 0 < a.inputDilation && TapsAdd(a, p, b, orow, ocol, och) && 0 <= krow < a.kernel && n <= a.kernel
    requires t == krow * a.kernel * a.inCh && t' == (krow * a.kernel + n) * a.inCh
    ensures p(t') == p(t) + if a.Skipped(orow, krow) then 0
      else a.ColumnSum(b, a.Source(orow, krow) / a.inputDilation, ocol, krow, och, n)
  {
    if n != 0 {
      TapStart(krow, a.kernel, n, a.inCh);
      var mid := (krow * a.kernel + (n - 1)) * a.inCh;
      ColumnPrefix(a, p, b, orow, ocol, och, krow, n - 1, t, mid);
      ChannelPrefix(a, p, b, orow, ocol, och, krow, n - 1, a.inCh, mid);
    } else {
      assert t' == t;
    }
  }

  lemma RowStart(n: int, kernel: int, channels: int)
    ensures (n + 1) * kernel * channels == (n * kernel + kernel) * channels
  {
    assert (n + 1) * kernel == n * kernel + kernel;
  }

  /** The partial sum after n kernel rows is the start value and the triple sum over those rows. */
  lemma {:induction false} RowPrefix(a: Conv.Args, p: int -> int, b: int, orow: int, ocol: int, och: int, n: nat,
                                     t: int)
    requires 0 < a.inputDilation && TapsAdd(a, p, b, orow, ocol, och) && n <= a.kernel && t == n * a.kernel * a.inCh
    ensures p(t) == p(0) + a.RowSum(b, orow, ocol, och, n)
  {
    if n != 0 {
      RowStart(n - 1, a.kernel, a.inCh);
      var mid := (n - 1) * a.kernel * a.inCh;
      RowPrefix(a, p, b, orow, ocol, och, n - 1, mid);
      ColumnPrefix(a, p, b, orow, ocol, och, n - 1, a.kernel, mid, t);
    } else {
      assert t == 0;
    }
  }

  // ---- the convolution, written out ----

  /** Tap (krow, kcol, kch) of the flat loop in numbers. It reads the dilated, padded image at (y, x): nothing
      between two pixels and outside the image. The rotation turns the kernel by half a turn. The weights lie by
      kernel row, kernel column, input channel and output channel; or by input channel, row, column and output channel;
      or by row, column, output channel and input channel. The image lies by batch, row, column and channel, or by
      channel, row, column and batch. */
  predicate TapWritten(a: Conv.Args, p: int -> int, b: int, orow: int, ocol: int, och: int, krow: int, kcol: int,
                       kch: int)
    requires 0 < a.inputDilation
  {
    var t := (krow * a.kernel + kcol) * a.inCh + kch;
    var y, x := orow * a.stride + krow * a.kernelDilation - a.padding, ocol * a.stride + kcol * a.kernelDilation
      - a.padding;
    var row, col := y / a.inputDilation, x / a.inputDilation;
    var kr, kc := if a.wrot180 then a.kernel - 1 - krow else krow, if a.wrot180 then a.kernel - 1 - kcol else kcol;
    var atWeight := if a.transWeight1203 then ((kch * a.kernel + kr) * a.kernel + kc) * a.outCh + och
                    else if a.transWeight0132 then ((kr * a.kernel + kc) * a.outCh + och) * a.inCh + kch
                    else ((kr * a.kernel + kc) * a.inCh + kch) * a.weightStride + och;
    var atPixel := if a.transInput3120 then ((kch * a.inRows + row) * a.inCols + col) * a.batch + b
                   else ((b * a.inRows + row) * a.inCols + col) * a.inStride + kch;
    p(t + 1) == p(t) + if y % a.inputDilation == 0 && x % a.inputDilation == 0
                          && 0 <= row < a.inRows && 0 <= col < a.inCols
                       then Machine.At(a.weights, atWeight) * Machine.At(a.input, atPixel) else 0
  }

  /** The whole flat loop, from the bias or 0. */
  ghost predicate Written(a: Conv.Args, p: int -> int, b: int, orow: int, ocol: int, och: int)
    requires 0 < a.inputDilation
  {
    && (a.bias.None? ==> p(0) == 0) && (a.bias.Some? ==> p(0) == Machine.At(a.bias.value, och))
    && forall krow, kcol, kch :: 0 <= krow < a.kernel && 0 <= kcol < a.kernel && 0 <= kch < a.inCh ==>
         TapWritten(a, p, b, orow, ocol, och, krow, kcol, kch)
  }

  lemma PixelPosition(a: Conv.Args, b: int, row: int, col: int, kch: int)
    ensures a.InputIndex(b, row, col, kch)
         == if a.transInput3120 then ((kch * a.inRows + row) * a.inCols + col) * a.batch + b
            else ((b * a.inRows + row) * a.inCols + col) * a.inStride + kch
  {
    Flat3(a.inRows, a.inCols, kch, row, col);
    Flat3(a.inRows, a.inCols, b, row, col);
  }

  lemma WeightPosition(a: Conv.Args, krow: int, kcol: int, kch: int, och: int, kr: int, kc: int)
    requires kr == (if a.wrot180 then a.kernel - 1 - krow else krow)
    requires kc == (if a.wrot180 then a.kernel - 1 - kcol else kcol)
    ensures a.WeightIndex(krow, kcol, kch, och)
         == if a.transWeight1203 then ((kch * a.kernel + kr) * a.kernel + kc) * a.outCh + och
            else if a.transWeight0132 then ((kr * a.kernel + kc) * a.outCh + och) * a.inCh + kch
            else ((kr * a.kernel + kc) * a.inCh + kch) * a.weightStride + och
  {
    Flat3(a.kernel, a.kernel, kch, kr, kc);
    Flat3(a.kernel, a.outCh, kr, kc, och);
    Flat3(a.kernel, a.inCh, kr, kc, kch);
  }

  lemma TapIsContribution(a: Conv.Args, p: int -> int, b: int, orow: int, ocol: int, och: int, krow: int, kcol: int,
                          kch: int)
    requires 0 < a.inputDilation && TapWritten(a, p, b, orow, ocol, och, krow, kcol, kch)
    ensures TapAdds(a, p, b, orow, ocol, och, krow, kcol, kch)
  {
    PixelPosition(a, b, a.Source(orow, krow) / a.inputDilation, a.Source(ocol, kcol) / a.inputDilation, kch);
    WeightPosition(a, krow, kcol, kch, och, if a.wrot180 then a.kernel - 1 - krow else krow,
                   if a.wrot180 then a.kernel - 1 - kcol else kcol);
  }

  lemma WrittenSum(a: Conv.Args, p: int -> int, b: int, orow: int, ocol: int, och: int, n: int)
    requires 0 < a.inputDilation && Written(a, p, b, orow, ocol, och) && n == a.kernel * a.kernel * a.inCh
    ensures p(n) == a.Bias(och) + a.RowSum(b, orow, ocol, och, a.kernel)
  {
    forall krow, kcol, kch | 0 <= krow < a.kernel && 0 <= kcol < a.kernel && 0 <= kch < a.inCh
      ensures TapAdds(a, p, b, orow, ocol, och, krow, kcol, kch)
    {
      TapIsContribution(a, p, b, orow, ocol, och, krow, kcol, kch);
    }
    RowPrefix(a, p, b, orow, ocol, och, a.kernel, n);
  }

  lemma ValueRounds(a: Conv.Args, b: int, orow: int, ocol: int, och: int, sum: int, r: int)
    requires 0 < a.inputDilation && sum == a.Bias(och) + a.RowSum(b, orow, ocol, och, a.kernel)
    requires NearestEven(sum as real * a.scale, r)
    ensures a.Value(b, orow, ocol, och)
         == if r > 127 then 127 else if a.act == Relu && r < 0 then 0 else if r < -128 then -128 else r
  {
    ScaleAndSatRounds(sum, a.act, a.scale, r);
  }

  /** For every dilation, rotation and transposition: the element that the convolution stores is the last partial
      sum of the flat loop times the scale, rounded to nearest, ties to even, limited to 8 bits and, for RELU, below
      by 0. */
  lemma ConvWrittenOut(a: Conv.Args, p: int -> int, b: int, orow: int, ocol: int, och: int, n: int, sum: int, r: int)
    requires 0 < a.inputDilation && Written(a, p, b, orow, ocol, och) && n == a.kernel * a.kernel * a.inCh
    requires sum == p(n) && NearestEven(sum as real * a.scale, r)
    ensures Conv.Values(a)(Pos(b, orow, ocol, och))
         == if r > 127 then 127 else if a.act == Relu && r < 0 then 0 else if r < -128 then -128 else r
  {
    WrittenSum(a, p, b, orow, ocol, och, n);
    ValueRounds(a, b, orow, ocol, och, sum, r);
  }

  /** What `ConvWithoutPool` leaves in its buffer, and where. */
  lemma StoredWrittenOut(a: Conv.Args, l: Layout, out: seq<int>, p: int -> int, b: int, orow: int, ocol: int, och: int,
                         n: int, sum: int, r: int)
    requires 0 < a.inputDilation && Filled(out, l, Conv.Values(a), (q: Position) => true)
    requires l.Contains(b, orow, ocol, och) && Written(a, p, b, orow, ocol, och) && n == a.kernel * a.kernel * a.inCh
    requires sum == p(n) && NearestEven(sum as real * a.scale, r)
    ensures var at := if l.hwnc then ((orow * l.cols + ocol) * l.batches + b) * l.channels + och
                      else ((b * l.rows + orow) * l.cols + ocol) * l.stride + och;
            Machine.At(out, at)
            == if r > 127 then 127 else if a.act == Relu && r < 0 then 0 else if r < -128 then -128 else r
  {
    ConvWrittenOut(a, p, b, orow, ocol, och, n, sum, r);
    IndexWrittenOut(l, b, orow, ocol, och);
    assert HoldsAt(out, l, Conv.Values(a), Pos(b, orow, ocol, och));
  }
}
