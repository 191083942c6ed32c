/** im2col followed by the reference matmul is the reference convolution. */
module Im2colTheorem {
  import opened Params
  import opened Rounding
  import opened Tensor
  import opened Im2col
  import opened ConvTaps
  import Conv
  import Machine
  import MatmulCpu

  /** One plain convolution (no dilation, no transposition), the patches taken from it, and a matmul
      with the HWIO weights and a repeating bias. */
  ghost predicate SameShape(a: Conv.Args, p: Patches, m: MatmulCpu.Args) {
    && a.inputDilation == 1 && a.kernelDilation == 1
    && !a.wrot180 && !a.transInput3120 && !a.transWeight1203 && !a.transWeight0132
    && p.Valid() && p.batch == a.batch && p.inRows == a.inRows && p.inCols == a.inCols && p.inCh == a.inCh
    && p.stride == a.stride && p.padding == a.padding && p.kernel == a.kernel
    && p.inStride == a.inStride && p.input == a.input
    && a.outRows == p.OutRows() && a.outCols == p.OutCols()
    && !m.transA && !m.transB && m.dimI == a.batch * a.outRows * a.outCols && m.dimJ == a.outCh &&
      m.dimK == p.PatchSize()
    && m.strideA == p.ld && m.b == a.weights && m.strideB == a.weightStride
    && m.d == a.bias && m.repeating && m.scaleA == 1.0 && m.scaleB == 1.0 && m.act == a.act && m.scale == a.scale
    && (forall x :: IsElem(Machine.At(a.input, x))) && (forall x :: IsElem(Machine.At(a.weights, x)))
  }

  /** ... and the matmul's left operand is the patch matrix. */
  ghost predicate SameConvolution(a: Conv.Args, p: Patches, m: MatmulCpu.Args, matrix: seq<int>) {
    SameShape(a, p, m) && m.a == matrix && MatrixUpto(p, matrix, a.batch * a.outRows * a.outCols)
  }

  lemma PixelAt(a: Conv.Args, p: Patches, m: MatmulCpu.Args, matrix: seq<int>, b: int, orow: int, ocol: int, krow: int,
                kcol: int, ch: int)
    requires SameConvolution(a, p, m, matrix)
    requires 0 <= b < a.batch && 0 <= orow < a.outRows && 0 <= ocol < a.outCols
    requires 0 <= krow < a.kernel && 0 <= kcol < a.kernel && 0 <= ch < a.inCh
    ensures Cell(p, matrix, RowOf(p, b, orow, ocol), (krow * a.kernel + kcol) * a.inCh + ch)
         == a.Pixel(b, a.Source(orow, krow), a.Source(ocol, kcol), ch)
  {
    var row, t := RowOf(p, b, orow, ocol), (krow * a.kernel + kcol) * a.inCh + ch;
    var n := a.batch * a.outRows * a.outCols;
    RowFits(p, b, orow, ocol);
    TapIndex(p, krow, kcol, ch);
    assert PatchRow(p, matrix, n, b, orow, ocol);
    assert EntryUpto(p, matrix, row, b, orow, ocol, p.PatchSize(), t);
  }

  lemma WeightAt(a: Conv.Args, krow: int, kcol: int, ch: int, och: int)
    requires !a.wrot180 && !a.transWeight1203 && !a.transWeight0132
    ensures a.WeightIndex(krow, kcol, ch, och) == ((krow * a.kernel + kcol) * a.inCh + ch) * a.weightStride + och
  {
    assert (krow * a.kernel + kcol) * a.inCh == krow * a.kernel * a.inCh + kcol * a.inCh;
  }

  lemma PixelIsElem(a: Conv.Args, b: int, row: int, col: int, ch: int)
    requires forall x :: IsElem(Machine.At(a.input, x))
    ensures IsElem(a.Pixel(b, row, col, ch))
  {}

  /** Where the plain convolution keeps what. */
  lemma PlainTap(a: Conv.Args, p: Patches, m: MatmulCpu.Args, matrix: seq<int>, b: int, orow: int, ocol: int, och: int,
                 krow: int, kcol: int, ch: int)
    requires SameConvolution(a, p, m, matrix)
    requires 0 <= b < a.batch && 0 <= orow < a.outRows && 0 <= ocol < a.outCols
    requires 0 <= krow < a.kernel && 0 <= kcol < a.kernel && 0 <= ch < a.inCh
    ensures m.Term(RowOf(p, b, orow, ocol), och, (krow * a.kernel + kcol) * a.inCh + ch)
         == a.Weight(krow, kcol, ch, och) * a.Pixel(b, a.Source(orow, krow), a.Source(ocol, kcol), ch)
  {
    PixelAt(a, p, m, matrix, b, orow, ocol, krow, kcol, ch);
    WeightAt(a, krow, kcol, ch, och);
    PixelIsElem(a, b, a.Source(orow, krow), a.Source(ocol, kcol), ch);
    MatmulCpu.PlainTerm(m, RowOf(p, b, orow, ocol), och, (krow * a.kernel + kcol) * a.inCh + ch,
              a.Pixel(b, a.Source(orow, krow), a.Source(ocol, kcol), ch), a.Weight(krow, kcol, ch, och));
  }

  /** The partial sums of the matmul. */
  function Partial(m: MatmulCpu.Args, row: int, och: int): int -> int {
    (n: int) => if 0 <= n then m.Sum(row, och, n) else 0
  }

  /** The terms of the matmul that belong to one output are what its taps add, in their order. */
  lemma TapRight(a: Conv.Args, p: Patches, m: MatmulCpu.Args, matrix: seq<int>, b: int, orow: int, ocol: int, och: int,
                 krow: int, kcol: int, ch: int)
    requires SameConvolution(a, p, m, matrix)
    requires 0 <= b < a.batch && 0 <= orow < a.outRows && 0 <= ocol < a.outCols
    requires 0 <= krow < a.kernel && 0 <= kcol < a.kernel && 0 <= ch < a.inCh
    ensures TapAdds(a, Partial(m, RowOf(p, b, orow, ocol), och), b, orow, ocol, och, krow, kcol, ch)
  {
    PlainTap(a, p, m, matrix, b, orow, ocol, och, krow, kcol, ch);
    TapNumber(krow, a.kernel, kcol, a.inCh, ch);
  }

  lemma TapNumber(krow: int, kernel: nat, kcol: int, channels: nat, ch: int)
    requires 0 <= krow && 0 <= kcol && 0 <= ch
    ensures 0 <= (krow * kernel + kcol) * channels + ch
  {
    MulMono(0, krow, kernel);
    MulMono(0, krow * kernel + kcol, channels);
  }

  /** For every batch, size, stride, padding and kernel: element (b, orow, ocol, och) of the
      convolution is element (row of that output, och) of the matmul. */
  lemma MatmulOfPatchesIsConvolution(a: Conv.Args, p: Patches, m: MatmulCpu.Args, matrix: seq<int>,
                                     b: int, orow: int, ocol: int, och: int)
    requires SameConvolution(a, p, m, matrix)
    requires 0 <= b < a.batch && 0 <= orow < a.outRows && 0 <= ocol < a.outCols
    ensures m.Result(RowOf(p, b, orow, ocol), och) == a.Value(b, orow, ocol, och)
  {
    var row := RowOf(p, b, orow, ocol);
    forall krow, kcol, kch | 0 <= krow < a.kernel && 0 <= kcol < a.kernel && 0 <= kch < a.inCh
      ensures TapAdds(a, Partial(m, row, och), b, orow, ocol, och, krow, kcol, kch)
    {
      TapRight(a, p, m, matrix, b, orow, ocol, och, krow, kcol, kch);
    }
    RowPrefix(a, Partial(m, row, och), b, orow, ocol, och, a.kernel, p.PatchSize());
  }

  /** The same as a statement about the three methods: with the convolution's output stride as the
      matmul's row stride, the two result buffers agree on every output element. */
  method ConvolveBothWays(a: Conv.Args, p: Patches, m: MatmulCpu.Args, l: Layout,
                          matrix: array<int>, viaMatmul: array<int>, direct: array<int>)
    requires matrix != viaMatmul && matrix != direct && viaMatmul != direct
    requires p.Valid() && p.batch * p.OutRows() * p.OutCols() * p.ld <= matrix.Length
    requires forall x :: 0 <= x < matrix.Length ==> matrix[x] == 0
    requires SameShape(a, p, m) && |m.a| == matrix.Length && m.Valid(viaMatmul.Length)
    requires l == Layout(a.batch, a.outRows, a.outCols, a.outCh, m.strideC, false) && l.FitsIn(direct.Length) &&
             a.outCh <= m.strideC
    modifies matrix, viaMatmul, direct
    ensures forall b, orow, ocol, och :: l.Contains(b, orow, ocol, och) ==>
              SameAt(l, viaMatmul[..], l, direct[..], Pos(b, orow, ocol, och))
  {
    Im2col.Im2col(p, matrix);
    ghost var patches := matrix[..];
    var mm := m.(a := matrix[..]);
    assert SameConvolution(a, p, mm, patches);
    ghost var before := viaMatmul[..];
    MatmulCpu.Matmul(mm, viaMatmul);
    ghost var product := viaMatmul[..];
    Conv.ConvWithoutPool(a, l, direct);
    forall b, orow, ocol, och | l.Contains(b, orow, ocol, och)
      ensures SameAt(l, viaMatmul[..], l, direct[..], Pos(b, orow, ocol, och))
    {
      RowFits(p, b, orow, ocol);
      Flat3(a.outRows, a.outCols, b, orow, ocol);
      MatmulOfPatchesIsConvolution(a, p, mm, patches, b, orow, ocol, och);
      assert MatmulCpu.ResultAt(mm, product, RowOf(p, b, orow, ocol), och);
      assert HoldsAt(direct[..], l, Conv.Values(a), Pos(b, orow, ocol, och));
    }
  }
}
