/** The machine as the depthwise driver uses it: one channel in and one out, so that every command
    works on the first column of the local memories. */
module OneChannel {
  import opened Params
  import opened Machine

  /** The settings of the array for a convolution: the multiply steps through the scratchpad with the
      stride of the convolution, a pixel of one channel and its right neighbours make a row of the left
      operand, and the weights of a kernel row lie below each other. */
  function ConvSettings(stride: int): Settings { Settings(stride, Packed(1), true) }

  lemma OneBlock()
    ensures Dims(Blocks(1)) == DIM && 1 <= Dims(MAX_BLOCK_LEN) && 1 <= Dims(MAX_BLOCK_LEN_ACC) && 1 <= Dims(1)
  {
    BlocksOf(1, DIM - 1);
    assert Dims(1) - (DIM - 1) == 1;
    DimsMono(1, MAX_BLOCK_LEN);
    DimsMono(1, MAX_BLOCK_LEN_ACC);
  }

  lemma ColumnFilled(row: int, sp: int, rows: int)
    requires 0 <= rows <= DIM
    ensures Filled(row, 0, sp, rows, 1) <==> sp <= row < sp + rows
    ensures sp <= row < sp + rows ==> (row - sp) % DIM == row - sp
  {
    BlockOf(row - sp);
    if 0 <= row - sp < DIM {
      DivModUnique(row - sp, DIM, 0, row - sp);
    } else if DIM <= row - sp {
      DimsMono(1, (row - sp) / DIM);
      DimsMono((row - sp) / DIM, 0);
    }
  }

  lemma MovedColumn(src: seq<int>, base: int, stride: int, row: int, sp: int)
    requires (row - sp) % DIM == row - sp
    ensures MovedElement(src, base, stride, row, 0, sp) == At(src, base + (row - sp) * stride)
  {
    var r := row - sp;
    assert MovedElement(src, base, stride, row, 0, sp) == At(src, base + r * stride + (r - r + 0));
  }

  lemma MvinColumn(s: State, src: seq<int>, base: int, stride: int, sp: int, rows: int)
    requires 0 <= rows <= DIM
    ensures forall row :: Mvin(s, src, base, stride, sp, 1, rows).spad(row, 0)
                          == if sp <= row < sp + rows then At(src, base + (row - sp) * stride) else s.spad(row, 0)
  {
    forall row
      ensures Mvin(s, src, base, stride, sp, 1, rows).spad(row, 0)
              == if sp <= row < sp + rows then At(src, base + (row - sp) * stride) else s.spad(row, 0)
    {
      ColumnFilled(row, sp, rows);
      if sp <= row < sp + rows {
        MovedColumn(src, base, stride, row, sp);
      }
    }
  }

  lemma MvinZerosColumn(s: State, sp: int, rows: int)
    requires 0 <= rows <= DIM
    ensures forall row :: MvinZeros(s, sp, 1, rows).spad(row, 0) == if sp <= row < sp + rows then 0 else s.spad(row, 0)
  {
    forall row
      ensures MvinZeros(s, sp, 1, rows).spad(row, 0) == if sp <= row < sp + rows then 0 else s.spad(row, 0)
    {
      ColumnFilled(row, sp, rows);
    }
  }

  /** The accumulator addresses of a bias move-in, and of a multiply and a move-out. */
  function BiasAddress(row: int): int { ACC_BIT + row }
  function SumAddress(row: int): int { ACC_BIT + ACCUMULATE_BIT + row }

  lemma Addresses(row: int)
    requires 0 <= row < ACC_ROWS
    ensures AccRow(BiasAddress(row)) == row && !Accumulates(BiasAddress(row)) && IsAccAddress(BiasAddress(row))
    ensures AccRow(SumAddress(row)) == row && Accumulates(SumAddress(row)) && !ReadsFull(SumAddress(row)) &&
            IsAccAddress(SumAddress(row))
  {
    assert ACC_ROWS < FULL_BIT;
    AccAddress(row, false);
  }

  /** A repeating bias: one element, loaded into `rows` accumulator rows with row stride 0. */
  lemma MvinAccColumn(s: State, src: seq<int>, base: int, at: int, rows: int)
    requires 0 <= at < ACC_ROWS && 0 <= rows <= DIM
    ensures forall row :: MvinAcc(s, src, base, 0, BiasAddress(at), 1, rows).acc(row, 0)
                          == if at <= row < at + rows then At(src, base) else s.acc(row, 0)
  {
    Addresses(at);
    forall row
      ensures MvinAcc(s, src, base, 0, BiasAddress(at), 1, rows).acc(row, 0)
              == if at <= row < at + rows then At(src, base) else s.acc(row, 0)
    {
      ColumnFilled(row, at, rows);
      if at <= row < at + rows {
        MovedColumn(src, base, 0, row, at);
      }
    }
  }

  lemma MvinAccZerosColumn(s: State, at: int, rows: int)
    requires 0 <= at < ACC_ROWS && 0 <= rows <= DIM
    ensures forall row :: MvinAccZeros(s, BiasAddress(at), 1, rows).acc(row, 0)
                          == if at <= row < at + rows then 0 else s.acc(row, 0)
  {
    Addresses(at);
    forall row
      ensures MvinAccZeros(s, BiasAddress(at), 1, rows).acc(row, 0)
              == if at <= row < at + rows then 0 else s.acc(row, 0)
    {
      ColumnFilled(row, at, rows);
    }
  }

  lemma PackedElement(s: State, stride: int, row: int, t: int)
    ensures LeftElement(s, ConvSettings(stride), row, t) == s.spad(row + t, 0)
  {}

  lemma MultiplyColumn(s: State, stride: int, k: nat, rows: int, a: int, at: int)
    requires 0 <= at < ACC_ROWS
    ensures forall row :: Multiply(s, ConvSettings(stride), 1, k, rows, a, SumAddress(at)).acc(row, 0)
                          == if at <= row < at + rows
                             then s.acc(row, 0) + RowDot(s, ConvSettings(stride), a + (row - at) * stride, 0, k)
                             else s.acc(row, 0)
  {
    Addresses(at);
  }

  lemma LocalColumn(s: State, sp: int, r: int)
    ensures LocalElement(s, sp, r, 0) == s.acc(sp + r, 0)
  {
    var c := 0;
    DivModUnique(c, DIM, 0, 0);
    assert c % DIM == 0;
  }

  lemma MvoutColumn(s: State, stage: int -> int, base: int, stride: int, at: int, rows: int, x: int)
    requires 0 <= at < ACC_ROWS
    ensures var s' := Mvout(s, stage, base, stride, SumAddress(at), 1, rows);
            if Touches(x, base, stride, rows, 1)
            then s'.c(x) == stage(s.acc(at + (x - base) / stride, 0)) && s'.stores(x) == s.stores(x) + 1
            else s'.c(x) == s.c(x) && s'.stores(x) == s.stores(x)
  {
    Addresses(at);
    var address := SumAddress(at);
    var s' := Mvout(s, stage, base, stride, address, 1, rows);
    if Touches(x, base, stride, rows, 1) {
      var r, column := (x - base) / stride, (x - base) % stride;
      assert s'.c(x) == Output(stage, ReadsFull(address), LocalElement(s, AccRow(address), r, column));
      FirstColumn(x - base, stride);
      LocalColumn(s, AccRow(address), r);
    }
  }

  lemma MvoutHit(s: State, stage: int -> int, base: int, stride: int, at: int, rows: int, x: int, row: int)
    requires 0 <= at < ACC_ROWS && Touches(x, base, stride, rows, 1) && at + (x - base) / stride == row
    ensures var s' := Mvout(s, stage, base, stride, SumAddress(at), 1, rows);
            s'.c(x) == stage(s.acc(row, 0)) && s'.stores(x) == s.stores(x) + 1
  {
    MvoutColumn(s, stage, base, stride, at, rows, x);
  }

  lemma FirstColumn(x: int, stride: int)
    requires 0 < stride && x % stride < 1
    ensures x % stride == 0
  {}

  /** With one channel a row of the left operand takes as many scratchpad rows as it has elements. */
  lemma PackedInside(stride: int, k: nat, rows: int, a: int)
    requires 0 <= a && 0 <= stride && 0 < k && a + (rows - 1) * stride + k <= SPAD_ROWS
    ensures LeftInside(ConvSettings(stride), k, rows, a)
  {}

  /** The weights that a preload from row sp on makes active. */
  lemma PreloadedColumn(s: State, stride: int, k: int, sp: int, p: int)
    requires 0 <= p < k
    ensures Flip(Preload(s, ConvSettings(stride), 1, k, sp)).active(0, p) == s.spad(sp + p, 0)
  {}

  /** The state a multiply starts from: the first multiply of a pass preloads and flips the weights. */
  function WithWeights(s: State, stride: int, k: nat, weights: int, newWeights: bool): State {
    if newWeights then Flip(Preload(s, ConvSettings(stride), 1, k, weights)) else s
  }

  method MultiplyRun(dev: Gemmini, stride: int, k: nat, rows: nat, a: int, at: int, weights: int, newWeights: bool)
    requires dev.mem.settings == ConvSettings(stride) && 0 < k <= DIM && 0 < rows <= DIM
    requires LeftInside(ConvSettings(stride), k, rows, a) && WeightsInside(ConvSettings(stride), 1, k, weights)
    requires 0 <= at && at + rows <= ACC_ROWS
    modifies dev
    ensures dev.st == Multiply(WithWeights(old(dev.st), stride, k, weights, newWeights), ConvSettings(stride), 1, k,
                               rows, a, SumAddress(at))
  {
    Addresses(at);
    if newWeights {
      dev.PreloadWeights(1, k, weights);
      dev.MatrixMultiplyFlip(1, k, rows, a, SumAddress(at));
    } else {
      dev.MatrixMultiply(1, k, rows, a, SumAddress(at));
    }
  }
}
