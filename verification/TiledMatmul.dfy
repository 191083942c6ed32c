/** The weight-stationary lowering of one matmul tile (`sp_tiled_matmul_ws`). */
module TiledMatmul {
  import opened Params
  import opened Machine

  /** Sum of the first n products of the A row at `a` with the B row at `b`. */
  function Prod(m: Dram, a: int, b: int, n: nat): int {
    if n == 0 then 0 else Prod(m, a, b, n - 1) + At(m.a, a + (n - 1)) * At(m.b, b + (n - 1))
  }

  lemma {:induction false} ProdSplit(m: Dram, a: int, b: int, n1: nat, n2: nat)
    ensures Prod(m, a, b, n1 + n2) == Prod(m, a, b, n1) + Prod(m, a + n1, b + n1, n2)
  {
    if n2 != 0 {
      ProdSplit(m, a, b, n1, n2 - 1);
    }
  }

  /** The arguments of one tile: ti x tj x tk blocks, of which the last is short by the pads.
      `bias` and `out` are None where the source passes NULL or sets no_bias. A repeating bias
      is one row loaded with row stride 0. */
  datatype Job = Job(mem: Dram, ti: nat, tj: nat, tk: nat, padI: nat, padJ: nat, padK: nat,
                     a: int, b: int, bias: Option<int>, out: Option<int>,
                     full: bool, repeating: bool)
  {
    predicate Shape() {
      && 0 < ti && 0 < tj && 0 < tk && padI < DIM && padJ < DIM && padK < DIM
      && mem.settings == MATMUL
    }

    /** The operands fit the scratchpad and the results the accumulator. */
    predicate Fits() {
      Dims(ti * tk + tk * tj) <= SPAD_ROWS && Dims(ti * tj) <= ACC_ROWS
    }

    predicate Valid() {
      && Shape() && Fits()
      && InBounds(|mem.a|, a, mem.strideA, Rows(), Depth())
      && InBounds(|mem.b|, b, mem.strideB, Cols(), Depth())
      && (bias.Some? ==> InBounds(|mem.d|, bias.value, mem.strideD, Rows(), Cols()))
      && (repeating ==> mem.strideD == 0)
      && (out.Some? ==> InBounds(mem.lenC, out.value, mem.strideC, Rows(), Cols())
                        && Cols() <= mem.strideC)
    }

    function Rows(): int { Dims(ti) - padI }
    function Cols(): int { Dims(tj) - padJ }
    function Depth(): (d: int)
      ensures Shape() ==> 0 < d
    {
      DimsMono(1, tk); Dims(tk) - padK
    }
    function RowsI(i: int): int { DIM - if i == ti - 1 then padI else 0 }
    function ColsJ(j: int): int { DIM - if j == tj - 1 then padJ else 0 }
    function DepthK(k: int): int { DIM - if k == tk - 1 then padK else 0 }

    /** Depth covered by the first k blocks. */
    function Upto(k: int): (d: int)
      ensures Shape() && 0 <= k ==> 0 <= d
    {
      DimsMono(0, k); if k == tk then Depth() else Dims(k)
    }

    function ASp(i: int, k: int): int { Dims(i * tk + k) }
    function BSp(j: int, k: int): int { SPAD_ROWS - Dims(tk * tj) + Dims(j * tk + k) }
    function CRow(i: int, j: int): int { Dims(i * tj + j) }
    function BlocksK(): int { Min(tk, MAX_BLOCK_LEN) }
    function BlocksD(): int { Min(tj, mem.BiasBlocks()) }
    function BlocksC(): int { if full then 1 else Min(tj, MAX_BLOCK_LEN) }

    /** First block of the group of `size` blocks that t belongs to. */
    static function Base(t: int, size: int): int
      requires size > 0
    { t / size * size }

    /** Has A block (i', k') been moved in before step (k, j, i)? */
    predicate ADone(k: int, j: int, i: int, i': int, k': int)
      requires Shape()
    {
      var g := Base(k, BlocksK());
      k' < g || (k' < g + BlocksK() && (k != g || 0 < j || i' < i))
    }

    predicate BDone(k: int, j: int, i: int, j': int, k': int)
      requires Shape()
    {
      var g := Base(k, BlocksK());
      k' < g || (k' < g + BlocksK() && (k != g || j' < j || (j' == j && 0 < i)))
    }

    /** Depth of the products in accumulator block (i', j') before step (k, j, i). */
    function DoneDepth(k: int, j: int, i: int, i': int, j': int): int {
      if j' < j || (j' == j && i' < i) then Upto(k + 1) else Upto(k)
    }

    /** The last column block of the group that j is moved out with. */
    function LastOut(j: int): int
      requires Shape()
    { Min(tj - 1, Base(j, BlocksC()) + BlocksC() - 1) }

    /** Has result block (i', j') been moved out before step (k, j, i)? */
    predicate CDone(k: int, j: int, i: int, i': int, j': int)
      requires Shape()
    {
      k == tk || (k == tk - 1 && (LastOut(j') < j || (LastOut(j') == j && i' < i)))
    }

    predicate CellA(s: State, i: int, k: int, r: int, c: int) {
      s.spad(ASp(i, k) + r, c) == At(mem.a, a + (Dims(i) + r) * mem.strideA + (Dims(k) + c))
    }

    ghost predicate LoadedA(s: State, i: int, k: int) {
      forall r, c :: 0 <= r < RowsI(i) && 0 <= c < DepthK(k) ==> CellA(s, i, k, r, c)
    }

    predicate CellB(s: State, j: int, k: int, r: int, c: int) {
      s.spad(BSp(j, k) + r, c) == At(mem.b, b + (Dims(j) + r) * mem.strideB + (Dims(k) + c))
    }

    ghost predicate LoadedB(s: State, j: int, k: int) {
      forall r, c :: 0 <= r < ColsJ(j) && 0 <= c < DepthK(k) ==> CellB(s, j, k, r, c)
    }

    predicate CellActive(s: State, j: int, k: int, r: int, c: int) {
      s.active(r, c) == At(mem.b, b + (Dims(j) + r) * mem.strideB + (Dims(k) + c))
    }

    /** The active weight tile is B block (j, k). */
    ghost predicate ActiveB(s: State, j: int, k: int) {
      forall r, c :: 0 <= r < ColsJ(j) && 0 <= c < DepthK(k) ==> CellActive(s, j, k, r, c)
    }

    /** What depth n of the product contributes to element (row, col). */
    function Element(row: int, col: int, n: nat): int {
      Prod(mem, a + row * mem.strideA, b + col * mem.strideB, n)
    }

    predicate CellC(s0: State, s: State, i: int, j: int, r: int, c: int, n: nat) {
      s.acc(CRow(i, j) + r, c) == s0.acc(CRow(i, j) + r, c) + Element(Dims(i) + r, Dims(j) + c, n)
    }

    /** Accumulator block (i, j) holds what it held in s0 plus products of depth n. */
    ghost predicate Summed(s0: State, s: State, i: int, j: int, n: nat) {
      forall r, c :: 0 <= r < RowsI(i) && 0 <= c < ColsJ(j) ==> CellC(s0, s, i, j, r, c, n)
    }
  }

  // ---- where the blocks lie ----

  lemma Regions(job: Job, i: int, j: int, k: int)
    requires job.Shape() && job.Fits() && 0 <= i < job.ti && 0 <= j < job.tj && 0 <= k < job.tk
    ensures 0 <= job.ASp(i, k) && job.ASp(i, k) + DIM <= Dims(job.ti * job.tk)
    ensures Dims(job.ti * job.tk) <= job.BSp(j, k) && job.BSp(j, k) + DIM <= SPAD_ROWS
    ensures 0 <= job.CRow(i, j) && job.CRow(i, j) + DIM <= ACC_ROWS
  {
    BlockRegion(job.ti, job.tk, i, k);
    BlockRegion(job.tj, job.tk, j, k);
    BlockRegion(job.ti, job.tj, i, j);
    DimsSum(job.ti * job.tk, job.tk * job.tj);
    assert job.tj * job.tk == job.tk * job.tj;
  }

  /** The places in numbers: A from the first row of the scratchpad, by rows of blocks; B, by columns of blocks, so that
      its last block ends with the scratchpad; C from the first row of the accumulator half, by rows of blocks. */
  lemma Places(job: Job, i: int, j: int, k: int)
    ensures job.ASp(i, k) == (i * job.tk + k) * DIM && job.CRow(i, j) == (i * job.tj + j) * DIM
    ensures job.BSp(j, k) == BANK_NUM * BANK_ROWS - (job.tj * job.tk - (j * job.tk + k)) * DIM
    ensures job.BSp(job.tj - 1, job.tk - 1) + DIM == BANK_NUM * BANK_ROWS
  {
    var n := job.tj * job.tk;
    assert job.tk * job.tj == n && (job.tj - 1) * job.tk + (job.tk - 1) == n - 1;
    DimsSum(n - (j * job.tk + k), j * job.tk + k);
    DimsStep(n - 1);
  }

  /** Block (i, j) of a table of blocks. */
  lemma BlockRegion(height: int, width: int, i: int, j: int)
    requires 0 <= i < height && 0 <= j < width
    ensures 0 <= Dims(i * width + j) && Dims(i * width + j) + DIM <= Dims(height * width)
  {
    RowMajorBound(height, width, i, j);
    DimsMono(0, i * width + j);
    DimsMono(i * width + j, height * width);
  }

  /** Blocks of one row of a table lie one after the other. */
  lemma BlockRun(width: int, i: int, j: int, j': int)
    ensures Dims(i * width + j') == Dims(i * width + j) + Dims(j' - j)
  {
    DimsSum(i * width + j, j' - j);
  }

  /** A run of blocks lies before or behind any block that is not one of them. */
  lemma BlocksApart(width: int, i: int, j: int, blocks: int, i': int, j': int)
    requires 0 <= j && 0 <= blocks && j + blocks <= width && 0 <= j' < width
    requires i' != i || j' < j || j + blocks <= j'
    ensures var lo, at := Dims(i * width + j), Dims(i' * width + j');
            at + DIM <= lo || lo + Dims(blocks) <= at
  {
    RowMajorApart(width, i, j, blocks, i', j');
    DimsSum(i * width + j, blocks);
    DimsMono(i' * width + j', i * width + j);
    DimsMono(i * width + j + blocks, i' * width + j');
  }

  // ---- what each command does to the blocks ----

  lemma MvinHit(s: State, src: seq<int>, base: int, stride: int, sp: int, cols: int, rows: int, t: int, r: int, c: int)
    requires 0 <= t && 0 <= r < rows <= DIM && 0 <= c < DIM && Dims(t) + c < cols
    ensures Mvin(s, src, base, stride, sp, cols, rows).spad(sp + Dims(t) + r, c)
         == At(src, base + r * stride + (Dims(t) + c))
  {
    FilledAt(sp, cols, rows, t, r, c);
    MovedAt(src, base, stride, sp, t, r, c);
  }

  /** Element (r, t * DIM + c) of the source block lands in row r of local block t. */
  lemma FilledAt(sp: int, cols: int, rows: int, t: int, r: int, c: int)
    requires 0 <= t && 0 <= r < rows <= DIM && 0 <= c < DIM && Dims(t) + c < cols
    ensures Filled(sp + Dims(t) + r, c, sp, rows, cols)
  {
    InBlock(t, r);
    DimsMono(0, t);
  }

  lemma MovedAt(src: seq<int>, base: int, stride: int, sp: int, t: int, r: int, c: int)
    requires 0 <= r < DIM
    ensures MovedElement(src, base, stride, sp + Dims(t) + r, c, sp) == At(src, base + r * stride + (Dims(t) + c))
  {
    InBlock(t, r);
  }

  /** A move-in of `cols` columns fills the local blocks that cover them. */
  lemma FilledInside(row: int, col: int, sp: int, rows: int, cols: int, blocks: int)
    requires Filled(row, col, sp, rows, cols) && cols <= Dims(blocks)
    ensures sp <= row < sp + Dims(blocks)
  {
    var t := (row - sp) / DIM;
    BlockOf(row - sp);
    DimsMono(blocks, t);
    DimsMono(t, blocks);
  }

  /** The scratchpad is the same outside rows lo .. hi. */
  ghost predicate SameOutside(s: State, s': State, lo: int, hi: int) {
    forall row, col :: row < lo || hi <= row ==> s'.spad(row, col) == s.spad(row, col)
  }

  lemma KeepA(job: Job, s: State, s': State, i: int, k: int, lo: int, hi: int)
    requires SameOutside(s, s', lo, hi) && job.LoadedA(s, i, k)
    requires job.ASp(i, k) + DIM <= lo || hi <= job.ASp(i, k)
    ensures job.LoadedA(s', i, k)
  {
    forall r, c | 0 <= r < job.RowsI(i) && 0 <= c < job.DepthK(k)
      ensures job.CellA(s', i, k, r, c)
    {
      assert job.CellA(s, i, k, r, c);
    }
  }

  lemma KeepB(job: Job, s: State, s': State, j: int, k: int, lo: int, hi: int)
    requires SameOutside(s, s', lo, hi) && job.LoadedB(s, j, k)
    requires job.BSp(j, k) + DIM <= lo || hi <= job.BSp(j, k)
    ensures job.LoadedB(s', j, k)
  {
    forall r, c | 0 <= r < job.ColsJ(j) && 0 <= c < job.DepthK(k)
      ensures job.CellB(s', j, k, r, c)
    {
      assert job.CellB(s, j, k, r, c);
    }
  }

  function BlockCols(blocks: int, last: bool, pad: int): int { Dims(blocks) - if last then pad else 0 }

  function MovedA(job: Job, s: State, i: int, k: int, blocks: int): State {
    Mvin(s, job.mem.a, job.a + Dims(i * job.mem.strideA + k), job.mem.strideA, job.ASp(i, k),
         BlockCols(blocks, k + blocks >= job.tk, job.padK), job.RowsI(i))
  }

  function MovedB(job: Job, s: State, j: int, k: int, blocks: int): State {
    Mvin(s, job.mem.b, job.b + Dims(j * job.mem.strideB + k), job.mem.strideB, job.BSp(j, k),
         BlockCols(blocks, k + blocks >= job.tk, job.padK), job.ColsJ(j))
  }

  /** Pointer arithmetic: element (r, t*DIM + c) from block (i, k) is element (i*DIM + r, (k+t)*DIM + c). */
  lemma BlockIndex(i: int, k: int, t: int, r: int, c: int, stride: int)
    ensures Dims(i * stride + k) + r * stride + (Dims(t) + c) == (Dims(i) + r) * stride + (Dims(k + t) + c)
  {
    DimsSum(i * stride, k);
    DimsSum(k, t);
    DimsScaled(i, stride);
    assert (Dims(i) + r) * stride == Dims(i) * stride + r * stride;
  }

  lemma DimsScaled(i: int, stride: int)
    ensures Dims(i * stride) == Dims(i) * stride
  {
    Swap(i, stride, DIM);
  }

  lemma Swap(x: int, y: int, z: int)
    ensures x * y * z == x * z * y
  {
    assert x * (y * z) == x * (z * y);
  }

  /** Columns of a group of blocks cover the columns of each of its blocks. */
  lemma ColsInside(blocks: int, last: bool, pad: int, t: int, width: int, c: int)
    requires 0 <= t < blocks && 0 <= pad < DIM
    requires 0 <= c < width <= DIM && (last && t == blocks - 1 ==> width == DIM - pad)
    ensures Dims(t) + c < BlockCols(blocks, last, pad)
  {
    DimsStep(t);
    DimsMono(t + 1, blocks);
  }

  lemma MovedAHit(job: Job, s: State, i: int, k: int, blocks: int, k': int)
    requires job.Shape() && 0 <= i < job.ti && k <= k' < k + blocks <= job.tk
    ensures job.LoadedA(MovedA(job, s, i, k, blocks), i, k')
  {
    forall r, c | 0 <= r < job.RowsI(i) && 0 <= c < job.DepthK(k')
      ensures job.CellA(MovedA(job, s, i, k, blocks), i, k', r, c)
    {
      MovedACell(job, s, i, k, blocks, k', r, c);
    }
  }

  lemma MovedACell(job: Job, s: State, i: int, k: int, blocks: int, k': int, r: int, c: int)
    requires job.Shape() && 0 <= i < job.ti && k <= k' < k + blocks <= job.tk
    requires 0 <= r < job.RowsI(i) && 0 <= c < job.DepthK(k')
    ensures job.CellA(MovedA(job, s, i, k, blocks), i, k', r, c)
  {
    var stride, last := job.mem.strideA, k + blocks >= job.tk;
    BlockRun(job.tk, i, k, k');
    ColsInside(blocks, last, job.padK, k' - k, job.DepthK(k'), c);
    MvinHit(s, job.mem.a, job.a + Dims(i * stride + k), stride, job.ASp(i, k), BlockCols(blocks, last, job.padK),
            job.RowsI(i), k' - k, r, c);
    BlockIndex(i, k, k' - k, r, c, stride);
  }

  lemma MovedBHit(job: Job, s: State, j: int, k: int, blocks: int, k': int)
    requires job.Shape() && 0 <= j < job.tj && k <= k' < k + blocks <= job.tk
    ensures job.LoadedB(MovedB(job, s, j, k, blocks), j, k')
  {
    forall r, c | 0 <= r < job.ColsJ(j) && 0 <= c < job.DepthK(k')
      ensures job.CellB(MovedB(job, s, j, k, blocks), j, k', r, c)
    {
      MovedBCell(job, s, j, k, blocks, k', r, c);
    }
  }

  lemma MovedBCell(job: Job, s: State, j: int, k: int, blocks: int, k': int, r: int, c: int)
    requires job.Shape() && 0 <= j < job.tj && k <= k' < k + blocks <= job.tk
    requires 0 <= r < job.ColsJ(j) && 0 <= c < job.DepthK(k')
    ensures job.CellB(MovedB(job, s, j, k, blocks), j, k', r, c)
  {
    var stride, last := job.mem.strideB, k + blocks >= job.tk;
    BlockRun(job.tk, j, k, k');
    ColsInside(blocks, last, job.padK, k' - k, job.DepthK(k'), c);
    MvinHit(s, job.mem.b, job.b + Dims(j * stride + k), stride, job.BSp(j, k), BlockCols(blocks, last, job.padK),
            job.ColsJ(j), k' - k, r, c);
    BlockIndex(j, k, k' - k, r, c, stride);
  }

  /** Rewriting blocks k .. k+blocks of block row i of A keeps every other A block ... */
  lemma RewriteAKeepsA(job: Job, s: State, s': State, i: int, k: int, blocks: int, i': int, k': int)
    requires job.Shape() && 0 <= i < job.ti && 0 <= k < k + blocks <= job.tk && 0 <= i' < job.ti && 0 <= k' < job.tk
    requires SameOutside(s, s', job.ASp(i, k), job.ASp(i, k) + Dims(blocks))
    requires i' != i || k' < k || k + blocks <= k'
    requires job.LoadedA(s, i', k')
    ensures job.LoadedA(s', i', k')
  {
    BlocksApart(job.tk, i, k, blocks, i', k');
    KeepA(job, s, s', i', k', job.ASp(i, k), job.ASp(i, k) + Dims(blocks));
  }

  /** ... and every B block. */
  lemma RewriteAKeepsB(job: Job, s: State, s': State, i: int, k: int, blocks: int, j': int, k': int)
    requires job.Shape() && job.Fits() && 0 <= i < job.ti && 0 <= k < k + blocks <= job.tk && 0 <= j' < job.tj &&
             0 <= k' < job.tk
    requires SameOutside(s, s', job.ASp(i, k), job.ASp(i, k) + Dims(blocks))
    requires job.LoadedB(s, j', k')
    ensures job.LoadedB(s', j', k')
  {
    Regions(job, i, j', k');
    Regions(job, i, j', k + blocks - 1);
    BlockRun(job.tk, i, k, k + blocks - 1);
    DimsStep(blocks - 1);
    KeepB(job, s, s', j', k', job.ASp(i, k), job.ASp(i, k) + Dims(blocks));
  }

  lemma RewriteBKeepsB(job: Job, s: State, s': State, j: int, k: int, blocks: int, j': int, k': int)
    requires job.Shape() && 0 <= j < job.tj && 0 <= k < k + blocks <= job.tk && 0 <= j' < job.tj && 0 <= k' < job.tk
    requires SameOutside(s, s', job.BSp(j, k), job.BSp(j, k) + Dims(blocks))
    requires j' != j || k' < k || k + blocks <= k'
    requires job.LoadedB(s, j', k')
    ensures job.LoadedB(s', j', k')
  {
    BlocksApart(job.tk, j, k, blocks, j', k');
    KeepB(job, s, s', j', k', job.BSp(j, k), job.BSp(j, k) + Dims(blocks));
  }

  lemma RewriteBKeepsA(job: Job, s: State, s': State, j: int, k: int, blocks: int, i': int, k': int)
    requires job.Shape() && job.Fits() && 0 <= j < job.tj && 0 <= k < k + blocks <= job.tk && 0 <= i' < job.ti &&
             0 <= k' < job.tk
    requires SameOutside(s, s', job.BSp(j, k), job.BSp(j, k) + Dims(blocks))
    requires job.LoadedA(s, i', k')
    ensures job.LoadedA(s', i', k')
  {
    Regions(job, i', j, k');
    Regions(job, i', j, k);
    KeepA(job, s, s', i', k', job.BSp(j, k), job.BSp(j, k) + Dims(blocks));
  }

  lemma MovedASame(job: Job, s: State, i: int, k: int, blocks: int)
    requires job.Shape() && 0 < blocks
    ensures SameOutside(s, MovedA(job, s, i, k, blocks), job.ASp(i, k), job.ASp(i, k) + Dims(blocks))
  {
    MvinInside(s, job.mem.a, job.a + Dims(i * job.mem.strideA + k), job.mem.strideA, job.ASp(i, k),
               BlockCols(blocks, k + blocks >= job.tk, job.padK), job.RowsI(i), blocks);
  }

  lemma MovedBSame(job: Job, s: State, j: int, k: int, blocks: int)
    requires job.Shape() && 0 < blocks
    ensures SameOutside(s, MovedB(job, s, j, k, blocks), job.BSp(j, k), job.BSp(j, k) + Dims(blocks))
  {
    MvinInside(s, job.mem.b, job.b + Dims(j * job.mem.strideB + k), job.mem.strideB, job.BSp(j, k),
               BlockCols(blocks, k + blocks >= job.tk, job.padK), job.ColsJ(j), blocks);
  }

  lemma MvinInside(s: State, src: seq<int>, base: int, stride: int, sp: int, cols: int, rows: int, blocks: int)
    requires cols <= Dims(blocks)
    ensures SameOutside(s, Mvin(s, src, base, stride, sp, cols, rows), sp, sp + Dims(blocks))
  {
    forall row, col | Filled(row, col, sp, rows, cols) ensures sp <= row < sp + Dims(blocks) {
      FilledInside(row, col, sp, rows, cols, blocks);
    }
  }

  lemma {:induction false} RowDotIsProd(s: State, m: Dram, row: int, n: int, a: int, b: int, k: nat)
    requires forall c :: 0 <= c < k ==> s.spad(row, c) == At(m.a, a + c)
    requires forall c :: 0 <= c < k ==> s.active(n, c) == At(m.b, b + c)
    ensures RowDot(s, MATMUL, row, n, k) == Prod(m, a, b, k)
  {
    if k != 0 {
      RowDotIsProd(s, m, row, n, a, b, k - 1);
    }
  }

  function Multiplied(job: Job, s: State, k: int, j: int, i: int, address: int): State
    requires job.Shape() && 0 <= k < job.tk
  {
    Multiply(s, job.mem.settings, job.ColsJ(j), job.DepthK(k), job.RowsI(i), job.ASp(i, k), address)
  }

  lemma UptoStep(job: Job, k: int)
    requires job.Shape() && 0 <= k < job.tk
    ensures job.Upto(k) == Dims(k) && job.Upto(k + 1) == job.Upto(k) + job.DepthK(k) && 0 < job.DepthK(k) <= DIM
  {
    DimsStep(k);
  }

  lemma MultiplyCell(job: Job, s0: State, s: State, k: int, j: int, i: int, address: int, r: int, c: int, n: nat,
                     n': nat)
    requires job.Shape() && 0 <= k < job.tk && n == job.Upto(k) && n' == job.Upto(k + 1)
    requires job.LoadedA(s, i, k) && job.ActiveB(s, j, k)
    requires AccRow(address) == job.CRow(i, j) && Accumulates(address)
    requires 0 <= r < job.RowsI(i) && 0 <= c < job.ColsJ(j) && job.CellC(s0, s, i, j, r, c, n)
    ensures job.CellC(s0, Multiplied(job, s, k, j, i, address), i, j, r, c, n')
  {
    UptoStep(job, k);
    var a := job.a + (Dims(i) + r) * job.mem.strideA;
    var b := job.b + (Dims(j) + c) * job.mem.strideB;
    var row, depth := job.ASp(i, k) + r, job.DepthK(k);
    forall t | 0 <= t < depth
      ensures s.spad(row, t) == At(job.mem.a, a + n + t)
    {
      assert job.CellA(s, i, k, r, t);
    }
    forall t | 0 <= t < depth
      ensures s.active(c, t) == At(job.mem.b, b + n + t)
    {
      assert job.CellActive(s, j, k, c, t);
    }
    RowDotIsProd(s, job.mem, row, c, a + n, b + n, depth);
    ProdSplit(job.mem, a, b, n, depth);
  }

  lemma MultiplyMiss(job: Job, s: State, k: int, j: int, i: int, address: int, i': int, j': int, r: int, c: int)
    requires job.Shape() && 0 <= j < job.tj && 0 <= k < job.tk && AccRow(address) == job.CRow(i, j)
    requires 0 <= j' < job.tj && (i' != i || j' != j) && 0 <= r < job.RowsI(i')
    ensures Multiplied(job, s, k, j, i, address).acc(job.CRow(i', j') + r, c) == s.acc(job.CRow(i', j') + r, c)
  {
    BlocksApart(job.tj, i, j, 1, i', j');
    DimsStep(0);
  }

  /** A multiply on loaded operands adds the next DIM products to its accumulator block and
      leaves every other accumulator block alone. */
  lemma MultiplyBlock(job: Job, s0: State, s: State, k: int, j: int, i: int, address: int)
    requires job.Shape() && 0 <= i < job.ti && 0 <= j < job.tj && 0 <= k < job.tk
    requires job.LoadedA(s, i, k) && job.ActiveB(s, j, k)
    requires AccRow(address) == job.CRow(i, j) && Accumulates(address)
    requires job.Summed(s0, s, i, j, job.Upto(k))
    ensures job.Summed(s0, Multiplied(job, s, k, j, i, address), i, j, job.Upto(k + 1))
    ensures forall i', j', n: nat ::
              0 <= i' < job.ti && 0 <= j' < job.tj && (i' != i || j' != j) && job.Summed(s0, s, i', j', n) ==>
              job.Summed(s0, Multiplied(job, s, k, j, i, address), i', j', n)
  {
    var s' := Multiplied(job, s, k, j, i, address);
    var n: nat, n': nat := job.Upto(k), job.Upto(k + 1);
    forall r, c | 0 <= r < job.RowsI(i) && 0 <= c < job.ColsJ(j)
      ensures job.CellC(s0, s', i, j, r, c, n')
    {
      assert job.CellC(s0, s, i, j, r, c, n);
      MultiplyCell(job, s0, s, k, j, i, address, r, c, n, n');
    }
    forall i', j', n: nat | 0 <= i' < job.ti && 0 <= j' < job.tj && (i' != i || j' != j) && job.Summed(s0, s, i', j', n)
      ensures job.Summed(s0, s', i', j', n)
    {
      forall r, c | 0 <= r < job.RowsI(i') && 0 <= c < job.ColsJ(j')
        ensures job.CellC(s0, s', i', j', r, c, n)
      {
        assert job.CellC(s0, s, i', j', r, c, n);
        MultiplyMiss(job, s, k, j, i, address, i', j', r, c);
      }
    }
  }

  // ---- the result buffer ----

  /** Offset q * stride + r, with r a remainder, is element (q, r) of the block at offset 0. */
  lemma TouchesOffset(x: int, base: int, stride: int, rows: int, cols: int, q: int, r: int)
    requires 0 < stride && 0 <= r < stride && x - base == q * stride + r
    ensures (x - base) / stride == q && (x - base) % stride == r
    ensures Touches(x, base, stride, rows, cols) <==> 0 <= q < rows && r < cols
  {
    DivModUnique(x - base, stride, q, r);
    MulSign(q, stride);
  }

  /** Element (row, col) of a block lies in the sub-block at (row0, col0) exactly when its
      coordinates do, and is then element (row - row0, col - col0) of it. */
  lemma TouchesCell(x: int, base: int, origin: int, stride: int, row0: int, col0: int, rows: int, cols: int, row: int,
                    col: int)
    requires 0 <= col0 && 0 <= cols && col0 + cols <= stride && 0 <= col < stride && 0 < stride && 0 <= rows
    requires x == origin + row * stride + col && base == origin + row0 * stride + col0
    ensures Touches(x, base, stride, rows, cols) <==> row0 <= row < row0 + rows && col0 <= col < col0 + cols
    ensures Touches(x, base, stride, rows, cols) ==>
              (x - base) / stride == row - row0 && (x - base) % stride == col - col0
  {
    if col0 <= col {
      assert x - base == (row - row0) * stride + (col - col0);
      TouchesOffset(x, base, stride, rows, cols, row - row0, col - col0);
    } else {
      assert x - base == (row - row0 - 1) * stride + (col - col0 + stride);
      TouchesOffset(x, base, stride, rows, cols, row - row0 - 1, col - col0 + stride);
    }
  }

  /** A sub-block touches nothing outside the block that contains it. */
  lemma TouchesOnlyInside(x: int, base: int, origin: int, stride: int, row0: int, col0: int, rows: int, cols: int,
                          allRows: int, allCols: int)
    requires 0 <= row0 && row0 + rows <= allRows && 0 <= col0 && col0 + cols <= allCols <= stride
    requires base == origin + row0 * stride + col0 && Touches(x, base, stride, rows, cols)
    ensures Touches(x, origin, stride, allRows, allCols)
  {
    var q, r := (x - base) / stride, (x - base) % stride;
    assert x - base == q * stride + r;
    MulSign(q, stride);
    assert x - origin == (q + row0) * stride + (r + col0);
    TouchesOffset(x, origin, stride, allRows, allCols, q + row0, r + col0);
  }

  function Address(job: Job, row: int, col: int): int
    requires job.out.Some?
  { job.out.value + row * job.mem.strideC + col }

  /** The accumulator value that block element (i, j, r, c) reaches, starting from s0. */
  function Total(job: Job, s0: State, i: int, j: int, r: int, c: int): int
    requires job.Shape()
  { s0.acc(job.CRow(i, j) + r, c) + job.Element(Dims(i) + r, Dims(j) + c, job.Depth()) }

  predicate CellStored(job: Job, s0: State, s: State, i: int, j: int, r: int, c: int)
    requires job.Shape() && job.out.Some?
  {
    var x := Address(job, Dims(i) + r, Dims(j) + c);
    s.c(x) == Output(job.mem.stage, job.full, Total(job, s0, i, j, r, c)) && s.stores(x) == s0.stores(x) + 1
  }

  predicate CellUntouched(job: Job, s0: State, s: State, i: int, j: int, r: int, c: int)
    requires job.out.Some?
  {
    var x := Address(job, Dims(i) + r, Dims(j) + c);
    s.c(x) == s0.c(x) && s.stores(x) == s0.stores(x)
  }

  ghost predicate Stored(job: Job, s0: State, s: State, i: int, j: int)
    requires job.Shape() && job.out.Some?
  {
    forall r, c :: 0 <= r < job.RowsI(i) && 0 <= c < job.ColsJ(j) ==> CellStored(job, s0, s, i, j, r, c)
  }

  ghost predicate Untouched(job: Job, s0: State, s: State, i: int, j: int)
    requires job.out.Some?
  {
    forall r, c :: 0 <= r < job.RowsI(i) && 0 <= c < job.ColsJ(j) ==> CellUntouched(job, s0, s, i, j, r, c)
  }

  ghost predicate OutsideUntouched(job: Job, s0: State, s: State)
    requires job.out.Some?
  {
    forall x :: !Touches(x, job.out.value, job.mem.strideC, job.Rows(), job.Cols()) ==>
      s.c(x) == s0.c(x) && s.stores(x) == s0.stores(x)
  }

  function MovedOut(job: Job, s: State, i: int, rj: int, blocks: int, address: int): State
    requires job.out.Some?
  {
    Mvout(s, job.mem.stage, job.out.value + Dims(i * job.mem.strideC + rj), job.mem.strideC, address,
          BlockCols(blocks, rj + blocks >= job.tj, job.padJ), job.RowsI(i))
  }

  /** A group of result blocks that is moved out stores the elements of its blocks ... */
  lemma MovedOutHit(job: Job, s: State, i: int, rj: int, blocks: int, address: int, j: int, r: int, c: int)
    requires job.Shape() && job.out.Some? && job.Cols() <= job.mem.strideC && 0 <= i < job.ti &&
             0 <= rj <= j < rj + blocks <= job.tj
    requires AccRow(address) == job.CRow(i, rj) && ReadsFull(address) == job.full && 0 <= r < job.RowsI(i) &&
             0 <= c < job.ColsJ(j)
    ensures var s', x := MovedOut(job, s, i, rj, blocks, address), Address(job, Dims(i) + r, Dims(j) + c);
            s'.c(x) == Output(job.mem.stage, job.full, s.acc(job.CRow(i, j) + r, c)) && s'.stores(x) == s.stores(x) + 1
  {
    var x, base := Address(job, Dims(i) + r, Dims(j) + c), job.out.value + Dims(i * job.mem.strideC + rj);
    var cols := BlockCols(blocks, rj + blocks >= job.tj, job.padJ);
    BlockRun(job.tj, i, rj, j);
    MovedOutWhere(job, i, rj, blocks, i, j, r, c);
    MvoutAt(s, job.mem.stage, base, job.mem.strideC, address, cols, job.RowsI(i), x, j - rj, r, c);
    assert AccRow(address) + Dims(j - rj) == job.CRow(i, j);
  }

  /** ... and no other element of the tile. */
  lemma MovedOutMiss(job: Job, s: State, i: int, rj: int, blocks: int, address: int, i': int, j': int, r: int, c: int)
    requires job.Shape() && job.out.Some? && job.Cols() <= job.mem.strideC && 0 <= i < job.ti &&
             0 <= rj < rj + blocks <= job.tj
    requires 0 <= i' < job.ti && 0 <= j' < job.tj && 0 <= r < job.RowsI(i') && 0 <= c < job.ColsJ(j')
    requires i' != i || j' < rj || rj + blocks <= j'
    ensures var s', x := MovedOut(job, s, i, rj, blocks, address), Address(job, Dims(i') + r, Dims(j') + c);
            s'.c(x) == s.c(x) && s'.stores(x) == s.stores(x)
  {
    MovedOutWhere(job, i, rj, blocks, i', j', r, c);
  }

  /** A group of result blocks touches an element exactly if the element's block is one of them. */
  lemma MovedOutWhere(job: Job, i: int, rj: int, blocks: int, i': int, j': int, r: int, c: int)
    requires job.Shape() && job.out.Some? && job.Cols() <= job.mem.strideC && 0 <= i < job.ti &&
             0 <= rj < rj + blocks <= job.tj
    requires 0 <= i' < job.ti && 0 <= j' < job.tj && 0 <= r < job.RowsI(i') && 0 <= c < job.ColsJ(j')
    ensures var x, base := Address(job, Dims(i') + r, Dims(j') + c), job.out.value + Dims(i * job.mem.strideC + rj);
      && (Touches(x, base, job.mem.strideC, job.RowsI(i), BlockCols(blocks, rj + blocks >= job.tj, job.padJ))
          <==> i' == i && rj <= j' < rj + blocks)
      && (i' == i && rj <= j' < rj + blocks ==>
            (x - base) / job.mem.strideC == r && (x - base) % job.mem.strideC == Dims(j' - rj) + c)
  {
    var rows, cols := job.RowsI(i), BlockCols(blocks, rj + blocks >= job.tj, job.padJ);
    OutBase(job, i, rj);
    OutBlock(job, rj, blocks);
    ColumnInside(job, j', c);
    TouchesCell(Address(job, Dims(i') + r, Dims(j') + c), job.out.value + Dims(i * job.mem.strideC + rj), job.out.value,
                job.mem.strideC, Dims(i), Dims(rj), rows, cols,
                Dims(i') + r, Dims(j') + c);
    RowInBlock(i, rows, i', r);
    ColInBlocks(rj, blocks, rj + blocks >= job.tj, job.padJ, j', c);
    DimsSum(rj, j' - rj);
  }

  /** Where a group of result blocks starts, and that its columns are columns of the tile. */
  lemma OutBase(job: Job, i: int, rj: int)
    requires job.out.Some?
    ensures job.out.value + Dims(i * job.mem.strideC + rj) == job.out.value + Dims(i) * job.mem.strideC + Dims(rj)
  {
    DimsSum(i * job.mem.strideC, rj);
    DimsScaled(i, job.mem.strideC);
  }

  lemma OutBlock(job: Job, rj: int, blocks: int)
    requires job.Shape() && 0 <= rj < rj + blocks <= job.tj
    ensures var cols := BlockCols(blocks, rj + blocks >= job.tj, job.padJ);
            0 < cols <= Dims(blocks) && 0 <= Dims(rj) && Dims(rj) + cols <= job.Cols()
  {
    DimsMono(0, rj);
    DimsMono(1, blocks);
    DimsSum(rj, blocks);
    DimsMono(rj + blocks, job.tj);
  }

  lemma ColumnInside(job: Job, j: int, c: int)
    requires job.Shape() && 0 <= j < job.tj && 0 <= c < job.ColsJ(j)
    ensures 0 <= Dims(j) + c < job.Cols()
  {
    DimsMono(0, j);
    DimsMono(j, job.tj - 1);
    DimsMono(j, job.tj);
    DimsStep(job.tj - 1);
  }

  /** What a move-out stores in result element x, element (r, t * DIM + c) of the block. */
  lemma MvoutAt(s: State, stage: int -> int, base: int, stride: int, address: int, cols: int, rows: int, x: int, t: int,
                r: int, c: int)
    requires 0 <= c < DIM && Touches(x, base, stride, rows, cols)
    requires (x - base) / stride == r && (x - base) % stride == Dims(t) + c
    ensures var s' := Mvout(s, stage, base, stride, address, cols, rows);
            s'.c(x) == Output(stage, ReadsFull(address), s.acc(AccRow(address) + Dims(t) + r, c)) &&
              s'.stores(x) == s.stores(x) + 1
  {
    InBlock(t, c);
    assert LocalElement(s, AccRow(address), r, Dims(t) + c) == s.acc(AccRow(address) + Dims(t) + r, c);
  }

  /** An element's block coordinates decide whether it lies in a block row ... */
  lemma RowInBlock(i: int, rows: int, i': int, r: int)
    requires 0 <= r < DIM && rows <= DIM && (i' == i ==> r < rows)
    ensures Dims(i) <= Dims(i') + r < Dims(i) + rows <==> i' == i
  {
    DimsMono(i, i');
    DimsMono(i', i);
  }

  /** ... and in a run of block columns. */
  lemma ColInBlocks(rj: int, blocks: int, last: bool, pad: int, j: int, c: int)
    requires 0 < blocks && 0 <= c < DIM && 0 <= pad < DIM && (last ==> j < rj + blocks)
    requires last && j == rj + blocks - 1 ==> c < DIM - pad
    ensures Dims(rj) <= Dims(j) + c < Dims(rj) + BlockCols(blocks, last, pad) <==> rj <= j < rj + blocks
  {
    var top := rj + blocks;
    DimsSum(rj, blocks);
    DimsStep(top - 1);
    if j < rj {
      DimsMono(j, rj);
    } else if j < top {
      DimsMono(rj, j);
      DimsMono(j, top - 1);
    } else {
      DimsMono(top, j);
    }
  }

  /** Moving out blocks rj .. rj+blocks of block row i stores each of their elements once ... */
  lemma MoveOutStores(job: Job, s0: State, s: State, i: int, rj: int, blocks: int, address: int, j': int)
    requires job.Shape() && job.out.Some? && job.Cols() <= job.mem.strideC && 0 <= i < job.ti &&
             0 <= rj <= j' < rj + blocks <= job.tj
    requires AccRow(address) == job.CRow(i, rj) && ReadsFull(address) == job.full
    requires job.Summed(s0, s, i, j', job.Depth()) && Untouched(job, s0, s, i, j')
    ensures Stored(job, s0, MovedOut(job, s, i, rj, blocks, address), i, j')
  {
    var n: nat, s' := job.Depth(), MovedOut(job, s, i, rj, blocks, address);
    forall r, c | 0 <= r < job.RowsI(i) && 0 <= c < job.ColsJ(j')
      ensures CellStored(job, s0, s', i, j', r, c)
    {
      assert job.CellC(s0, s, i, j', r, c, n);
      assert CellUntouched(job, s0, s, i, j', r, c);
      MovedOutHit(job, s, i, rj, blocks, address, j', r, c);
    }
  }

  /** ... and touches no other block. */
  lemma MoveOutKeeps(job: Job, s0: State, s: State, i: int, rj: int, blocks: int, address: int, i': int, j': int)
    requires job.Shape() && job.out.Some? && job.Cols() <= job.mem.strideC && 0 <= i < job.ti &&
             0 <= rj < rj + blocks <= job.tj
    requires AccRow(address) == job.CRow(i, rj) && ReadsFull(address) == job.full
    requires 0 <= i' < job.ti && 0 <= j' < job.tj && (i' != i || j' < rj || rj + blocks <= j')
    ensures var s' := MovedOut(job, s, i, rj, blocks, address);
            && (Stored(job, s0, s, i', j') ==> Stored(job, s0, s', i', j'))
            && (Untouched(job, s0, s, i', j') ==> Untouched(job, s0, s', i', j'))
  {
    var s' := MovedOut(job, s, i, rj, blocks, address);
    forall r, c | 0 <= r < job.RowsI(i') && 0 <= c < job.ColsJ(j')
      ensures CellStored(job, s0, s, i', j', r, c) ==> CellStored(job, s0, s', i', j', r, c)
      ensures CellUntouched(job, s0, s, i', j', r, c) ==> CellUntouched(job, s0, s', i', j', r, c)
    {
      MovedOutMiss(job, s, i, rj, blocks, address, i', j', r, c);
    }
  }

  lemma MoveOutInside(job: Job, s: State, i: int, rj: int, blocks: int, address: int)
    requires job.Shape() && job.out.Some? && job.Cols() <= job.mem.strideC && 0 <= i < job.ti &&
             0 <= rj < rj + blocks <= job.tj
    ensures OutsideUntouched(job, s, MovedOut(job, s, i, rj, blocks, address))
  {
    var stride := job.mem.strideC;
    var rows, cols := job.RowsI(i), BlockCols(blocks, rj + blocks >= job.tj, job.padJ);
    var base := job.out.value + Dims(i * stride + rj);
    OutBase(job, i, rj);
    OutBlock(job, rj, blocks);
    RowsInside(job, i);
    forall x | !Touches(x, job.out.value, stride, job.Rows(), job.Cols())
      ensures !Touches(x, base, stride, rows, cols)
    {
      if Touches(x, base, stride, rows, cols) {
        TouchesOnlyInside(x, base, job.out.value, stride, Dims(i), Dims(rj), rows, cols, job.Rows(), job.Cols());
      }
    }
  }

  lemma RowsInside(job: Job, i: int)
    requires job.Shape() && 0 <= i < job.ti
    ensures 0 <= Dims(i) && Dims(i) + job.RowsI(i) <= job.Rows()
  {
    DimsMono(0, i);
    DimsMono(i, job.ti - 1);
    DimsMono(i + 1, job.ti - 1);
    DimsStep(i);
    DimsStep(job.ti - 1);
  }
}
