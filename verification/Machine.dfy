/** The accelerator behind the `cosim_*` calls, which the repository declares but leaves as
    empty stubs: a scratchpad and an accumulator of DIM-wide rows, and a shadow and an active
    weight tile. This machine is an assumption of the model; every result about a command
    stream is relative to it. */
module Machine {
  import opened Params

  /** A local memory, by row and column. */
  type Grid = (int, int) -> int

  /** Bits 31, 30 and 29 of a local address. */
  const ACC_BIT := 0x8000_0000
  const ACCUMULATE_BIT := 0x4000_0000
  const FULL_BIT := 0x2000_0000

  predicate Accumulates(address: int) { address / ACCUMULATE_BIT % 2 == 1 }
  predicate ReadsFull(address: int) { address / FULL_BIT % 2 == 1 }
  function AccRow(address: int): int { address % FULL_BIT }

  /** An address that selects the accumulator. */
  predicate IsAccAddress(address: int) { address / ACC_BIT == 1 }

  /** The addresses `(1 << 31) + row`, `(3 << 30) + row` and, for full-width results, `(3 << 30) + (1 << 29) + row`. */
  lemma AccAddress(row: int, full: bool)
    requires 0 <= row < 0x2000_0000
    ensures var d := 0x8000_0000 + row;
            AccRow(d) == row && !Accumulates(d) && IsAccAddress(d)
    ensures var c := 0xC000_0000 + (if full then 0x2000_0000 else 0) + row;
            AccRow(c) == row && Accumulates(c) && ReadsFull(c) == full && IsAccAddress(c)
  {}

  /** How a row of the left operand lies in the scratchpad: in one scratchpad row, or packed, one
      pixel of `channels` elements in each of several consecutive rows. */
  datatype Packing = Plain | Packed(channels: pos)

  /** The settings of the array that the two lowerings use differently: scratchpad rows from one row
      of the left operand to the next, its packing, and whether the weights lie by row of the weight
      matrix or by column. */
  datatype Settings = Settings(aStride: int, packing: Packing, weightsByColumn: bool)

  const MATMUL := Settings(1, Plain, false)

  /** Main memory: the three operands with their row strides, the stride of the result, whether the
      elements of D are narrow, the output stage (scaling, saturation, activation) that a move-out of
      narrow results applies, and the settings of the array. */
  datatype Dram = Dram(a: seq<int>, b: seq<int>, d: seq<int>,
                       strideA: nat, strideB: nat, strideD: nat, strideC: nat, lenC: nat, lowD: bool,
                       stage: int -> int, settings: Settings)
  {
    /** The most blocks that a move-in of D takes. */
    function BiasBlocks(): pos { if lowD then MAX_BLOCK_LEN else MAX_BLOCK_LEN_ACC }
  }

  /** `c` is the result buffer; `stores` counts how often each of its elements was written. */
  datatype State = State(spad: Grid, acc: Grid, shadow: Grid, active: Grid,
                         c: int -> int, stores: int -> int)

  function At(s: seq<int>, address: int): int {
    if 0 <= address < |s| then s[address] else 0
  }

  /** A rows x cols block at `base` lies inside a buffer of `len` elements. */
  predicate InBounds(len: int, base: int, stride: int, rows: int, cols: int) {
    && 0 <= base
    && (0 < rows && 0 < cols ==> base + (rows - 1) * stride + cols <= len)
  }

  /** Element x of a buffer belongs to the rows x cols block at `base`. */
  predicate Touches(x: int, base: int, stride: int, rows: int, cols: int) {
    && 0 < stride
    && 0 <= x - base
    && (x - base) / stride < rows
    && (x - base) % stride < cols
  }

  /** Column `col` of local row `row` is filled by a block move to local row `sp`: the DIM-column
      blocks of the source land DIM rows apart, so that what precedes local row `row` in whole blocks
      of rows is what precedes its elements in whole blocks of columns. */
  predicate Filled(row: int, col: int, sp: int, rows: int, cols: int) {
    var r := (row - sp) % DIM;
    0 <= row - sp && 0 <= col < DIM && r < rows && row - sp - r + col < cols
  }

  function MovedElement(src: seq<int>, base: int, stride: int, row: int, col: int, sp: int): int {
    var r := (row - sp) % DIM;
    At(src, base + r * stride + (row - sp - r + col))
  }

  function Mvin(s: State, src: seq<int>, base: int, stride: int, sp: int, cols: int, rows: int): State {
    s.(spad := (row, col) => if Filled(row, col, sp, rows, cols)
                             then MovedElement(src, base, stride, row, col, sp)
                             else s.spad(row, col))
  }

  /** A move-in from a NULL address. */
  function MvinZeros(s: State, sp: int, cols: int, rows: int): State {
    s.(spad := (row, col) => if Filled(row, col, sp, rows, cols) then 0 else s.spad(row, col))
  }

  function MvinAcc(s: State, src: seq<int>, base: int, stride: int, address: int, cols: int, rows: int): State {
    var sp := AccRow(address);
    s.(acc := (row, col) => if Filled(row, col, sp, rows, cols)
                            then (if Accumulates(address) then s.acc(row, col) else 0)
                                 + MovedElement(src, base, stride, row, col, sp)
                            else s.acc(row, col))
  }

  function MvinAccZeros(s: State, address: int, cols: int, rows: int): State {
    var sp := AccRow(address);
    s.(acc := (row, col) => if Filled(row, col, sp, rows, cols)
                            then (if Accumulates(address) then s.acc(row, col) else 0)
                            else s.acc(row, col))
  }

  function Preload(s: State, cfg: Settings, n: int, k: int, sp: int): State {
    s.(shadow := (row, col) => if 0 <= row < n && 0 <= col < k
                               then (if cfg.weightsByColumn then s.spad(sp + col, row) else s.spad(sp + row, col))
                               else 0)
  }

  function Flip(s: State): State { s.(active := s.shadow) }

  /** Element t of the left operand's row that starts at scratchpad row `row`. */
  function LeftElement(s: State, cfg: Settings, row: int, t: int): int {
    match cfg.packing
    case Plain => s.spad(row, t)
    case Packed(channels) => s.spad(row + t / channels, t % channels)
  }

  /** Inner product of a row of the left operand with row `n` of the active weight tile. */
  function RowDot(s: State, cfg: Settings, row: int, n: int, k: nat): int {
    if k == 0 then 0 else RowDot(s, cfg, row, n, k - 1) + LeftElement(s, cfg, row, k - 1) * s.active(n, k - 1)
  }

  function Multiply(s: State, cfg: Settings, n: int, k: nat, m: int, a: int, out: int): State {
    var base := AccRow(out);
    s.(acc := (row, col) => if base <= row < base + m && 0 <= col < n
                            then (if Accumulates(out) then s.acc(row, col) else 0)
                                 + RowDot(s, cfg, a + (row - base) * cfg.aStride, col, k)
                            else s.acc(row, col))
  }

  function Output(stage: int -> int, full: bool, v: int): int { if full then v else stage(v) }

  /** Element (r, c) of the block at accumulator row sp. */
  function LocalElement(s: State, sp: int, r: int, c: int): int {
    var col := c % DIM;
    s.acc(sp + (c - col) + r, col)
  }

  function Mvout(s: State, stage: int -> int, base: int, stride: int, address: int, cols: int, rows: int): State {
    var sp := AccRow(address);
    s.(c := x => if Touches(x, base, stride, rows, cols)
                 then Output(stage, ReadsFull(address), LocalElement(s, sp, (x - base) / stride, (x - base) % stride))
                 else s.c(x),
       stores := x => if Touches(x, base, stride, rows, cols) then s.stores(x) + 1 else s.stores(x))
  }

  /** Scratchpad rows that one row of the left operand takes. */
  function LeftRows(cfg: Settings, k: nat): int {
    match cfg.packing
    case Plain => 1
    case Packed(channels) => if k == 0 then 1 else (k - 1) / channels + 1
  }

  /** The most blocks that a move-out takes: full-width results go one block at a time. */
  function OutBlocks(address: int): pos { if ReadsFull(address) then 1 else MAX_BLOCK_LEN }

  /** A block move stays inside a local memory of `size` rows: whole groups of DIM rows, but for the
      last group, of which it takes `rows`. */
  predicate BlockInside(size: int, sp: int, cols: int, rows: int) {
    0 <= sp && sp + Dims(Blocks(cols)) - DIM + rows <= size
  }

  /** The scratchpad rows that a multiply and a preload read. */
  predicate LeftInside(cfg: Settings, k: nat, m: int, a: int) {
    0 <= a && 0 <= cfg.aStride && a + (m - 1) * cfg.aStride + LeftRows(cfg, k) <= SPAD_ROWS
  }

  predicate WeightsInside(cfg: Settings, n: int, k: int, sp: int) {
    0 <= sp && sp + (if cfg.weightsByColumn then k else n) <= SPAD_ROWS
  }

  /** The device: each `cosim_*` call is a method whose preconditions say that it stays inside
      the buffers and the local memories. */
  class Gemmini {
    const mem: Dram
    var st: State

    constructor (mem: Dram, st: State)
      ensures this.mem == mem && this.st == st
    {
      this.mem := mem;
      this.st := st;
    }

    method MoveInA(base: int, sp: int, cols: int, rows: int)
      requires InBounds(|mem.a|, base, mem.strideA, rows, cols)
      requires 0 <= rows <= DIM && 0 <= cols <= Dims(MAX_BLOCK_LEN)
      requires BlockInside(SPAD_ROWS, sp, cols, rows)
      modifies this
      ensures st == Mvin(old(st), mem.a, base, mem.strideA, sp, cols, rows)
    {
      st := Mvin(st, mem.a, base, mem.strideA, sp, cols, rows);
    }

    method MoveInB(base: int, sp: int, cols: int, rows: int)
      requires InBounds(|mem.b|, base, mem.strideB, rows, cols)
      requires 0 <= rows <= DIM && 0 <= cols <= Dims(MAX_BLOCK_LEN)
      requires BlockInside(SPAD_ROWS, sp, cols, rows)
      modifies this
      ensures st == Mvin(old(st), mem.b, base, mem.strideB, sp, cols, rows)
    {
      st := Mvin(st, mem.b, base, mem.strideB, sp, cols, rows);
    }

    method MoveInZeros(sp: int, cols: int, rows: int)
      requires 0 <= rows <= DIM && 0 <= cols <= Dims(MAX_BLOCK_LEN) && BlockInside(SPAD_ROWS, sp, cols, rows)
      modifies this
      ensures st == MvinZeros(old(st), sp, cols, rows)
    {
      st := MvinZeros(st, sp, cols, rows);
    }

    method MoveInAcc(base: int, address: int, cols: int, rows: int)
      requires InBounds(|mem.d|, base, mem.strideD, rows, cols)
      requires 0 <= rows <= DIM && 0 <= cols <= Dims(if mem.lowD then MAX_BLOCK_LEN else MAX_BLOCK_LEN_ACC)
      requires IsAccAddress(address) && BlockInside(ACC_ROWS, AccRow(address), cols, rows)
      modifies this
      ensures st == MvinAcc(old(st), mem.d, base, mem.strideD, address, cols, rows)
    {
      st := MvinAcc(st, mem.d, base, mem.strideD, address, cols, rows);
    }

    method MoveInAccZeros(address: int, cols: int, rows: int)
      requires 0 <= rows <= DIM && 0 <= cols <= Dims(if mem.lowD then MAX_BLOCK_LEN else MAX_BLOCK_LEN_ACC)
      requires IsAccAddress(address) && BlockInside(ACC_ROWS, AccRow(address), cols, rows)
      modifies this
      ensures st == MvinAccZeros(old(st), address, cols, rows)
    {
      st := MvinAccZeros(st, address, cols, rows);
    }

    method PreloadWeights(n: int, k: int, sp: int)
      requires 0 <= n <= DIM && 0 <= k <= DIM && WeightsInside(mem.settings, n, k, sp)
      modifies this
      ensures st == Preload(old(st), mem.settings, n, k, sp)
    {
      st := Preload(st, mem.settings, n, k, sp);
    }

    method MatrixMultiply(n: int, k: nat, m: int, a: int, out: int)
      requires 0 <= n <= DIM && k <= DIM && 0 <= m <= DIM && LeftInside(mem.settings, k, m, a)
      requires IsAccAddress(out) && AccRow(out) + m <= ACC_ROWS
      modifies this
      ensures st == Multiply(old(st), mem.settings, n, k, m, a, out)
    {
      st := Multiply(st, mem.settings, n, k, m, a, out);
    }

    method MatrixMultiplyFlip(n: int, k: nat, m: int, a: int, out: int)
      requires 0 <= n <= DIM && k <= DIM && 0 <= m <= DIM && LeftInside(mem.settings, k, m, a)
      requires IsAccAddress(out) && AccRow(out) + m <= ACC_ROWS
      modifies this
      ensures st == Multiply(Flip(old(st)), mem.settings, n, k, m, a, out)
    {
      st := Multiply(Flip(st), mem.settings, n, k, m, a, out);
    }

    method MoveOut(base: int, address: int, cols: int, rows: int)
      requires InBounds(mem.lenC, base, mem.strideC, rows, cols)
      requires 0 <= rows <= DIM && 0 <= cols <= mem.strideC
      requires cols <= Dims(if ReadsFull(address) then 1 else MAX_BLOCK_LEN)
      requires IsAccAddress(address) && BlockInside(ACC_ROWS, AccRow(address), cols, rows)
      modifies this
      ensures st == Mvout(old(st), mem.stage, base, mem.strideC, address, cols, rows)
    {
      st := Mvout(st, mem.stage, base, mem.strideC, address, cols, rows);
    }
  }
}
