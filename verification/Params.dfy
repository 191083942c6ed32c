/** The hardware constants of the parameter headers and the index arithmetic they give rise to. */
module Params {

  /** One parameter header: the size of the array, the scratchpad and accumulator sizes in rows, and
      the block limits of one move-in, and whether the first-layer optimizations are there. */
  datatype Hardware = Hardware(dim: int, bankNum: int, bankRows: int, accRows: int, maxBlockLen: int,
                               maxBlockLenAcc: int,
                               firstLayer: bool)

  /** What the code needs of a header. The tile search starts from a positive square tile, local row
      numbers leave the flag bits of an address alone, and a block count fits 16 bits. */
  predicate Sound(h: Hardware) {
    && 0 < h.dim && 0 < h.bankNum && 0 < h.bankRows && 0 < h.accRows && h.accRows % 2 == 0
    && 0 < h.maxBlockLen && 0 < h.maxBlockLenAcc
    && 2 * h.dim <= h.accRows && 2 * h.accRows <= h.bankNum * h.bankRows <= 0xFFFF * h.dim
    && h.bankNum * h.bankRows <= 0x2000_0000
  }

  const HEADER := Hardware(16, 4, 4096, 1024, 4, 1, true)
  const HEADER_EE290 := Hardware(32, 4, 2048, 512, 2, 1, false)
  const HEADER_EE290_SMALLSP := Hardware(32, 4, 1024, 256, 2, 1, false)

  /** What follows from the constants of a header: scratchpad and accumulator in bytes, for 8-bit elements and 32-bit
      sums, and the blocks of 8-bit and of 32-bit elements in one transfer of `maxBytes`. */
  predicate Capacities(h: Hardware, spadBytes: int, accBytes: int, maxBytes: int)
    requires 0 < h.dim
  {
    && h.bankNum * h.bankRows * h.dim == spadBytes && h.accRows * h.dim * 4 == accBytes
    && h.maxBlockLen == maxBytes / h.dim
  }

  /** The three headers of the repository are sound; their sizes. */
  lemma HeadersAreSound()
    ensures Sound(HEADER) && Sound(HEADER_EE290) && Sound(HEADER_EE290_SMALLSP)
    ensures HEADER.dim == 16 && Capacities(HEADER, 0x40000, 0x10000, 64) && HEADER.maxBlockLenAcc == 64 / (16 * 4)
    ensures HEADER_EE290.dim == 32 && Capacities(HEADER_EE290, 0x40000, 0x10000, 64)
    ensures HEADER_EE290_SMALLSP.dim == 32 && Capacities(HEADER_EE290_SMALLSP, 0x20000, 0x8000, 64)
  {}

  type Config = h: Hardware | Sound(h) witness HEADER
  type pos = x: int | 0 < x witness 1

  /** The header in use: any sound one. */
  const HARDWARE: Config

  const DIM: pos := HARDWARE.dim
  const BANK_NUM: pos := HARDWARE.bankNum
  const BANK_ROWS: pos := HARDWARE.bankRows
  const ACC_ROWS: pos := HARDWARE.accRows
  const MAX_BLOCK_LEN: pos := HARDWARE.maxBlockLen
  const MAX_BLOCK_LEN_ACC: pos := HARDWARE.maxBlockLenAcc
  const FIRST_LAYER_OPTIMIZATIONS: bool := HARDWARE.firstLayer
  const SPAD_ROWS: int := BANK_NUM * BANK_ROWS
  const ELEM_MAX := 127
  const ELEM_MIN := -128

  datatype Option<+T> = None | Some(value: T)

  function Min(x: int, y: int): int { if x <= y then x else y }

  lemma MulSign(q: int, d: int)
    requires 0 < d
    ensures q * d == (q - 1) * d + d == (q + 1) * d - d
    ensures 0 <= q ==> 0 <= q * d
    ensures q < 0 ==> q * d <= -d
  {
    MulMono(0, q, d);
    MulMono(q, -1, d);
  }

  /** Blocks of DIM needed to cover n elements: `n / DIM + (n % DIM != 0)`. */
  function Blocks(n: int): int { n / DIM + if n % DIM != 0 then 1 else 0 }

  /** The size of n blocks. Proofs about block positions use it with the lemmas below. */
  function Dims(n: int): int { n * DIM }

  lemma DimsSum(x: int, y: int)
    ensures Dims(x + y) == Dims(x) + Dims(y)
  {}

  lemma DimsStep(n: int)
    ensures Dims(n + 1) == Dims(n) + DIM
  {}

  lemma DimsMono(x: int, y: int)
    ensures x <= y ==> Dims(x) <= Dims(y)
    ensures x < y ==> Dims(x) + DIM <= Dims(y)
  {
    MulMono(x, y, DIM);
    MulMono(x + 1, y, DIM);
    DimsStep(x);
  }

  /** Element r of block t. */
  lemma InBlock(t: int, r: int)
    requires 0 <= r < DIM
    ensures (Dims(t) + r) / DIM == t && (Dims(t) + r) % DIM == r
  {
    DivModUnique(Dims(t) + r, DIM, t, r);
  }

  lemma BlockOf(x: int)
    ensures x == Dims(x / DIM) + x % DIM && 0 <= x % DIM < DIM
  {}

  /** n blocks short by less than one are covered by n blocks. */
  lemma BlocksOf(n: int, pad: int)
    requires 0 <= pad < DIM
    ensures Blocks(Dims(n) - pad) == n
  {
    DimsStep(n - 1);
    if pad == 0 {
      InBlock(n, 0);
    } else {
      InBlock(n - 1, DIM - pad);
    }
  }

  /** The blocks that cover n elements, and what of them is left over. */
  lemma BlocksCover(n: int)
    ensures n <= Dims(Blocks(n)) < n + DIM
  {
    BlockOf(n);
    DimsStep(n / DIM);
  }

  /** Division is determined by quotient and remainder. */
  lemma DivModUnique(x: int, d: int, q: int, r: int)
    requires d > 0 && 0 <= r < d && x == q * d + r
    ensures x / d == q && x % d == r
  {
    var e := q - x / d;
    assert e * d == x % d - r by {
      assert x == d * (x / d) + x % d;
      assert e * d == q * d - d * (x / d);
    }
    MulMono(1, e, d);
    MulMono(e, -1, d);
  }

  /** Row-major indices of a table with `width` columns are distinct. */
  lemma RowMajorInjective(width: int, i: int, j: int, i': int, j': int)
    requires 0 <= j < width && 0 <= j' < width
    requires i * width + j == i' * width + j'
    ensures i == i' && j == j'
  {
    DivModUnique(i * width + j, width, i, j);
    DivModUnique(i * width + j, width, i', j');
  }

  /** A row-major index stays inside its table. */
  lemma RowMajorBound(height: int, width: int, i: int, j: int)
    requires 0 <= i < height && 0 <= j < width
    ensures 0 <= i * width + j < height * width
  {
    assert i * width >= 0;
    assert (i + 1) * width <= height * width by { MulMono(i + 1, height, width); }
  }

  /** In a table of blocks, block (i', j') lies before or after the run of `blocks` blocks
      that starts at (i, j), unless it is one of them. */
  lemma RowMajorApart(width: int, i: int, j: int, blocks: int, i': int, j': int)
    requires 0 <= j && 0 <= blocks && j + blocks <= width && 0 <= j' < width
    requires i' != i || j' < j || j + blocks <= j'
    ensures i' * width + j' + 1 <= i * width + j || i * width + j + blocks <= i' * width + j'
  {
    MulMono(i' + 1, i, width);
    MulMono(i + 1, i', width);
    assert (i + 1) * width == i * width + width && (i' + 1) * width == i' * width + width;
  }

  lemma MulMono(x: int, y: int, z: int)
    ensures x <= y && 0 <= z ==> x * z <= y * z && z * x <= z * y
  {
    if x <= y && 0 <= z {
      assert (y - x) * z >= 0;
    }
  }
}
