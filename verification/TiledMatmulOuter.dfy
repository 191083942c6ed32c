/** The driver `tiled_matmul_outer`: a matmul of any size as tiles over one machine. */
module TiledMatmulOuter {
  import opened Params
  import opened Machine
  import opened TiledMatmul
  import opened TiledMatmulLoop

  /** The arguments of a run. `hasBias` is D != NULL. */
  datatype Problem = Problem(mem: Dram, dimI: nat, dimJ: nat, dimK: nat,
                             tileI: nat, tileJ: nat, tileK: nat,
                             hasBias: bool, full: bool, repeating: bool)
  {
    predicate Valid() { LegalButB() && InBounds(|mem.b|, 0, mem.strideB, dimJ, dimK) }

    /** All that the call asks for, except that B is large enough. */
    predicate LegalButB() {
      && 0 < dimI && 0 < dimJ && 0 < dimK && 0 < tileI && 0 < tileJ && 0 < tileK
      && mem.settings == MATMUL
      && Dims(tileI * tileK + tileK * tileJ) <= SPAD_ROWS
      && Dims(tileI * tileJ) <= ACC_ROWS
      && InBounds(|mem.a|, 0, mem.strideA, dimI, dimK)
      && (hasBias ==> InBounds(|mem.d|, 0, mem.strideD, dimI, dimJ))
      && (repeating ==> mem.strideD == 0)
      && InBounds(mem.lenC, 0, mem.strideC, dimI, dimJ) && dimJ <= mem.strideC
    }

    /** A * B^T (B is stored as a J x K matrix). */
    function Product(row: int, col: int): int {
      Prod(mem, row * mem.strideA, col * mem.strideB, dimK)
    }

    function Bias(row: int, col: int): int { At(mem.d, row * mem.strideD + col) }

    /** The result that the call is for; a NULL bias stands for zeros. */
    function Expected(row: int, col: int): int { (if hasBias then Bias(row, col) else 0) + Product(row, col) }
  }

  // ---- cutting one dimension into tiles ----

  /** Number of tiles: padded / (tile * DIM) rounded up. */
  function Tiles(dim: nat, tile: nat): int
    requires 0 < tile
  {
    var padded, step := Dims(Blocks(dim)), tile * DIM;
    padded / step + if padded % step != 0 then 1 else 0
  }

  /** Blocks in the last tile. */
  function Last(dim: nat, tile: nat): int
    requires 0 < tile
  {
    var padded := Dims(Blocks(dim));
    if padded % (tile * DIM) == 0 then tile else padded / DIM % tile
  }

  function Padding(dim: nat): nat { BlocksCover(dim); Dims(Blocks(dim)) - dim }

  function TileBlocks(dim: nat, tile: nat, t: int): int
    requires 0 < tile
  { if t < Tiles(dim, tile) - 1 then tile else Last(dim, tile) }

  function TilePad(dim: nat, tile: nat, t: int): nat
    requires 0 < tile
  { if t == Tiles(dim, tile) - 1 then Padding(dim) else 0 }

  /** First element of tile t. */
  function From(tile: nat, t: int): int { Dims(t * tile) }

  function Extent(dim: nat, tile: nat, t: int): int
    requires 0 < tile
  { Dims(TileBlocks(dim, tile, t)) - TilePad(dim, tile, t) }

  /** Cutting n blocks into tiles, as the source computes it on elements. */
  lemma BlockTiles(dim: nat, tile: nat)
    requires 0 < tile
    ensures var n, step := Blocks(dim), tile * DIM;
      && Dims(n) / step == n / tile && (Dims(n) % step == 0 <==> n % tile == 0) && Dims(n) / DIM == n
  {
    var n := Blocks(dim);
    var q, r := n / tile, n % tile;
    assert n == q * tile + r;
    DimsSum(q * tile, r);
    DimsMono(r, tile);
    DimsMono(0, r);
    assert Dims(q * tile) == q * (tile * DIM) by { Assoc(q, tile, DIM); }
    DivModUnique(Dims(n), tile * DIM, q, Dims(r));
    DimsMono(1, r);
    InBlock(n, 0);
  }

  lemma Assoc(x: int, y: int, z: int)
    ensures x * y * z == x * (y * z)
  {}

  lemma TileCount(dim: nat, tile: nat)
    requires 0 < dim && 0 < tile
    ensures 1 <= Tiles(dim, tile) && 1 <= Last(dim, tile) <= tile
    ensures (Tiles(dim, tile) - 1) * tile + Last(dim, tile) == Blocks(dim)
  {
    var n := Blocks(dim);
    BlockTiles(dim, tile);
    BlocksCover(dim);
    DimsMono(n, 0);
    assert 1 <= n;
    CeilTiles(n, tile);
  }

  lemma CeilTiles(n: int, tile: int)
    requires 1 <= n && 0 < tile
    ensures var t, last := n / tile + (if n % tile != 0 then 1 else 0), if n % tile == 0 then tile else n % tile;
            1 <= t && 1 <= last <= tile && (t - 1) * tile + last == n
  {
    assert n == n / tile * tile + n % tile;
    MulSign(n / tile, tile);
  }

  /** The tiles of a dimension are consecutive and cover it. */
  lemma TilesPartition(dim: nat, tile: nat, t: int)
    requires 0 < dim && 0 < tile && 0 <= t < Tiles(dim, tile)
    ensures 1 <= TileBlocks(dim, tile, t) <= tile && TilePad(dim, tile, t) < DIM
    ensures 0 <= From(tile, t) && 0 < Extent(dim, tile, t) <= Dims(tile)
    ensures From(tile, t) + Extent(dim, tile, t) == if t == Tiles(dim, tile) - 1 then dim else From(tile, t + 1)
    ensures From(tile, t) + Extent(dim, tile, t) <= dim
  {
    TileCount(dim, tile);
    var n, last := Tiles(dim, tile), Last(dim, tile);
    TileEnds(n, tile, last, t);
    BlocksCover(dim);
    if t == n - 1 {
      LastTileEnds(t * tile, tile, last, Blocks(dim), dim);
    } else {
      InnerTileEnds(t * tile, tile, (t + 1) * tile, Blocks(dim), dim);
    }
  }

  /** Where a tile that starts at block `from` ends, for the last tile of n blocks and for the others. */
  lemma LastTileEnds(from: int, tile: int, last: int, n: int, dim: int)
    requires 0 <= from && 1 <= last <= tile && from + last == n && dim <= Dims(n) < dim + DIM
    ensures 0 <= Dims(from) && 0 < Dims(last) - (Dims(n) - dim) <= Dims(tile)
    ensures Dims(from) + Dims(last) == Dims(n)
  {
    DimsMono(0, from);
    DimsMono(0, last);
    DimsMono(last, tile);
    DimsSum(from, last);
  }

  lemma InnerTileEnds(from: int, tile: int, next: int, n: int, dim: int)
    requires 0 <= from && 1 <= tile && from + tile == next < n && Dims(n) < dim + DIM
    ensures 0 <= Dims(from) && 0 < Dims(tile)
    ensures Dims(from) + Dims(tile) == Dims(next) <= dim
  {
    DimsMono(0, from);
    DimsMono(0, tile);
    DimsMono(next, n);
    DimsSum(from, tile);
  }

  /** Tile t of n, in blocks. */
  lemma TileEnds(n: int, tile: int, last: int, t: int)
    requires 0 < tile && 1 <= last <= tile && 0 <= t < n
    ensures 0 <= t * tile
    ensures t < n - 1 ==> t * tile + tile == (t + 1) * tile <= (n - 1) * tile + last - 1
  {
    MulMono(0, t, tile);
    MulMono(t + 1, n - 1, tile);
  }

  function Corner(p: Problem, i0: int, j0: int): int {
    From(p.tileI, i0) * p.mem.strideC + From(p.tileJ, j0)
  }

  lemma Distribute(x: int, y: int, stride: int, z: int)
    ensures x * stride + z + y * stride == (x + y) * stride + z
  {}

  function JobAt(p: Problem, i0: int, j0: int, k0: int): Job
    requires p.LegalButB()
    requires 0 <= i0 < Tiles(p.dimI, p.tileI) && 0 <= j0 < Tiles(p.dimJ, p.tileJ) && 0 <= k0 < Tiles(p.dimK, p.tileK)
  {
    TilesPartition(p.dimI, p.tileI, i0); TilesPartition(p.dimJ, p.tileJ, j0); TilesPartition(p.dimK, p.tileK, k0);
    var biasRow := if p.repeating then 0 else From(p.tileI, i0);
    Job(p.mem, TileBlocks(p.dimI, p.tileI, i0), TileBlocks(p.dimJ, p.tileJ, j0), TileBlocks(p.dimK, p.tileK, k0),
        TilePad(p.dimI, p.tileI, i0), TilePad(p.dimJ, p.tileJ, j0), TilePad(p.dimK, p.tileK, k0),
        From(p.tileI, i0) * p.mem.strideA + From(p.tileK, k0),
        From(p.tileJ, j0) * p.mem.strideB + From(p.tileK, k0),
        if k0 != 0 || !p.hasBias then None else Some(biasRow * p.mem.strideD + From(p.tileJ, j0)),
        if k0 == Tiles(p.dimK, p.tileK) - 1 then Some(Corner(p, i0, j0)) else None,
        p.full, p.repeating)
  }

  lemma SubRectInBounds(len: int, stride: int, allRows: int, allCols: int, row: int, col: int, rows: int, cols: int)
    requires InBounds(len, 0, stride, allRows, allCols) && 0 <= stride && 0 < rows && 0 < cols
    requires 0 <= row && row + rows <= allRows && 0 <= col && col + cols <= allCols
    ensures InBounds(len, row * stride + col, stride, rows, cols)
  {
    MulMono(row + rows - 1, allRows - 1, stride);
    MulMono(0, row, stride);
    assert (row + rows - 1) * stride == row * stride + (rows - 1) * stride;
  }

  lemma SmallerTilesFit(ti: nat, tj: nat, tk: nat, tileI: nat, tileJ: nat, tileK: nat)
    requires ti <= tileI && tj <= tileJ && tk <= tileK
    ensures ti * tk + tk * tj <= tileI * tileK + tileK * tileJ && ti * tj <= tileI * tileJ
  {
    MulMono(ti, tileI, tk);
    MulMono(tk, tileK, tileI);
    MulMono(tk, tileK, tj);
    MulMono(tj, tileJ, tileK);
    MulMono(ti, tileI, tj);
    MulMono(tj, tileJ, tileI);
  }

  /** Every call the driver makes is legal: in bounds in main memory and in the local memories. */
  lemma JobsAreValid(p: Problem, i0: int, j0: int, k0: int)
    requires p.Valid()
    requires 0 <= i0 < Tiles(p.dimI, p.tileI) && 0 <= j0 < Tiles(p.dimJ, p.tileJ) && 0 <= k0 < Tiles(p.dimK, p.tileK)
    ensures JobAt(p, i0, j0, k0).Valid()
  {
    var job := JobAt(p, i0, j0, k0);
    var row, col, depth := From(p.tileI, i0), From(p.tileJ, j0), From(p.tileK, k0);
    TilesPartition(p.dimI, p.tileI, i0);
    TilesPartition(p.dimJ, p.tileJ, j0);
    TilesPartition(p.dimK, p.tileK, k0);
    SmallerTilesFit(job.ti, job.tj, job.tk, p.tileI, p.tileJ, p.tileK);
    DimsMono(job.ti * job.tk + job.tk * job.tj, p.tileI * p.tileK + p.tileK * p.tileJ);
    DimsMono(job.ti * job.tj, p.tileI * p.tileJ);
    SubRectInBounds(|p.mem.a|, p.mem.strideA, p.dimI, p.dimK, row, depth, job.Rows(), job.Depth());
    SubRectInBounds(|p.mem.b|, p.mem.strideB, p.dimJ, p.dimK, col, depth, job.Cols(), job.Depth());
    if p.hasBias {
      SubRectInBounds(|p.mem.d|, p.mem.strideD, p.dimI, p.dimJ, row, col, job.Rows(), job.Cols());
    }
    SubRectInBounds(p.mem.lenC, p.mem.strideC, p.dimI, p.dimJ, row, col, job.Rows(), job.Cols());
  }

  predicate ValidCall(p: Problem, i0: int, j0: int, k0: int)
    requires p.LegalButB()
  { 0 <= i0 < Tiles(p.dimI, p.tileI) && 0 <= j0 < Tiles(p.dimJ, p.tileJ) && 0 <= k0 < Tiles(p.dimK, p.tileK) }

  /** Every move-in of B that the run issues, in every call, stays inside the buffer. */
  ghost predicate LoadsInside(p: Problem)
    requires p.LegalButB()
  {
    forall i0, j0, k0 :: ValidCall(p, i0, j0, k0) ==> CallLoadsInside(p, i0, j0, k0)
  }

  ghost predicate CallLoadsInside(p: Problem, i0: int, j0: int, k0: int)
    requires p.LegalButB()
    requires ValidCall(p, i0, j0, k0)
  { JobShape(p, i0, j0, k0); LoadsBInside(JobAt(p, i0, j0, k0)) }

  lemma JobShape(p: Problem, i0: int, j0: int, k0: int)
    requires p.LegalButB()
    requires ValidCall(p, i0, j0, k0)
    ensures JobAt(p, i0, j0, k0).Shape()
  {
    TilesPartition(p.dimI, p.tileI, i0);
    TilesPartition(p.dimJ, p.tileJ, j0);
    TilesPartition(p.dimK, p.tileK, k0);
  }

  /** All move-ins of B of a run are inside the buffer exactly when its J x K reading is. */
  lemma LoadsInsideIffInBounds(p: Problem)
    requires p.LegalButB()
    ensures LoadsInside(p) <==> InBounds(|p.mem.b|, 0, p.mem.strideB, p.dimJ, p.dimK)
  {
    if InBounds(|p.mem.b|, 0, p.mem.strideB, p.dimJ, p.dimK) {
      forall i0, j0, k0 | ValidCall(p, i0, j0, k0)
        ensures CallLoadsInside(p, i0, j0, k0)
      {
        JobsAreValid(p, i0, j0, k0);
        LoadsBInsideIff(JobAt(p, i0, j0, k0));
      }
    }
    if LoadsInside(p) {
      TileCount(p.dimI, p.tileI);
      TileCount(p.dimJ, p.tileJ);
      TileCount(p.dimK, p.tileK);
      var j0, k0 := Tiles(p.dimJ, p.tileJ) - 1, Tiles(p.dimK, p.tileK) - 1;
      assert CallLoadsInside(p, 0, j0, k0);
      LastCallInBounds(p, j0, k0);
    }
  }

  /** The last call reads up to the last element of the J x K matrix. */
  lemma LastCallInBounds(p: Problem, j0: int, k0: int)
    requires p.LegalButB() && 1 <= Tiles(p.dimI, p.tileI)
    requires 0 <= j0 == Tiles(p.dimJ, p.tileJ) - 1 && 0 <= k0 == Tiles(p.dimK, p.tileK) - 1 &&
             CallLoadsInside(p, 0, j0, k0)
    ensures InBounds(|p.mem.b|, 0, p.mem.strideB, p.dimJ, p.dimK)
  {
    var job := JobAt(p, 0, j0, k0);
    JobShape(p, 0, j0, k0);
    LoadsBInsideIff(job);
    TilesPartition(p.dimJ, p.tileJ, j0);
    TilesPartition(p.dimK, p.tileK, k0);
    Distribute(From(p.tileJ, j0), Extent(p.dimJ, p.tileJ, j0) - 1, p.mem.strideB, From(p.tileK, k0));
  }

  // ---- the k0 loop: one output tile ----

  /** Accumulator row of local element (row, col) of a tile of tj block columns; its column is col % DIM. */
  function HeldRow(tj: int, row: int, col: int): int { Dims(row / DIM * tj + col / DIM) + row % DIM }

  function Held(tj: int, s: State, row: int, col: int): int { s.acc(HeldRow(tj, row, col), col % DIM) }

  predicate ElementDone(job: Job, s0: State, s: State, row: int, col: int)
    requires job.Shape()
  {
    var start := if job.bias.Some? then At(job.mem.d, job.bias.value + row * job.mem.strideD + col)
                 else Held(job.tj, s0, row, col);
    var v := start + job.Element(row, col, job.Depth());
    && Held(job.tj, s, row, col) == v
    && (job.out.Some? ==>
          s.c(Address(job, row, col)) == Output(job.mem.stage, job.full, v) &&
          s.stores(Address(job, row, col)) == s0.stores(Address(job, row, col)) + 1)
  }

  lemma TileDoneAt(job: Job, s0: State, s: State, row: int, col: int)
    requires job.Shape() && TileDone(job, s0, s) && 0 <= row < job.Rows() && 0 <= col < job.Cols()
    ensures ElementDone(job, s0, s, row, col)
  {
    var i, r, j, c := row / DIM, row % DIM, col / DIM, col % DIM;
    BlockOf(row);
    BlockOf(col);
    InTable(job.ti, job.padI, row);
    InTable(job.tj, job.padJ, col);
    assert CellFinal(job, s0, s, i, j, r, c);
    CellIsElement(job, s0, s, i, j, r, c, row, col);
  }

  lemma CellIsElement(job: Job, s0: State, s: State, i: int, j: int, r: int, c: int, row: int, col: int)
    requires job.Shape() && CellFinal(job, s0, s, i, j, r, c)
    requires row == Dims(i) + r && col == Dims(j) + c
    requires i == row / DIM && r == row % DIM && j == col / DIM && c == col % DIM
    ensures ElementDone(job, s0, s, row, col)
  {}

  /** Block and place of an element of a dimension of n blocks, the last short by pad. */
  lemma InTable(n: int, pad: int, x: int)
    requires 0 <= pad < DIM && 0 <= x < Dims(n) - pad
    ensures 0 <= x / DIM < n && 0 <= x % DIM < DIM - (if x / DIM == n - 1 then pad else 0)
  {
    BlockOf(x);
    DimsMono(n, x / DIM);
    DimsMono(x / DIM, -1);
    DimsStep(n - 1);
    DimsStep(-1);
  }

  // ---- which accumulator elements belong to an output tile ----

  /** Local row and column of accumulator element (x, c) in a tile of tj block columns. */
  function LocalRow(tj: int, x: int): int
    requires 0 < tj
  { Dims(x / DIM / tj) + x % DIM }

  function LocalCol(tj: int, x: int, c: int): int
    requires 0 < tj
  { Dims(x / DIM % tj) + c }

  predicate InTile(tj: int, rows: int, cols: int, x: int, c: int)
    requires 0 < tj
  { 0 <= x && 0 <= c < DIM && LocalRow(tj, x) < rows && LocalCol(tj, x, c) < cols }

  lemma BlockHeld(tj: int, i: int, j: int, r: int, c: int)
    requires 0 <= i && 0 <= j < tj && 0 <= r < DIM && 0 <= c < DIM
    ensures HeldRow(tj, Dims(i) + r, Dims(j) + c) == Dims(i * tj + j) + r && (Dims(j) + c) % DIM == c
    ensures 0 <= Dims(i) && 0 <= Dims(j) && Dims(j) + DIM <= Dims(tj)
  {
    InBlock(i, r);
    InBlock(j, c);
    DimsMono(0, i);
    DimsMono(0, j);
    DimsMono(j, tj);
  }

  /** Accumulator row and local coordinates determine each other. */
  lemma LocalHeld(tj: int, x: int, c: int)
    requires 0 < tj && 0 <= x && 0 <= c < DIM
    ensures var row, col := LocalRow(tj, x), LocalCol(tj, x, c);
            0 <= row && 0 <= col && HeldRow(tj, row, col) == x && col % DIM == c
  {
    var b, r := x / DIM, x % DIM;
    BlockOf(x);
    DimsMono(b, -1);
    DimsStep(-1);
    BlockPosition(b, tj);
    BlockHeld(tj, b / tj, b % tj, r, c);
  }

  /** Row and column of block b in a table of tj columns. */
  lemma BlockPosition(b: int, tj: int)
    requires 0 <= b && 0 < tj
    ensures 0 <= b / tj && 0 <= b % tj < tj && b == b / tj * tj + b % tj
  {
    MulSign(b / tj, tj);
  }

  lemma HeldLocal(tj: int, row: int, col: int)
    requires 0 < tj && 0 <= row && 0 <= col < Dims(tj)
    ensures var x, c := HeldRow(tj, row, col), col % DIM;
            0 <= x && 0 <= c < DIM && LocalRow(tj, x) == row && LocalCol(tj, x, c) == col
  {
    InTable(tj, 0, col);
    BlockOf(row);
    BlockOf(col);
    DimsMono(row / DIM, -1);
    DimsStep(-1);
    InBlock(row / DIM * tj + col / DIM, row % DIM);
    DivModUnique(row / DIM * tj + col / DIM, tj, row / DIM, col / DIM);
    MulSign(row / DIM, tj);
    DimsMono(0, row / DIM * tj + col / DIM);
  }

  /** The elements of a job are those of its tile. */
  lemma CellsInTile(job: Job, x: int, c: int)
    requires job.Shape() && InCells(job, x, c)
    ensures InTile(job.tj, job.Rows(), job.Cols(), x, c)
  {
    var i, j :| InCell(job, x, c, i, j);
    CellInTile(job, x, c, i, j);
  }

  lemma CellInTile(job: Job, x: int, c: int, i: int, j: int)
    requires job.Shape() && InCell(job, x, c, i, j)
    ensures InTile(job.tj, job.Rows(), job.Cols(), x, c)
  {
    var r := x - job.CRow(i, j);
    RowsInside(job, i);
    ColumnInside(job, j, c);
    BlockHeld(job.tj, i, j, r, c);
    HeldLocal(job.tj, Dims(i) + r, Dims(j) + c);
  }

  predicate ValidTile(p: Problem, i0: int, j0: int) {
    p.Valid() && 0 <= i0 < Tiles(p.dimI, p.tileI) && 0 <= j0 < Tiles(p.dimJ, p.tileJ)
  }

  function Rows(p: Problem, i0: int): int
    requires p.Valid()
  { Extent(p.dimI, p.tileI, i0) }

  function Cols(p: Problem, j0: int): int
    requires p.Valid()
  { Extent(p.dimJ, p.tileJ, j0) }

  /** Depth covered by the first k0 tiles. */
  function Covered(p: Problem, k0: int): int
    requires p.Valid()
  { if k0 == Tiles(p.dimK, p.tileK) then p.dimK else From(p.tileK, k0) }

  /** The value that element (row, col) of output tile (i0, j0) starts from. */
  function Initial(p: Problem, s0: State, i0: int, j0: int, row: int, col: int): int
    requires p.Valid()
  {
    if p.hasBias then p.Bias(From(p.tileI, i0) + row, From(p.tileJ, j0) + col)
    else Held(TileBlocks(p.dimJ, p.tileJ, j0), s0, row, col)
  }

  function PartialSum(p: Problem, s0: State, i0: int, j0: int, row: int, col: int, n: nat): int
    requires p.Valid()
  {
    Initial(p, s0, i0, j0, row, col)
    + Prod(p.mem, (From(p.tileI, i0) + row) * p.mem.strideA, (From(p.tileJ, j0) + col) * p.mem.strideB, n)
  }

  predicate HeldUpto(p: Problem, s0: State, s: State, i0: int, j0: int, row: int, col: int, n: nat)
    requires p.Valid()
  { Held(TileBlocks(p.dimJ, p.tileJ, j0), s, row, col) == PartialSum(p, s0, i0, j0, row, col, n) }

  predicate StoredFinal(p: Problem, s0: State, s: State, i0: int, j0: int, row: int, col: int)
    requires p.Valid()
  {
    var x := (From(p.tileI, i0) + row) * p.mem.strideC + (From(p.tileJ, j0) + col);
    && s.c(x) == Output(p.mem.stage, p.full, PartialSum(p, s0, i0, j0, row, col, p.dimK))
    && s.stores(x) == s0.stores(x) + 1
  }

  /** Block columns of output tile (i0, j0). */
  function TileCols(p: Problem, i0: int, j0: int): (tj: int)
    requires ValidTile(p, i0, j0)
    ensures 0 < tj
  { TilesPartition(p.dimJ, p.tileJ, j0); TileBlocks(p.dimJ, p.tileJ, j0) }

  /** Accumulator element (x, c) belongs to output tile (i0, j0). */
  predicate OfTile(p: Problem, i0: int, j0: int, x: int, c: int)
    requires ValidTile(p, i0, j0)
  { InTile(TileCols(p, i0, j0), Rows(p, i0), Cols(p, j0), x, c) }

  ghost predicate TileFrame(p: Problem, s0: State, s: State, i0: int, j0: int)
    requires ValidTile(p, i0, j0)
  { forall x, c :: !OfTile(p, i0, j0, x, c) ==> s.acc(x, c) == s0.acc(x, c) }

  ghost predicate TileHeld(p: Problem, s0: State, s: State, i0: int, j0: int, n: nat)
    requires ValidTile(p, i0, j0)
  { forall row, col :: 0 <= row < Rows(p, i0) && 0 <= col < Cols(p, j0) ==> HeldUpto(p, s0, s, i0, j0, row, col, n) }

  /** Before call k0: the tile's elements hold the sums of the depth covered so far, the rest of the
      accumulator is the same. */
  ghost predicate TileInv(p: Problem, s0: State, s: State, i0: int, j0: int, k0: int)
    requires ValidTile(p, i0, j0) && 0 <= k0 <= Tiles(p.dimK, p.tileK)
  {
    if k0 == 0 then s == s0 else
      var n: nat := (TilesFrom(p, k0); Covered(p, k0));
      TileHeld(p, s0, s, i0, j0, n) && TileFrame(p, s0, s, i0, j0)
  }

  lemma NextFrame(p: Problem, s0: State, s: State, s': State, i0: int, j0: int, k0: int)
    requires ValidTile(p, i0, j0) && 0 <= k0 < Tiles(p.dimK, p.tileK)
    requires JobAt(p, i0, j0, k0).Shape() && AccFrame(JobAt(p, i0, j0, k0), s, s') && TileFrame(p, s0, s, i0, j0)
    ensures TileFrame(p, s0, s', i0, j0)
  {
    var job := JobAt(p, i0, j0, k0);
    forall x, c | !OfTile(p, i0, j0, x, c) ensures s'.acc(x, c) == s0.acc(x, c) {
      if InCells(job, x, c) {
        CellsInTile(job, x, c);
      }
    }
  }

  /** What an output tile makes of accumulator element (x, c), from the value v. */
  function TileAcc(p: Problem, i0: int, j0: int, x: int, c: int, v: int): int
    requires ValidTile(p, i0, j0)
  {
    if !OfTile(p, i0, j0, x, c) then v else
      var tj := TileCols(p, i0, j0);
      var row, col := From(p.tileI, i0) + LocalRow(tj, x), From(p.tileJ, j0) + LocalCol(tj, x, c);
      (if p.hasBias then p.Bias(row, col) else v) + p.Product(row, col)
  }

  predicate AccAt(p: Problem, s0: State, s: State, i0: int, j0: int, x: int, c: int)
    requires ValidTile(p, i0, j0)
  { s.acc(x, c) == TileAcc(p, i0, j0, x, c, s0.acc(x, c)) }

  lemma HeldAtTile(p: Problem, s0: State, s: State, i0: int, j0: int, row: int, col: int, x: int, c: int)
    requires ValidTile(p, i0, j0) && OfTile(p, i0, j0, x, c) && HeldUpto(p, s0, s, i0, j0, row, col, p.dimK)
    requires var tj := TileCols(p, i0, j0);
             row == LocalRow(tj, x) && col == LocalCol(tj, x, c) && HeldRow(tj, row, col) == x && col % DIM == c
    ensures AccAt(p, s0, s, i0, j0, x, c)
  {}

  /** After the last call the accumulator is known everywhere. */
  lemma TileAccDone(p: Problem, s0: State, s: State, i0: int, j0: int, kTiles: int, x: int, c: int)
    requires ValidTile(p, i0, j0) && 1 <= kTiles == Tiles(p.dimK, p.tileK) && TileInv(p, s0, s, i0, j0, kTiles)
    ensures AccAt(p, s0, s, i0, j0, x, c)
  {
    if OfTile(p, i0, j0, x, c) {
      var tj := TileCols(p, i0, j0);
      var row, col := LocalRow(tj, x), LocalCol(tj, x, c);
      LocalHeld(tj, x, c);
      TileHeldUpto(p, s0, s, i0, j0, kTiles, row, col);
      HeldAtTile(p, s0, s, i0, j0, row, col, x, c);
    }
  }

  lemma TileHeldUpto(p: Problem, s0: State, s: State, i0: int, j0: int, kTiles: int, row: int, col: int)
    requires ValidTile(p, i0, j0) && 1 <= kTiles == Tiles(p.dimK, p.tileK) && TileInv(p, s0, s, i0, j0, kTiles)
    requires 0 <= row < Rows(p, i0) && 0 <= col < Cols(p, j0)
    ensures HeldUpto(p, s0, s, i0, j0, row, col, p.dimK)
  {
    var n: nat := p.dimK;
    assert Covered(p, kTiles) == n;
    assert TileHeld(p, s0, s, i0, j0, n);
  }

  lemma TilesFrom(p: Problem, k0: int)
    requires p.Valid() && 0 <= k0 <= Tiles(p.dimK, p.tileK)
    ensures 0 <= Covered(p, k0) <= p.dimK
  {
    if k0 < Tiles(p.dimK, p.tileK) {
      TilesPartition(p.dimK, p.tileK, k0);
    }
  }

  lemma NextPartial(p: Problem, s0: State, i0: int, j0: int, k0: int, row: int, col: int)
    requires ValidTile(p, i0, j0) && 0 <= k0 < Tiles(p.dimK, p.tileK)
    ensures 0 <= Covered(p, k0) && 0 <= Covered(p, k0 + 1) && JobAt(p, i0, j0, k0).Shape()
    ensures PartialSum(p, s0, i0, j0, row, col, Covered(p, k0 + 1))
         == PartialSum(p, s0, i0, j0, row, col, Covered(p, k0))
            + JobAt(p, i0, j0, k0).Element(row, col, JobAt(p, i0, j0, k0).Depth())
  {
    TilesFrom(p, k0);
    TilesFrom(p, k0 + 1);
    TilesPartition(p.dimI, p.tileI, i0);
    TilesPartition(p.dimJ, p.tileJ, j0);
    TilesPartition(p.dimK, p.tileK, k0);
    var job := JobAt(p, i0, j0, k0);
    var a, b, n, depth := From(p.tileI, i0), From(p.tileJ, j0), From(p.tileK, k0), Extent(p.dimK, p.tileK, k0);
    assert job.Depth() == depth && Covered(p, k0) == n && Covered(p, k0 + 1) == n + depth;
    Distribute(a, row, p.mem.strideA, n);
    Distribute(b, col, p.mem.strideB, n);
    ProdSplit(p.mem, (a + row) * p.mem.strideA, (b + col) * p.mem.strideB, n, depth);
  }

  /** One call extends the covered depth by its tile, and the last call stores the results. */
  lemma NextCall(p: Problem, s0: State, s: State, s': State, i0: int, j0: int, k0: int)
    requires ValidTile(p, i0, j0) && 0 <= k0 < Tiles(p.dimK, p.tileK)
    requires TileInv(p, s0, s, i0, j0, k0) && s.stores == s0.stores
    requires JobAt(p, i0, j0, k0).Shape() && TileDone(JobAt(p, i0, j0, k0), s, s')
    ensures TileInv(p, s0, s', i0, j0, k0 + 1)
    ensures k0 == Tiles(p.dimK, p.tileK) - 1 ==>
              forall row, col :: 0 <= row < Rows(p, i0) && 0 <= col < Cols(p, j0) ==>
                StoredFinal(p, s0, s', i0, j0, row, col)
  {
    var job := JobAt(p, i0, j0, k0);
    TilesFrom(p, k0);
    TilesFrom(p, k0 + 1);
    NextFrame(p, s0, s, s', i0, j0, k0);
    var n: nat, n': nat := Covered(p, k0), Covered(p, k0 + 1);
    forall row, col | 0 <= row < Rows(p, i0) && 0 <= col < Cols(p, j0)
      ensures HeldUpto(p, s0, s', i0, j0, row, col, n')
      ensures k0 == Tiles(p.dimK, p.tileK) - 1 ==> StoredFinal(p, s0, s', i0, j0, row, col)
    {
      TileDoneAt(job, s, s', row, col);
      NextPartial(p, s0, i0, j0, k0, row, col);
      NextElement(p, s0, s, i0, j0, k0, row, col, n);
      Distribute(From(p.tileI, i0), row, p.mem.strideC, From(p.tileJ, j0) + col);
    }
  }

  /** A call starts from the covered sum: from the bias in the first call, else from what is held. */
  lemma NextElement(p: Problem, s0: State, s: State, i0: int, j0: int, k0: int, row: int, col: int, n: nat)
    requires ValidTile(p, i0, j0) && 0 <= k0 < Tiles(p.dimK, p.tileK) && n == Covered(p, k0)
    requires 0 <= row < Rows(p, i0) && 0 <= col < Cols(p, j0) && TileInv(p, s0, s, i0, j0, k0)
    ensures var job := JobAt(p, i0, j0, k0);
            (if job.bias.Some? then At(job.mem.d, job.bias.value + row * job.mem.strideD + col)
             else Held(job.tj, s, row, col))
            == PartialSum(p, s0, i0, j0, row, col, n)
  {
    var job := JobAt(p, i0, j0, k0);
    if k0 == 0 {
      TileCount(p.dimK, p.tileK);
      assert n == 0;
      Distribute(From(p.tileI, i0), row, p.mem.strideD, From(p.tileJ, j0) + col);
    } else {
      assert HeldUpto(p, s0, s, i0, j0, row, col, n);
    }
  }

  /** All calls for one output tile: its elements are stored once and complete, and the accumulator
      afterwards is known everywhere. */
  method OutputTile(dev: Gemmini, p: Problem, i0: nat, j0: nat)
    requires ValidTile(p, i0, j0) && dev.mem == p.mem
    modifies dev
    ensures TileOutput(p, old(dev.st), dev.st, i0, j0)
  {
    var kTiles := Tiles(p.dimK, p.tileK);
    ghost var s0 := dev.st;
    TileCount(p.dimK, p.tileK);
    for k0 := 0 to kTiles
      invariant TileInv(p, s0, dev.st, i0, j0, k0)
      invariant k0 < kTiles ==> dev.st.c == s0.c && dev.st.stores == s0.stores
      invariant k0 == kTiles ==> TileStored(p, s0, dev.st, i0, j0)
    {
      ghost var s := dev.st;
      var job := JobAt(p, i0, j0, k0);
      JobsAreValid(p, i0, j0, k0);
      SpTiledMatmulWs(dev, job);
      NextCall(p, s0, s, dev.st, i0, j0, k0);
    }
    forall x, c ensures AccAt(p, s0, dev.st, i0, j0, x, c) {
      TileAccDone(p, s0, dev.st, i0, j0, kTiles, x, c);
    }
  }

  /** What one output tile does to the result ... */
  ghost predicate TileStored(p: Problem, s: State, s': State, i0: int, j0: int)
    requires p.Valid()
  {
    && (forall row, col :: 0 <= row < Rows(p, i0) && 0 <= col < Cols(p, j0) ==> StoredFinal(p, s, s', i0, j0, row, col))
    && (forall x :: !Touches(x, Corner(p, i0, j0), p.mem.strideC, Rows(p, i0), Cols(p, j0)) ==>
          s'.c(x) == s.c(x) && s'.stores(x) == s.stores(x))
  }

  /** ... and to the accumulator. */
  ghost predicate TileOutput(p: Problem, s: State, s': State, i0: int, j0: int)
    requires ValidTile(p, i0, j0)
  { TileStored(p, s, s', i0, j0) && forall x, c :: AccAt(p, s, s', i0, j0, x, c) }

  // ---- the whole run ----

  function Edge(dim: nat, tile: nat, t: int): int
    requires 0 < tile
  { if t == Tiles(dim, tile) then dim else From(tile, t) }

  /** Does element (row, col) belong to an output tile before (i0, j0)? */
  predicate Earlier(p: Problem, i0: int, j0: int, row: int, col: int)
    requires p.Valid()
  {
    || row < Edge(p.dimI, p.tileI, i0)
    || (row < Edge(p.dimI, p.tileI, i0 + 1) && col < Edge(p.dimJ, p.tileJ, j0))
  }

  /** Output tiles that the loops reach, the ends of the loops included. */
  predicate TileIndex(p: Problem, i0: int, j0: int) {
    && p.Valid() && 0 <= i0 <= Tiles(p.dimI, p.tileI) && 0 <= j0 <= Tiles(p.dimJ, p.tileJ)
    && (i0 < Tiles(p.dimI, p.tileI) || j0 == 0)
  }

  /** Accumulator element (x, c) before output tile (i0, j0), in a run that starts in s0. */
  function AccBefore(p: Problem, s0: State, i0: int, j0: int, x: int, c: int): int
    requires TileIndex(p, i0, j0)
    decreases i0, j0
  {
    if 0 < j0 then TileAcc(p, i0, j0 - 1, x, c, AccBefore(p, s0, i0, j0 - 1, x, c))
    else if 0 < i0 then AccBefore(p, s0, i0 - 1, Tiles(p.dimJ, p.tileJ), x, c)
    else s0.acc(x, c)
  }

  /** The tile of an element of a dimension. */
  function TileOf(tile: nat, x: int): int
    requires 0 < tile
  { x / DIM / tile }

  lemma TileOfElement(dim: nat, tile: nat, t: int, x: int)
    requires 0 < dim && 0 < tile && 0 <= t < Tiles(dim, tile) &&
             From(tile, t) <= x < From(tile, t) + Extent(dim, tile, t)
    ensures TileOf(tile, x) == t
  {
    TilesPartition(dim, tile, t);
    var d := x - From(tile, t);
    InTable(tile, 0, d);
    BlockOf(d);
    DimsSum(t * tile, d / DIM);
    InBlock(t * tile + d / DIM, d % DIM);
    DivModUnique(t * tile + d / DIM, tile, t, d / DIM);
  }

  lemma {:induction false} TileExists(dim: nat, tile: nat, x: int, n: int)
    requires 0 < dim && 0 < tile && 1 <= n <= Tiles(dim, tile) && 0 <= x < Edge(dim, tile, n)
    ensures 0 <= TileOf(tile, x) < n
    ensures var t := TileOf(tile, x);
            From(tile, t) <= x < From(tile, t) + Extent(dim, tile, t)
  {
    TilesPartition(dim, tile, n - 1);
    if From(tile, n - 1) <= x {
      TileOfElement(dim, tile, n - 1, x);
    } else {
      assert n != 1;
      TileExists(dim, tile, x, n - 1);
    }
  }

  /** Result element (row, col) belongs to output tile (i0, j0). */
  predicate OfOutput(p: Problem, i0: int, j0: int, row: int, col: int)
    requires ValidTile(p, i0, j0)
  {
    && From(p.tileI, i0) <= row < From(p.tileI, i0) + Rows(p, i0)
    && From(p.tileJ, j0) <= col < From(p.tileJ, j0) + Cols(p, j0)
  }

  lemma TileOfValid(p: Problem, row: int, col: int)
    requires p.Valid() && 0 <= row < p.dimI && 0 <= col < p.dimJ
    ensures ValidTile(p, TileOf(p.tileI, row), TileOf(p.tileJ, col))
  {
    TileCount(p.dimI, p.tileI);
    TileCount(p.dimJ, p.tileJ);
    TileExists(p.dimI, p.tileI, row, Tiles(p.dimI, p.tileI));
    TileExists(p.dimJ, p.tileJ, col, Tiles(p.dimJ, p.tileJ));
  }

  /** What element (row, col) of the result starts from, in a run from s0: the bias, or what the
      accumulator holds in its place by then, the sums of earlier output tiles included. */
  function StartOf(p: Problem, s0: State, row: int, col: int): int
    requires p.Valid() && 0 <= row < p.dimI && 0 <= col < p.dimJ
  {
    if p.hasBias then p.Bias(row, col) else
      TileOfValid(p, row, col);
      HeldBefore(p, s0, TileOf(p.tileI, row), TileOf(p.tileJ, col), row, col)
  }

  /** The accumulator element of result element (row, col) before its output tile. */
  function HeldBefore(p: Problem, s0: State, i0: int, j0: int, row: int, col: int): int
    requires ValidTile(p, i0, j0)
  {
    var localRow, localCol := row - From(p.tileI, i0), col - From(p.tileJ, j0);
    AccBefore(p, s0, i0, j0, HeldRow(TileBlocks(p.dimJ, p.tileJ, j0), localRow, localCol), localCol % DIM)
  }

  /** The value that the run stores in element (row, col). */
  function Computed(p: Problem, s0: State, row: int, col: int): int
    requires p.Valid() && 0 <= row < p.dimI && 0 <= col < p.dimJ
  { Output(p.mem.stage, p.full, StartOf(p, s0, row, col) + p.Product(row, col)) }

  predicate Complete(p: Problem, s0: State, s: State, row: int, col: int)
    requires p.Valid() && 0 <= row < p.dimI && 0 <= col < p.dimJ
  {
    var x := row * p.mem.strideC + col;
    s.c(x) == Computed(p, s0, row, col) && s.stores(x) == s0.stores(x) + 1
  }

  predicate Pending(p: Problem, s0: State, s: State, row: int, col: int) {
    var x := row * p.mem.strideC + col;
    s.c(x) == s0.c(x) && s.stores(x) == s0.stores(x)
  }

  predicate ElementAt(p: Problem, s0: State, s: State, i0: int, j0: int, row: int, col: int)
    requires p.Valid() && 0 <= row < p.dimI && 0 <= col < p.dimJ
  { if Earlier(p, i0, j0, row, col) then Complete(p, s0, s, row, col) else Pending(p, s0, s, row, col) }

  predicate AccIs(p: Problem, s0: State, s: State, i0: int, j0: int, x: int, c: int)
    requires TileIndex(p, i0, j0)
  { s.acc(x, c) == AccBefore(p, s0, i0, j0, x, c) }

  predicate AccFinal(p: Problem, s0: State, s: State, x: int, c: int)
    requires p.Valid()
  {
    TileCount(p.dimI, p.tileI);
    TileCount(p.dimJ, p.tileJ);
    AccIs(p, s0, s, Tiles(p.dimI, p.tileI), 0, x, c)
  }

  ghost predicate RunInv(p: Problem, s0: State, s: State, i0: int, j0: int)
    requires TileIndex(p, i0, j0)
  {
    && (forall row, col :: 0 <= row < p.dimI && 0 <= col < p.dimJ ==> ElementAt(p, s0, s, i0, j0, row, col))
    && (forall x, c :: AccIs(p, s0, s, i0, j0, x, c))
    && Elsewhere(p, s0, s)
  }

  /** Nothing outside the result matrix is stored. */
  ghost predicate Elsewhere(p: Problem, s0: State, s: State) {
    forall x :: !Touches(x, 0, p.mem.strideC, p.dimI, p.dimJ) ==> s.c(x) == s0.c(x) && s.stores(x) == s0.stores(x)
  }

  /** An output tile completes its own elements ... */
  lemma TileElement(p: Problem, s0: State, s: State, s': State, i0: int, j0: int, row: int, col: int)
    requires ValidTile(p, i0, j0) && TileOutput(p, s, s', i0, j0) && 0 <= row < p.dimI && 0 <= col < p.dimJ
    requires OfOutput(p, i0, j0, row, col)
    requires Pending(p, s0, s, row, col) && forall x, c :: AccIs(p, s0, s, i0, j0, x, c)
    ensures Complete(p, s0, s', row, col)
  {
    TileOfElement(p.dimI, p.tileI, i0, row);
    TileOfElement(p.dimJ, p.tileJ, j0, col);
    var localRow, localCol := row - From(p.tileI, i0), col - From(p.tileJ, j0);
    assert StoredFinal(p, s, s', i0, j0, localRow, localCol);
    assert AccIs(p, s0, s, i0, j0, HeldRow(TileBlocks(p.dimJ, p.tileJ, j0), localRow, localCol), localCol % DIM);
    assert From(p.tileI, i0) + localRow == row && From(p.tileJ, j0) + localCol == col;
  }

  /** ... and leaves the others as they are. */
  lemma OtherElement(p: Problem, s: State, s': State, i0: int, j0: int, row: int, col: int)
    requires ValidTile(p, i0, j0) && TileOutput(p, s, s', i0, j0) && 0 <= row < p.dimI && 0 <= col < p.dimJ
    requires !OfOutput(p, i0, j0, row, col)
    ensures var x := row * p.mem.strideC + col;
            s'.c(x) == s.c(x) && s'.stores(x) == s.stores(x)
  {
    TilesPartition(p.dimI, p.tileI, i0);
    TilesPartition(p.dimJ, p.tileJ, j0);
    TouchesCell(row * p.mem.strideC + col, Corner(p, i0, j0), 0, p.mem.strideC, From(p.tileI, i0), From(p.tileJ, j0),
                Rows(p, i0), Cols(p, j0), row, col);
  }

  /** The tiles before tile (i0, j0 + 1) are those before (i0, j0) and that one. */
  lemma EarlierNext(p: Problem, i0: int, j0: int, row: int, col: int)
    requires ValidTile(p, i0, j0) && 0 <= row < p.dimI && 0 <= col < p.dimJ
    ensures Earlier(p, i0, j0 + 1, row, col) <==> (Earlier(p, i0, j0, row, col) || OfOutput(p, i0, j0, row, col))
    ensures Earlier(p, i0, j0, row, col) ==> !OfOutput(p, i0, j0, row, col)
  {
    TilesPartition(p.dimI, p.tileI, i0);
    TilesPartition(p.dimJ, p.tileJ, j0);
  }

  lemma NextTileElement(p: Problem, s0: State, s: State, s': State, i0: int, j0: int, row: int, col: int)
    requires ValidTile(p, i0, j0) && TileOutput(p, s, s', i0, j0) && RunInv(p, s0, s, i0, j0)
    requires 0 <= row < p.dimI && 0 <= col < p.dimJ
    ensures ElementAt(p, s0, s', i0, j0 + 1, row, col)
  {
    EarlierNext(p, i0, j0, row, col);
    assert ElementAt(p, s0, s, i0, j0, row, col);
    if OfOutput(p, i0, j0, row, col) {
      TileElement(p, s0, s, s', i0, j0, row, col);
    } else {
      OtherElement(p, s, s', i0, j0, row, col);
    }
  }

  lemma NextTile(p: Problem, s0: State, s: State, s': State, i0: int, j0: int)
    requires ValidTile(p, i0, j0) && TileOutput(p, s, s', i0, j0) && RunInv(p, s0, s, i0, j0)
    ensures RunInv(p, s0, s', i0, j0 + 1)
  {
    var next := j0 + 1;
    forall row, col | 0 <= row < p.dimI && 0 <= col < p.dimJ
      ensures ElementAt(p, s0, s', i0, next, row, col)
    {
      NextTileElement(p, s0, s, s', i0, j0, row, col);
    }
    forall x, c ensures AccIs(p, s0, s', i0, next, x, c) {
      assert AccIs(p, s0, s, i0, j0, x, c) && AccAt(p, s, s', i0, j0, x, c);
    }
    NextElsewhere(p, s0, s, s', i0, j0);
  }

  lemma NextElsewhere(p: Problem, s0: State, s: State, s': State, i0: int, j0: int)
    requires ValidTile(p, i0, j0) && TileOutput(p, s, s', i0, j0) && Elsewhere(p, s0, s)
    ensures Elsewhere(p, s0, s')
  {
    TilesPartition(p.dimI, p.tileI, i0);
    TilesPartition(p.dimJ, p.tileJ, j0);
    forall x | !Touches(x, 0, p.mem.strideC, p.dimI, p.dimJ)
      ensures s'.c(x) == s0.c(x) && s'.stores(x) == s0.stores(x)
    {
      if Touches(x, Corner(p, i0, j0), p.mem.strideC, Rows(p, i0), Cols(p, j0)) {
        TouchesOnlyInside(x, Corner(p, i0, j0), 0, p.mem.strideC, From(p.tileI, i0), From(p.tileJ, j0), Rows(p, i0),
                          Cols(p, j0), p.dimI, p.dimJ);
      }
    }
  }

  lemma NextTileRow(p: Problem, s0: State, s: State, i0: int)
    requires p.Valid() && 0 <= i0 < Tiles(p.dimI, p.tileI) && TileIndex(p, i0, Tiles(p.dimJ, p.tileJ)) &&
             TileIndex(p, i0 + 1, 0)
    requires RunInv(p, s0, s, i0, Tiles(p.dimJ, p.tileJ))
    ensures RunInv(p, s0, s, i0 + 1, 0)
  {
    TilesPartition(p.dimI, p.tileI, i0);
    TileCount(p.dimJ, p.tileJ);
    var next, all := i0 + 1, Tiles(p.dimJ, p.tileJ);
    forall row, col | 0 <= row < p.dimI && 0 <= col < p.dimJ
      ensures ElementAt(p, s0, s, next, 0, row, col)
    {
      assert ElementAt(p, s0, s, i0, all, row, col);
    }
    forall x, c ensures AccIs(p, s0, s, next, 0, x, c) {
      assert AccIs(p, s0, s, i0, all, x, c);
    }
  }

  /** The run stores every element of the result exactly once, with its start value plus A * B^T after
      the output stage, and stores nothing else. With a bias the start value is the bias; without one it
      is what the accumulator holds, of which `AccBefore` keeps account through the whole run. */
  method Run(dev: Gemmini, p: Problem)
    requires p.Valid() && dev.mem == p.mem
    modifies dev
    ensures forall row, col :: 0 <= row < p.dimI && 0 <= col < p.dimJ ==> Complete(p, old(dev.st), dev.st, row, col)
    ensures forall x, c :: AccFinal(p, old(dev.st), dev.st, x, c)
    ensures Elsewhere(p, old(dev.st), dev.st)
  {
    var iTiles, jTiles := Tiles(p.dimI, p.tileI), Tiles(p.dimJ, p.tileJ);
    ghost var s0 := dev.st;
    TileCount(p.dimI, p.tileI);
    TileCount(p.dimJ, p.tileJ);
    RunStart(p, s0);
    for i0 := 0 to iTiles
      invariant RunInv(p, s0, dev.st, i0, 0)
    {
      for j0 := 0 to jTiles
        invariant RunInv(p, s0, dev.st, i0, j0)
      {
        ghost var s := dev.st;
        OutputTile(dev, p, i0, j0);
        NextTile(p, s0, s, dev.st, i0, j0);
      }
      NextTileRow(p, s0, dev.st, i0);
    }
    forall row, col | 0 <= row < p.dimI && 0 <= col < p.dimJ ensures Complete(p, s0, dev.st, row, col) {
      assert ElementAt(p, s0, dev.st, iTiles, 0, row, col);
    }
    forall x, c ensures AccFinal(p, s0, dev.st, x, c) {
      assert AccIs(p, s0, dev.st, iTiles, 0, x, c);
    }
  }

  lemma RunStart(p: Problem, s: State)
    requires p.Valid() && TileIndex(p, 0, 0)
    ensures RunInv(p, s, s, 0, 0)
  {
    TileCount(p.dimI, p.tileI);
    TileCount(p.dimJ, p.tileJ);
    forall row, col | 0 <= row < p.dimI && 0 <= col < p.dimJ ensures ElementAt(p, s, s, 0, 0, row, col) {
      assert From(p.tileI, 0) == 0 && From(p.tileJ, 0) == 0;
    }
    forall x, c ensures AccIs(p, s, s, 0, 0, x, c) {}
  }
}
