/** The lowering against the reference matmul. */
module MatmulTheorems {
  import opened Params
  import opened Machine
  import opened Rounding
  import MatmulTiles
  import TiledMatmul
  import opened TiledMatmulLoop
  import opened TiledMatmulOuter
  import opened MatmulCpu

  predicate AllElems(s: seq<int>) { forall x :: 0 <= x < |s| ==> IsElem(s[x]) }

  lemma AtIsElem(s: seq<int>, x: int)
    requires AllElems(s)
    ensures IsElem(At(s, x))
  {}

  /** The same matmul, once for the accelerator and once for `matmul_cpu`: identity input scale,
      8-bit operands, and the output stage that `scale_and_sat` describes. A repeating bias is one
      row, loaded with row stride 0. */
  ghost predicate SameMatmul(p: Problem, m: Args) {
    && m.dimI == p.dimI && m.dimJ == p.dimJ && m.dimK == p.dimK
    && m.a == p.mem.a && m.b == p.mem.b && AllElems(m.a) && AllElems(m.b)
    && m.strideA == p.mem.strideA && m.strideB == p.mem.strideB && m.strideC == p.mem.strideC
    && m.scaleA == 1.0 && m.scaleB == 1.0 && !m.transA
    && m.d == (if p.hasBias then Some(p.mem.d) else None) && m.repeating == p.repeating
    && (if p.repeating then p.mem.strideD == 0 else m.strideD == p.mem.strideD)
    && !p.full && (forall x :: p.mem.stage(x) == ScaleAndSat(x, m.act, m.scale))
  }

  lemma SameBias(p: Problem, m: Args, row: int, col: int)
    requires SameMatmul(p, m)
    ensures m.Bias(row, col) == if p.hasBias then p.Bias(row, col) else 0
  {}

  lemma TransposedTerm(p: Problem, m: Args, row: int, col: int, t: int)
    requires SameMatmul(p, m) && m.transB
    ensures m.Term(row, col, t) == At(p.mem.a, row * p.mem.strideA + t) * At(p.mem.b, col * p.mem.strideB + t)
  {
    AtIsElem(m.a, m.IndexA(row, t));
    AtIsElem(m.b, m.IndexB(col, t));
    IdentityScale(At(m.a, m.IndexA(row, t)));
    IdentityScale(At(m.b, m.IndexB(col, t)));
  }

  lemma {:induction false} SumIsProduct(p: Problem, m: Args, row: int, col: int, n: nat)
    requires SameMatmul(p, m) && m.transB
    ensures m.Sum(row, col, n) == m.Bias(row, col)
            + TiledMatmul.Prod(p.mem, row * p.mem.strideA, col * p.mem.strideB, n)
  {
    if n != 0 {
      SumIsProduct(p, m, row, col, n - 1);
      TransposedTerm(p, m, row, col, n - 1);
    }
  }

  predicate SameElement(p: Problem, s: State, c: seq<int>, row: int, col: int) {
    s.c(row * p.mem.strideC + col) == At(c, row * p.mem.strideC + col)
  }

  // ---- the start value of a run without a bias ----

  /** A run starts clean if it has a bias, which the first call for an output tile writes over the
      accumulator, or if there is a single output tile and the accumulator holds zeros for it. */
  ghost predicate CleanStart(p: Problem, s0: State)
    requires p.Valid()
  {
    || p.hasBias
    || (SingleTile(p) && forall row, col :: 0 <= row < p.dimI && 0 <= col < p.dimJ ==> ZeroAt(p, s0, row, col))
  }

  predicate SingleTile(p: Problem)
    requires p.Valid()
  { Tiles(p.dimI, p.tileI) == 1 && Tiles(p.dimJ, p.tileJ) == 1 }

  predicate ZeroAt(p: Problem, s0: State, row: int, col: int)
    requires p.Valid()
  { Held(TileBlocks(p.dimJ, p.tileJ, 0), s0, row, col) == 0 }

  lemma FirstTileStart(p: Problem, s0: State, row: int, col: int)
    requires p.Valid() && !p.hasBias && ValidTile(p, 0, 0) && OfOutput(p, 0, 0, row, col)
    requires 0 <= row < p.dimI && 0 <= col < p.dimJ
    ensures StartOf(p, s0, row, col) == Held(TileBlocks(p.dimJ, p.tileJ, 0), s0, row, col)
  {
    TileOfElement(p.dimI, p.tileI, 0, row);
    TileOfElement(p.dimJ, p.tileJ, 0, col);
    assert From(p.tileI, 0) == 0 && From(p.tileJ, 0) == 0;
  }

  /** From a clean start the run computes D + A * B^T for all operands, whatever the output stage. */
  lemma CleanStartComputes(p: Problem, s0: State, row: int, col: int)
    requires p.Valid() && CleanStart(p, s0) && 0 <= row < p.dimI && 0 <= col < p.dimJ
    ensures ElementExpected(p, s0, row, col)
    ensures Computed(p, s0, row, col) == Output(p.mem.stage, p.full, p.Expected(row, col))
  {
    if !p.hasBias {
      TilesPartition(p.dimI, p.tileI, 0);
      TilesPartition(p.dimJ, p.tileJ, 0);
      assert From(p.tileI, 0) == 0 && From(p.tileJ, 0) == 0;
      FirstTileStart(p, s0, row, col);
      assert ZeroAt(p, s0, row, col);
    }
  }

  /** The same call on other operands. */
  function OnOperands(p: Problem, a: seq<int>, b: seq<int>): Problem { p.(mem := p.mem.(a := a, b := b)) }

  function Ones(len: nat): seq<int> { seq(len, _ => 1) }

  lemma {:induction false} OnesProd(mem: Dram, a: int, b: int, n: nat)
    requires mem.a == Ones(|mem.a|) && mem.b == Ones(|mem.b|)
    requires 0 <= a && a + n <= |mem.a| && 0 <= b && b + n <= |mem.b|
    ensures TiledMatmul.Prod(mem, a, b, n) == n
  {
    if n != 0 {
      OnesProd(mem, a, b, n - 1);
      assert At(mem.a, a + (n - 1)) == 1 && At(mem.b, b + (n - 1)) == 1;
    }
  }

  /** With ones for operands every element of the product is K. */
  lemma OnesProduct(p: Problem, row: int, col: int)
    requires p.Valid() && p.mem.a == Ones(|p.mem.a|) && p.mem.b == Ones(|p.mem.b|)
    requires 0 <= row < p.dimI && 0 <= col < p.dimJ
    ensures p.Product(row, col) == p.dimK
  {
    InBoundsAt(|p.mem.a|, p.mem.strideA, p.dimI, p.dimK, row, 0);
    InBoundsAt(|p.mem.a|, p.mem.strideA, p.dimI, p.dimK, row, p.dimK - 1);
    InBoundsAt(|p.mem.b|, p.mem.strideB, p.dimJ, p.dimK, col, 0);
    InBoundsAt(|p.mem.b|, p.mem.strideB, p.dimJ, p.dimK, col, p.dimK - 1);
    OnesProd(p.mem, row * p.mem.strideA, col * p.mem.strideB, p.dimK);
  }

  /** The output tile after (0, 0): right of it, or below it when there is one tile column. */
  function SecondRow(p: Problem): int
    requires p.Valid()
  { if Tiles(p.dimJ, p.tileJ) == 1 then 1 else 0 }

  function SecondCol(p: Problem): int
    requires p.Valid()
  { if Tiles(p.dimJ, p.tileJ) == 1 then 0 else 1 }

  /** Every output tile starts in the same corner of the accumulator, so the first element of the second
      tile starts from what the first tile left there: the old value plus its own corner of the product. */
  lemma SecondTileStart(p: Problem, s0: State)
    requires p.Valid() && !p.hasBias && !SingleTile(p)
    ensures ValidTile(p, SecondRow(p), SecondCol(p))
    ensures var row, col := From(p.tileI, SecondRow(p)), From(p.tileJ, SecondCol(p));
            0 <= row < p.dimI && 0 <= col < p.dimJ && StartOf(p, s0, row, col) == s0.acc(0, 0) + p.Product(0, 0)
  {
    TileCount(p.dimI, p.tileI);
    TileCount(p.dimJ, p.tileJ);
    var i0, j0 := SecondRow(p), SecondCol(p);
    var row, col := From(p.tileI, i0), From(p.tileJ, j0);
    CornerOfTile(p, i0, j0);
    CornerOfTile(p, 0, 0);
    assert From(p.tileI, 0) == 0 && From(p.tileJ, 0) == 0;
    FirstTileCorner(p, s0);
    assert AccBefore(p, s0, i0, j0, 0, 0) == s0.acc(0, 0) + p.Product(0, 0);
  }

  /** The first element of an output tile, and its place in the accumulator. */
  lemma CornerOfTile(p: Problem, i0: int, j0: int)
    requires ValidTile(p, i0, j0)
    ensures var row, col := From(p.tileI, i0), From(p.tileJ, j0);
            0 <= row < p.dimI && 0 <= col < p.dimJ && OfOutput(p, i0, j0, row, col)
            && TileOf(p.tileI, row) == i0 && TileOf(p.tileJ, col) == j0
            && forall s0 :: HeldBefore(p, s0, i0, j0, row, col) == AccBefore(p, s0, i0, j0, 0, 0)
  {
    TilesPartition(p.dimI, p.tileI, i0);
    TilesPartition(p.dimJ, p.tileJ, j0);
    TileOfElement(p.dimI, p.tileI, i0, From(p.tileI, i0));
    TileOfElement(p.dimJ, p.tileJ, j0, From(p.tileJ, j0));
    InBlock(0, 0);
    assert HeldRow(TileBlocks(p.dimJ, p.tileJ, j0), 0, 0) == 0;
  }

  lemma FirstTileCorner(p: Problem, s0: State)
    requires ValidTile(p, 0, 0) && !p.hasBias
    ensures TileAcc(p, 0, 0, 0, 0, s0.acc(0, 0)) == s0.acc(0, 0) + p.Product(0, 0)
  {
    TilesPartition(p.dimI, p.tileI, 0);
    TilesPartition(p.dimJ, p.tileJ, 0);
    var tj := TileCols(p, 0, 0);
    InBlock(0, 0);
    assert 0 / tj == 0 && 0 % tj == 0;
    assert LocalRow(tj, 0) == 0 && LocalCol(tj, 0, 0) == 0;
  }

  /** The sum of an element, before the output stage, is the one the call is for. */
  predicate ElementExpected(p: Problem, s0: State, row: int, col: int)
    requires p.Valid() && 0 <= row < p.dimI && 0 <= col < p.dimJ
  { StartOf(p, s0, row, col) + p.Product(row, col) == p.Expected(row, col) }

  /** The run from s0 computes the sums of D + A * B^T on these operands. */
  ghost predicate ExpectedOn(p: Problem, s0: State, a: seq<int>, b: seq<int>)
    requires p.Valid()
  {
    |a| == |p.mem.a| && |b| == |p.mem.b| && AllElems(a) && AllElems(b) ==>
      forall row, col :: 0 <= row < p.dimI && 0 <= col < p.dimJ ==> ElementExpected(OnOperands(p, a, b), s0, row, col)
  }

  /** Exactly when the run computes the sums of D + A * B^T for all operands, whatever the output width: with
      a bias always; with NULL for D exactly when there is one output tile and its accumulator elements hold
      zeros before the call. A full-width output stores the sum itself. */
  lemma ComputesIffCleanStart(p: Problem, s0: State)
    requires p.Valid()
    ensures (forall a, b :: ExpectedOn(p, s0, a, b)) <==> CleanStart(p, s0)
  {
    if CleanStart(p, s0) {
      forall a, b ensures ExpectedOn(p, s0, a, b) {
        if |a| == |p.mem.a| && |b| == |p.mem.b| {
          CleanExpected(p, s0, a, b);
        }
      }
    } else {
      OnesTellApart(p, s0);
    }
  }

  lemma CleanExpected(p: Problem, s0: State, a: seq<int>, b: seq<int>)
    requires p.Valid() && CleanStart(p, s0) && |a| == |p.mem.a| && |b| == |p.mem.b|
    ensures ExpectedOn(p, s0, a, b)
  {
    var q := OnOperands(p, a, b);
    assert q.Valid();
    CleanOnOperands(p, q, s0);
    forall row, col | 0 <= row < p.dimI && 0 <= col < p.dimJ ensures ElementExpected(q, s0, row, col) {
      CleanStartComputes(q, s0, row, col);
    }
  }

  lemma CleanOnOperands(p: Problem, q: Problem, s0: State)
    requires p.Valid() && q.Valid() && q == OnOperands(p, q.mem.a, q.mem.b)
    ensures CleanStart(p, s0) ==> CleanStart(q, s0)
  {
    if CleanStart(p, s0) && !p.hasBias {
      forall row, col | 0 <= row < q.dimI && 0 <= col < q.dimJ ensures ZeroAt(q, s0, row, col) {
        assert ZeroAt(p, s0, row, col);
      }
    }
  }

  /** Operands that are all ones show that a start is not clean. */
  lemma OnesTellApart(p: Problem, s0: State)
    requires p.Valid() && !CleanStart(p, s0)
    ensures !ExpectedOn(p, s0, Ones(|p.mem.a|), Ones(|p.mem.b|))
  {
    var a, b := Ones(|p.mem.a|), Ones(|p.mem.b|);
    var q := OnOperands(p, a, b);
    assert q.Valid() && !q.hasBias;
    TileCount(p.dimI, p.tileI);
    TileCount(p.dimJ, p.tileJ);
    if SingleTile(p) {
      var row, col :| 0 <= row < p.dimI && 0 <= col < p.dimJ && !ZeroAt(p, s0, row, col);
      TilesPartition(p.dimI, p.tileI, 0);
      TilesPartition(p.dimJ, p.tileJ, 0);
      assert From(p.tileI, 0) == 0 && From(p.tileJ, 0) == 0;
      FirstTileStart(q, s0, row, col);
      assert !ElementExpected(q, s0, row, col);
    } else {
      OnesTellTilesApart(q, s0);
    }
  }

  /** With two output tiles the first elements of both would have to start from zero, and the second
      starts K above the first. */
  lemma OnesTellTilesApart(p: Problem, s0: State)
    requires p.Valid() && !p.hasBias && !SingleTile(p)
    requires p.mem.a == Ones(|p.mem.a|) && p.mem.b == Ones(|p.mem.b|)
    ensures exists row, col :: 0 <= row < p.dimI && 0 <= col < p.dimJ && !ElementExpected(p, s0, row, col)
  {
    SecondTileStart(p, s0);
    OnesProduct(p, 0, 0);
    TileCount(p.dimI, p.tileI);
    TileCount(p.dimJ, p.tileJ);
    CornerOfTile(p, 0, 0);
    assert From(p.tileI, 0) == 0 && From(p.tileJ, 0) == 0;
    var row, col := From(p.tileI, SecondRow(p)), From(p.tileJ, SecondCol(p));
    if s0.acc(0, 0) == 0 {
      assert StartOf(p, s0, row, col) == p.dimK;
      assert !ElementExpected(p, s0, row, col);
    } else {
      assert StartOf(p, s0, 0, 0) == AccBefore(p, s0, 0, 0, 0, 0) == s0.acc(0, 0);
      assert !ElementExpected(p, s0, 0, 0);
    }
  }

  /** A 1 x 1 by 1 x (DIM + 1) product of ones, with one block per tile. */
  const TWO_TILES: Problem :=
    Problem(Dram([1], Ones(DIM + 1), [], 1, 1, 0, DIM + 1, DIM + 1, false, (x: int) => x, MATMUL),
            1, DIM + 1, 1, 1, 1, 1, false, true, false)

  const ZEROS: State := State((_, _) => 0, (_, _) => 0, (_, _) => 0, (_, _) => 0, _ => 0, _ => 0)

  lemma TwoTilesAreTwo()
    ensures TWO_TILES.Valid() && Tiles(1, 1) == 1 && Tiles(DIM + 1, 1) == 2
  {
    DimsSum(1, 1);
    BlocksOf(1, DIM - 1);
    assert Dims(1) - (DIM - 1) == 1;
    BlocksOf(2, DIM - 1);
    assert Dims(2) - (DIM - 1) == DIM + 1;
    BlockTiles(1, 1);
    BlockTiles(DIM + 1, 1);
  }

  /** A zero accumulator is not enough for two output tiles: the first element of the second tile is
      stored as 2, the product there is 1. */
  method RunTwoTiles() returns (dev: Gemmini)
    ensures TWO_TILES.Valid() && dev.mem == TWO_TILES.mem
    ensures dev.st.c(DIM) == 2 && TWO_TILES.Product(0, DIM) == 1
  {
    var p := TWO_TILES;
    TwoTilesAreTwo();
    dev := new Gemmini(p.mem, ZEROS);
    Run(dev, p);
    TwoTilesDiffer();
    assert Complete(p, ZEROS, dev.st, 0, DIM);
  }

  lemma TwoTilesDiffer()
    ensures TWO_TILES.Valid() && Computed(TWO_TILES, ZEROS, 0, DIM) == 2 && TWO_TILES.Product(0, DIM) == 1
  {
    TwoTilesAreTwo();
    var p := TWO_TILES;
    SecondTileStart(p, ZEROS);
    assert Ones(1) == [1];
    OnesProduct(p, 0, 0);
    OnesProduct(p, 0, DIM);
    assert From(p.tileI, 0) == 0 && From(p.tileJ, 1) == DIM;
  }

  // ---- the lowering and the reference ----

  /** The compiled command stream and the reference with transposed B write the same matrix. */
  lemma LoweringMatchesReference(p: Problem, m: Args, s0: State, s: State, before: seq<int>, c: seq<int>)
    requires p.Valid() && SameMatmul(p, m) && m.transB && CleanStart(p, s0)
    requires forall row, col :: 0 <= row < p.dimI && 0 <= col < p.dimJ ==> Complete(p, s0, s, row, col)
    requires Written(m, before, c, (i, j) => true)
    ensures forall row, col :: 0 <= row < p.dimI && 0 <= col < p.dimJ ==> SameElement(p, s, c, row, col)
  {
    forall row, col | 0 <= row < p.dimI && 0 <= col < p.dimJ
      ensures SameElement(p, s, c, row, col)
    {
      SumIsProduct(p, m, row, col, p.dimK);
      SameBias(p, m, row, col);
      CleanStartComputes(p, s0, row, col);
      assert Complete(p, s0, s, row, col);
      assert MatmulCpu.ResultAt(m, c, row, col);
    }
  }

  /** Running both, as the layer checks of the repository do. */
  method RunAndCheck(dev: Gemmini, p: Problem, m: Args, gold: array<int>)
    requires p.Valid() && dev.mem == p.mem && SameMatmul(p, m) && m.transB && m.Valid(gold.Length)
    requires CleanStart(p, dev.st)
    modifies dev, gold
    ensures forall row, col :: 0 <= row < p.dimI && 0 <= col < p.dimJ ==>
              SameElement(p, dev.st, gold[..], row, col)
  {
    ghost var before, s0 := gold[..], dev.st;
    Run(dev, p);
    Matmul(m, gold);
    LoweringMatchesReference(p, m, s0, dev.st, before, gold[..]);
  }

  /** Element (row, col) of the result is that of D + A * B^T after the output stage. */
  predicate StoresExpected(p: Problem, s: State, row: int, col: int) {
    s.c(row * p.mem.strideC + col) == Output(p.mem.stage, p.full, p.Expected(row, col))
  }

  /** `tiled_matmul_auto` for WS: whatever the search picks passes the checks of `tiled_matmul` and
      makes the run legal. Every element is stored once, with its start value plus A * B^T; from a
      clean start that is D + A * B^T. */
  method Auto(dev: Gemmini, dimI: nat, dimJ: nat, dimK: nat, hasBias: bool, full: bool, repeating: bool)
    returns (p: Problem, ghost padded: MatmulTiles.Tile, ghost root: int, ghost trace: seq<MatmulTiles.Tile>)
    requires 0 < dimI && 0 < dimJ && 0 < dimK && dev.mem.settings == MATMUL
    requires InBounds(|dev.mem.a|, 0, dev.mem.strideA, dimI, dimK) &&
             InBounds(|dev.mem.b|, 0, dev.mem.strideB, dimJ, dimK)
    requires hasBias ==> InBounds(|dev.mem.d|, 0, dev.mem.strideD, dimI, dimJ)
    requires repeating ==> dev.mem.strideD == 0
    requires InBounds(dev.mem.lenC, 0, dev.mem.strideC, dimI, dimJ) && dimJ <= dev.mem.strideC
    modifies dev
    ensures p.Valid() && MatmulTiles.Accepted(true, dimI, dimJ, dimK, p.tileI, p.tileJ, p.tileK)
    ensures p == Problem(dev.mem, dimI, dimJ, dimK, p.tileI, p.tileJ, p.tileK, hasBias, full, repeating)
    ensures MatmulTiles.IsSearch(true, false, dimI, dimJ, dimK, padded, root, trace,
                                 MatmulTiles.Tile(p.tileI, p.tileJ, p.tileK))
    ensures forall row, col :: 0 <= row < dimI && 0 <= col < dimJ ==> Complete(p, old(dev.st), dev.st, row, col)
    ensures CleanStart(p, old(dev.st)) ==>
              forall row, col :: 0 <= row < dimI && 0 <= col < dimJ ==> StoresExpected(p, dev.st, row, col)
    ensures Elsewhere(p, old(dev.st), dev.st)
  {
    ghost var s0 := dev.st;
    var tileI, tileJ, tileK;
    tileI, tileJ, tileK, padded, root, trace := MatmulTiles.Search(dimI, dimJ, dimK, true, false);
    p := Problem(dev.mem, dimI, dimJ, dimK, tileI, tileJ, tileK, hasBias, full, repeating);
    Run(dev, p);
    if CleanStart(p, s0) {
      forall row, col | 0 <= row < dimI && 0 <= col < dimJ ensures StoresExpected(p, dev.st, row, col) {
        CleanStartComputes(p, s0, row, col);
        assert Complete(p, s0, dev.st, row, col);
      }
    }
  }

  /** The layer checks pass transpose_B = false to both sides. The accelerator still computes
      A * B^T, the reference A * B: on this 1x2 by 2x2 product they disagree. */
  lemma UntransposedReferenceDiffers()
    ensures exists p: Problem, m: Args ::
      && p.Valid() && SameMatmul(p, m) && !m.transB && m.Valid(p.mem.lenC)
      && Output(p.mem.stage, p.full, p.Expected(0, 1)) != m.Result(0, 1)
  {
    var stage := (x: int) => ScaleAndSat(x, NoActivation, 1.0);
    var mem := Dram([1, 0], [0, 1, 0, 0], [0, 0], 2, 2, 2, 2, 2, false, stage, MATMUL);
    var p := Problem(mem, 1, 2, 2, 1, 1, 1, true, false, false);
    var m := Args(false, false, 1, 2, 2, mem.a, mem.b, Some(mem.d), 2, 2, 2, 2, 1.0, 1.0, NoActivation, 1.0, false);
    assert p.Product(0, 1) == 0 by {
      assert TiledMatmul.Prod(mem, 0, 2, 1) == 0;
    }
    RoundNearEvenFixesIntegers(0);
    RoundNearEvenFixesIntegers(1);
    IdentityScale(0);
    IdentityScale(1);
    assert m.Term(0, 1, 0) == 1 && m.Term(0, 1, 1) == 0;
    assert m.Sum(0, 1, 1) == 1;
    assert m.Result(0, 1) == 1;
    DimsSum(1, 1);
    assert p.Valid() && SameMatmul(p, m) && m.Valid(mem.lenC);
  }

  // ---- the reference without transposition ----

  /** The buffer of B reads the same by rows and by columns. */
  predicate SymmetricAt(p: Problem, j: int, k: int) {
    At(p.mem.b, j * p.mem.strideB + k) == At(p.mem.b, k * p.mem.strideB + j)
  }

  ghost predicate Symmetric(p: Problem) {
    forall j, k :: 0 <= j < p.dimJ && 0 <= k < p.dimK ==> SymmetricAt(p, j, k)
  }

  predicate SumAgrees(p: Problem, m: Args, row: int, col: int) {
    p.Expected(row, col) == m.Sum(row, col, p.dimK)
  }

  ghost predicate SumsAgree(p: Problem, m: Args) {
    forall row, col :: 0 <= row < p.dimI && 0 <= col < p.dimJ ==> SumAgrees(p, m, row, col)
  }

  lemma SymmetricTerm(p: Problem, m: Args, row: int, col: int, t: int)
    requires SameMatmul(p, m) && !m.transB && SymmetricAt(p, col, t)
    ensures m.Term(row, col, t) == At(p.mem.a, row * p.mem.strideA + t) * At(p.mem.b, col * p.mem.strideB + t)
  {
    var x, w := At(m.a, row * m.strideA + t), At(m.b, t * m.strideB + col);
    AtIsElem(m.a, row * m.strideA + t);
    AtIsElem(m.b, t * m.strideB + col);
    PlainTerm(m, row, col, t, x, w);
  }

  lemma {:induction false} SymmetricSum(p: Problem, m: Args, row: int, col: int, n: nat)
    requires SameMatmul(p, m) && !m.transB
    requires Symmetric(p) && 0 <= col < p.dimJ && n <= p.dimK
    ensures m.Sum(row, col, n)
            == m.Bias(row, col) + TiledMatmul.Prod(p.mem, row * p.mem.strideA, col * p.mem.strideB, n)
  {
    if n != 0 {
      SymmetricSum(p, m, row, col, n - 1);
      assert SymmetricAt(p, col, n - 1);
      SymmetricTerm(p, m, row, col, n - 1);
    }
  }

  /** The same matmul with another A. */
  function WithA(p: Problem, a: seq<int>): Problem { p.(mem := p.mem.(a := a)) }

  function Unit(len: nat, k: nat): seq<int> { seq(len, x => if x == k then 1 else 0) }

  lemma {:induction false} UnitProduct(p: Problem, k: nat, col: int, n: nat)
    requires n <= |p.mem.a|
    ensures TiledMatmul.Prod(WithA(p, Unit(|p.mem.a|, k)).mem, 0, col * p.mem.strideB, n)
         == if k < n then At(p.mem.b, col * p.mem.strideB + k) else 0
  {
    if n != 0 {
      UnitProduct(p, k, col, n - 1);
      assert At(Unit(|p.mem.a|, k), n - 1) == if n - 1 == k then 1 else 0;
    }
  }

  lemma UnitTerm(m: Args, k: nat, col: int, t: nat)
    requires AllElems(m.b) && !m.transA && !m.transB && m.scaleA == 1.0 && m.scaleB == 1.0 && t < |m.a|
    ensures m.(a := Unit(|m.a|, k)).Term(0, col, t) == if t == k then At(m.b, t * m.strideB + col) else 0
  {
    var m', x, w := m.(a := Unit(|m.a|, k)), if t == k then 1 else 0, At(m.b, t * m.strideB + col);
    assert At(m'.a, 0 * m'.strideA + t) == x;
    AtIsElem(m.b, t * m.strideB + col);
    PlainTerm(m', 0, col, t, x, w);
  }

  lemma {:induction false} UnitSum(p: Problem, m: Args, k: nat, col: int, n: nat)
    requires SameMatmul(p, m) && !m.transB && n <= |m.a|
    ensures m.(a := Unit(|m.a|, k)).Sum(0, col, n)
         == m.Bias(0, col) + if k < n then At(m.b, k * m.strideB + col) else 0
  {
    if n != 0 {
      UnitSum(p, m, k, col, n - 1);
      UnitTerm(m, k, col, n - 1);
    }
  }

  ghost predicate AgreesOn(p: Problem, m: Args, a: seq<int>) {
    |a| == |p.mem.a| && AllElems(a) ==> SumsAgree(WithA(p, a), m.(a := a))
  }

  /** Exactly when the untransposed reference is met: for a given B, the accelerator's sums are those
      of the untransposed reference for every A if and only if B is symmetric as stored. */
  lemma UntransposedMatchesIffSymmetric(p: Problem, m: Args)
    requires p.Valid() && SameMatmul(p, m) && !m.transB
    ensures Symmetric(p) <==> forall a: seq<int> :: AgreesOn(p, m, a)
  {
    if Symmetric(p) {
      forall a: seq<int> ensures AgreesOn(p, m, a) {
        SymmetricAgrees(p, m, a);
      }
    } else {
      var j, k :| 0 <= j < p.dimJ && 0 <= k < p.dimK && !SymmetricAt(p, j, k);
      UnitTellsApart(p, m, j, k);
      assert !AgreesOn(p, m, Unit(|p.mem.a|, k));
    }
  }

  lemma SymmetricAgrees(p: Problem, m: Args, a: seq<int>)
    requires SameMatmul(p, m) && !m.transB && Symmetric(p)
    ensures AgreesOn(p, m, a)
  {
    if AllElems(a) {
      var q := WithA(p, a);
      forall j, k | 0 <= j < q.dimJ && 0 <= k < q.dimK ensures SymmetricAt(q, j, k) {
        assert SymmetricAt(p, j, k);
      }
      SymmetricMatches(q, m.(a := a));
    }
  }

  lemma SymmetricMatches(p: Problem, m: Args)
    requires SameMatmul(p, m) && !m.transB && Symmetric(p)
    ensures SumsAgree(p, m)
  {
    forall row, col | 0 <= row < p.dimI && 0 <= col < p.dimJ
      ensures SumAgrees(p, m, row, col)
    {
      SymmetricSum(p, m, row, col, p.dimK);
      SameBias(p, m, row, col);
    }
  }

  /** An A whose first row selects column k shows the asymmetry at (j, k). */
  lemma UnitTellsApart(p: Problem, m: Args, j: nat, k: nat)
    requires p.Valid() && SameMatmul(p, m) && !m.transB && j < p.dimJ && k < p.dimK && !SymmetricAt(p, j, k)
    ensures var a := Unit(|p.mem.a|, k);
            |a| == |p.mem.a| && AllElems(a) && !SumsAgree(WithA(p, a), m.(a := a))
  {
    var a := Unit(|p.mem.a|, k);
    MulMono(0, p.dimI - 1, p.mem.strideA);
    UnitProduct(p, k, j, p.dimK);
    UnitSum(p, m, k, j, p.dimK);
    SameBias(p, m, 0, j);
    assert !SumAgrees(WithA(p, a), m.(a := a), 0, j);
  }

  // ---- the layer call: B is a K x J buffer with row stride J ----

  /** What a layer passes for B: a dim_K x dim_J buffer with row stride dim_J. */
  predicate LayerB(p: Problem) { |p.mem.b| == p.dimK * p.dimJ && p.mem.strideB == p.dimJ }

  /** The stream reads it as a dim_J x dim_K matrix: its move-ins stay inside the buffer, and the call is
      legal, exactly when dim_J is at most dim_K. */
  lemma LayerLoadsInsideIff(p: Problem)
    requires p.LegalButB() && LayerB(p)
    ensures LoadsInside(p) <==> p.dimJ <= p.dimK
    ensures p.Valid() <==> p.dimJ <= p.dimK
  {
    LoadsInsideIffInBounds(p);
    LayerRectangle(p.dimJ, p.dimK);
  }

  lemma LayerRectangle(dimJ: nat, dimK: nat)
    requires 0 < dimJ && 0 < dimK
    ensures InBounds(dimK * dimJ, 0, dimJ, dimJ, dimK) <==> dimJ <= dimK
  {
    var over := dimJ - dimK;
    assert (dimJ - 1) * dimJ + dimK - dimK * dimJ == over * (dimJ - 1);
    if 0 < over {
      MulMono(1, over, dimJ - 1);
    } else {
      MulMono(over, 0, dimJ - 1);
    }
  }

  /** A layer of one row and DIM + 1 columns, with one block per tile. */
  const WIDE_LAYER: Problem :=
    Problem(Dram([1], Ones(DIM + 1), Ones(DIM + 1), 1, DIM + 1, DIM + 1, DIM + 1, DIM + 1, false, (x: int) => x,
                 MATMUL),
            1, DIM + 1, 1, 1, 1, 1, true, false, false)

  /** Its second call moves in B from element DIM * (DIM + 1) on; B has DIM + 1 elements. */
  lemma WideLayerReadsPastB()
    ensures WIDE_LAYER.LegalButB() && LayerB(WIDE_LAYER) && Tiles(1, 1) == 1 && Tiles(DIM + 1, 1) == 2
    ensures var job := JobAt(WIDE_LAYER, 0, 1, 0);
            job.Shape() && LoadsB(job, 0, 0) && !LoadBInside(job, 0, 0) && |WIDE_LAYER.mem.b| <= job.b + Dims(0)
  {
    TwoTilesAreTwo();
    DimsSum(1, 1);
    var job := JobAt(WIDE_LAYER, 0, 1, 0);
    JobShape(WIDE_LAYER, 0, 1, 0);
    assert job.b == DIM * (DIM + 1) by {
      assert From(1, 1) == DIM && From(1, 0) == 0;
    }
    MulMono(1, DIM, DIM + 1);
    assert Dims(0) == 0;
    LoadPastEnd(job, 0, 0);
  }
}
