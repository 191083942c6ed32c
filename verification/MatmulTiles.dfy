/** The greedy tile search of `tiled_matmul_auto` and the checks of `tiled_matmul`. */
module MatmulTiles {
  import opened Params

  const MAX_TILE := 65535

  function SpadRows(i: int, j: int, k: int): int { Dims(i * k + k * j) }
  function AccRows(i: int, j: int): int { Dims(i * j) }

  /** Budgets: half of each memory when the dataflow double-buffers (WS). */
  function MaxSpadRows(ws: bool): int { if ws then SPAD_ROWS / 2 else SPAD_ROWS }
  function MaxAccRows(ws: bool): int { if ws then ACC_ROWS / 2 else ACC_ROWS }

  /** `(size_t)sqrt(n)`. */
  function FloorSqrt(n: nat): (r: nat)
    ensures r * r <= n < (r + 1) * (r + 1)
  {
    if n == 0 then 0 else
      var r := FloorSqrt(n - 1);
      if (r + 1) * (r + 1) <= n then r + 1 else r
  }

  /** The starting bounds: max_tile_i_j and max_tile_k, plain and double-buffered. */
  function MatsInAcc(ws: bool): nat { if ws then ACC_ROWS / 2 / DIM else ACC_ROWS / DIM }
  function MatsInPartition(ws: bool): nat {
    if ws then SPAD_ROWS / 2 / 2 / DIM else SPAD_ROWS / 2 / DIM
  }
  function MaxTileIJ(ws: bool): nat { FloorSqrt(MatsInAcc(ws)) }
  function MaxTileK(ws: bool): nat
    requires MaxTileIJ(ws) > 0
  { MatsInPartition(ws) / MaxTileIJ(ws) }

  predicate FitsSpad(ws: bool, i: int, j: int, k: int) { SpadRows(i, j, k) <= MaxSpadRows(ws) }
  predicate FitsAcc(ws: bool, i: int, j: int) { AccRows(i, j) <= MaxAccRows(ws) }

  /** The checks on the tile factors that `tiled_matmul` makes before it runs. */
  predicate Accepted(ws: bool, dimI: nat, dimJ: nat, dimK: nat, i: int, j: int, k: int) {
    && 0 < i && 0 < j && 0 < k
    && Dims(i) <= Dims(Blocks(dimI)) && Dims(j) <= Dims(Blocks(dimJ)) && Dims(k) <= Dims(Blocks(dimK))
    && FitsSpad(ws, i, j, k) && FitsAcc(ws, i, j)
    && i <= MAX_TILE && j <= MAX_TILE && k <= MAX_TILE
  }

  /** No factor of an accepted tile can be raised by one. */
  predicate Maximal(ws: bool, dimI: nat, dimJ: nat, dimK: nat, i: int, j: int, k: int) {
    && !Accepted(ws, dimI, dimJ, dimK, i + 1, j, k)
    && !Accepted(ws, dimI, dimJ, dimK, i, j + 1, k)
    && !Accepted(ws, dimI, dimJ, dimK, i, j, k + 1)
  }

  /** What the budgets amount to: an accumulator budget of at least one block, and a scratchpad budget
      of at least twice that and a block. */
  lemma Budgets(ws: bool)
    ensures DIM <= MaxAccRows(ws) && 2 * MaxAccRows(ws) <= MaxSpadRows(ws)
    ensures MaxAccRows(ws) <= ACC_ROWS && MaxSpadRows(ws) <= SPAD_ROWS && MaxSpadRows(ws) <= Dims(0xFFFF)
    ensures MatsInAcc(ws) == MaxAccRows(ws) / DIM && MatsInPartition(ws) == MaxSpadRows(ws) / 2 / DIM
  {}

  lemma DivMono(x: int, y: int, d: int)
    requires x <= y && 0 < d
    ensures x / d <= y / d
  {
    MulMono(y / d + 1, x / d, d);
  }

  lemma StartBounds(ws: bool)
    ensures 0 < MaxTileIJ(ws) <= MatsInAcc(ws) && 0 < MaxTileK(ws)
    ensures MaxTileIJ(ws) * MaxTileIJ(ws) <= MatsInAcc(ws) && MaxTileIJ(ws) * MaxTileK(ws) <= MatsInPartition(ws)
  {
    Budgets(ws);
    DivMono(DIM, MaxAccRows(ws), DIM);
    DivMono(MaxAccRows(ws), MaxSpadRows(ws) / 2, DIM);
    RootBounds(MatsInAcc(ws), MatsInPartition(ws), MaxTileIJ(ws));
  }

  lemma RootBounds(m: int, p: int, r: int)
    requires 1 <= m <= p && 0 <= r && r * r <= m < (r + 1) * (r + 1)
    ensures 0 < r <= m && 0 < p / r && r * (p / r) <= p
  {
    assert r != 0;
    MulMono(1, r, r);
    DivMono(r, p, r);
    assert r / r == 1;
  }

  /** The square-root starting tile already fits, whatever the dimensions. */
  lemma StartFits(ws: bool, i: int, j: int, k: int)
    requires 0 < i <= MaxTileIJ(ws) && 0 < j <= MaxTileIJ(ws) && 0 < MaxTileIJ(ws) && 0 < k <= MaxTileK(ws)
    ensures FitsSpad(ws, i, j, k) && FitsAcc(ws, i, j)
  {
    var r, maxK := MaxTileIJ(ws), MaxTileK(ws);
    StartBounds(ws);
    Budgets(ws);
    SmallTile(i, j, k, r, maxK);
    DimsMono(i * j, MatsInAcc(ws));
    BlockOf(MaxAccRows(ws));
    DimsMono(i * k + k * j, 2 * MatsInPartition(ws));
    BlockOf(MaxSpadRows(ws) / 2);
    DimsSum(MatsInPartition(ws), MatsInPartition(ws));
  }

  lemma SmallTile(i: int, j: int, k: int, r: int, maxK: int)
    requires 0 < i <= r && 0 < j <= r && 0 < k <= maxK
    ensures i * j <= r * r && i * k + k * j <= 2 * (r * maxK)
  {
    MulMono(i, r, k);
    MulMono(j, r, k);
    MulMono(k, maxK, r);
    MulMono(i, r, j);
    MulMono(j, r, r);
  }

  /** A tile that fits is inside the 16-bit loop bounds. */
  lemma FitsIsSmall(ws: bool, i: int, j: int, k: int)
    requires 0 < i && 0 < j && 0 < k && FitsSpad(ws, i, j, k) && FitsAcc(ws, i, j)
    ensures i <= MAX_TILE && j <= MAX_TILE && k <= MAX_TILE
  {
    Budgets(ws);
    FactorsBelow(i, j, k);
    DimsMono(0xFFFF, i * k + k * j);
  }

  lemma FactorsBelow(i: int, j: int, k: int)
    requires 0 < i && 0 < j && 0 < k
    ensures i < i * k + k * j && j < i * k + k * j && k < i * k + k * j
  {
    MulMono(1, i, k);
    MulMono(1, j, k);
    MulMono(1, k, i);
    MulMono(1, k, j);
  }

  /** Raising a factor never lowers the row counts. */
  lemma Growing(i: nat, j: nat, k: nat)
    ensures SpadRows(i, j, k) <= SpadRows(i, j + 1, k) && AccRows(i, j) <= AccRows(i, j + 1)
    ensures SpadRows(i, j, k) <= SpadRows(i + 1, j, k) && AccRows(i, j) <= AccRows(i + 1, j)
    ensures SpadRows(i, j, k) <= SpadRows(i, j, k + 1)
  {
    DimsMono(i * k + k * j, i * k + k * (j + 1));
    DimsMono(i * k + k * j, (i + 1) * k + k * j);
    DimsMono(i * k + k * j, i * (k + 1) + (k + 1) * j);
    DimsMono(i * j, i * (j + 1));
    DimsMono(i * j, (i + 1) * j);
  }

  predicate Fits(ws: bool, i: int, j: int, k: int) { FitsSpad(ws, i, j, k) && FitsAcc(ws, i, j) }

  /** The starting tile for LAYERNORM and SOFTMAX, a row of all n column blocks, fits exactly when the
      padded row fits the accumulator budget; with one column more than the budget it never does. */
  lemma NormalisingFitsIff(ws: bool, n: int)
    requires 0 < n
    ensures Fits(ws, 1, n, 1) <==> Dims(n) <= MaxAccRows(ws)
    ensures !Fits(ws, 1, Blocks(MaxAccRows(ws) + 1), 1)
  {
    Budgets(ws);
    DimsStep(n);
    var wide := Blocks(MaxAccRows(ws) + 1);
    BlocksCover(MaxAccRows(ws) + 1);
    assert 1 * wide == wide;
  }

  // ---- the search, in numbers ----

  /** Tile factors, or the padded dimensions. */
  datatype Tile = Tile(i: int, j: int, k: int) {
    /** The weight-stationary dataflow double-buffers: a tile may take half of each memory. */
    predicate InSpad(ws: bool) {
      (i * k + k * j) * DIM <= if ws then BANK_NUM * BANK_ROWS / 2 else BANK_NUM * BANK_ROWS
    }
    predicate InAcc(ws: bool) { i * j * DIM <= if ws then ACC_ROWS / 2 else ACC_ROWS }
  }

  predicate IsPadded(dim: int, padded: int) { padded % DIM == 0 && dim <= padded < dim + DIM }

  /** One round of the fill loop: j, then i, then k goes up by one if the tile stays in budget and inside the padded
      dimension. */
  predicate Round(ws: bool, padded: Tile, t: Tile,
                  u: Tile) { u == WithK(ws, padded, WithI(ws, padded, WithJ(ws, padded, t))) }

  function WithJ(ws: bool, padded: Tile, t: Tile): Tile {
    var more := t.(j := t.j + 1);
    if more.InSpad(ws) && more.InAcc(ws) && more.j * DIM <= padded.j then more else t
  }

  function WithI(ws: bool, padded: Tile, t: Tile): Tile {
    var more := t.(i := t.i + 1);
    if more.InSpad(ws) && more.InAcc(ws) && more.i * DIM <= padded.i then more else t
  }

  function WithK(ws: bool, padded: Tile, t: Tile): Tile {
    var more := t.(k := t.k + 1);
    if more.InSpad(ws) && more.k * DIM <= padded.k then more else t
  }

  ghost predicate Rounds(ws: bool, padded: Tile, trace: seq<Tile>) {
    |trace| > 0 && forall n :: 0 <= n < |trace| - 1 ==> Round(ws, padded, trace[n], trace[n + 1])
  }

  /** The tile that the loop starts from: for a normalising activation a whole row of the result, otherwise at most
      the root of the accumulator budget in blocks, and as deep as half the scratchpad budget then allows. */
  predicate IsStart(ws: bool, normalising: bool, padded: Tile, root: int, t: Tile) {
    var acc := (if ws then ACC_ROWS / 2 else ACC_ROWS) / DIM;
    var spad := (if ws then BANK_NUM * BANK_ROWS / 2 / 2 else BANK_NUM * BANK_ROWS / 2) / DIM;
    && 0 < root && root * root <= acc < (root + 1) * (root + 1)
    && t.j == (if normalising || padded.j / DIM < root then padded.j / DIM else root)
    && t.i == (if normalising then 1 else if padded.i / DIM < root then padded.i / DIM else root)
    && t.k == (if normalising then 1 else if padded.k / DIM < spad / root then padded.k / DIM else spad / root)
  }

  /** A run of the search: `trace` are the tiles after each round, up to the first round that changes nothing. */
  ghost predicate IsSearch(ws: bool, normalising: bool, dimI: int, dimJ: int, dimK: int, padded: Tile, root: int,
                           trace: seq<Tile>, t: Tile)
  {
    && IsPadded(dimI, padded.i) && IsPadded(dimJ, padded.j) && IsPadded(dimK, padded.k)
    && Rounds(ws, padded, trace) && IsStart(ws, normalising, padded, root, trace[0])
    && trace[|trace| - 1] == t && Round(ws, padded, t, t)
  }

  lemma PaddedIs(dim: int)
    ensures IsPadded(dim, Dims(Blocks(dim)))
  {
    BlocksCover(dim);
    InBlock(Blocks(dim), 0);
  }

  lemma MoreRounds(ws: bool, padded: Tile, trace: seq<Tile>, u: Tile)
    requires Rounds(ws, padded, trace) && Round(ws, padded, trace[|trace| - 1], u)
    ensures Rounds(ws, padded, trace + [u])
  {
    var more := trace + [u];
    forall n | 0 <= n < |more| - 1 ensures Round(ws, padded, more[n], more[n + 1]) {
      if n < |trace| - 1 {
        assert Round(ws, padded, trace[n], trace[n + 1]);
      }
    }
  }

  lemma {:induction false} RoundsSame(ws: bool, padded: Tile, s: seq<Tile>, s': seq<Tile>, n: nat)
    requires Rounds(ws, padded, s) && Rounds(ws, padded, s') && s[0] == s'[0] && n < |s| && n < |s'|
    ensures s[n] == s'[n]
  {
    if n != 0 {
      RoundsSame(ws, padded, s, s', n - 1);
      assert Round(ws, padded, s[n - 1], s[n - 1 + 1]) && Round(ws, padded, s'[n - 1], s'[n - 1 + 1]);
    }
  }

  lemma {:induction false} RoundsStay(ws: bool, padded: Tile, s: seq<Tile>, n: nat, m: nat)
    requires Rounds(ws, padded, s) && n <= m < |s| && Round(ws, padded, s[n], s[n])
    ensures s[m] == s[n]
  {
    if n < m {
      RoundsStay(ws, padded, s, n, m - 1);
      assert Round(ws, padded, s[m - 1], s[m - 1 + 1]);
    }
  }

  lemma RoundsEndSame(ws: bool, padded: Tile, s: seq<Tile>, s': seq<Tile>)
    requires Rounds(ws, padded, s) && Rounds(ws, padded, s') && s[0] == s'[0] && |s| <= |s'|
    requires Round(ws, padded, s[|s| - 1], s[|s| - 1])
    ensures s[|s| - 1] == s'[|s'| - 1]
  {
    RoundsSame(ws, padded, s, s', |s| - 1);
    RoundsStay(ws, padded, s', |s| - 1, |s'| - 1);
  }

  lemma PaddedOnce(dim: int, p: int, q: int)
    requires IsPadded(dim, p) && IsPadded(dim, q)
    ensures p == q
  {
    BlockOf(p);
    BlockOf(q);
    DimsMono(p / DIM, q / DIM);
    DimsMono(q / DIM, p / DIM);
  }

  lemma RootOnce(n: int, r: int, q: int)
    requires 0 < r && 0 < q && r * r <= n < (r + 1) * (r + 1) && q * q <= n < (q + 1) * (q + 1)
    ensures r <= q
  {
    if q < r {
      MulMono(q + 1, r, q + 1);
      MulMono(q + 1, r, r);
    }
  }

  lemma StartsOnce(ws: bool, normalising: bool, padded: Tile, root: int, root': int, t: Tile, t': Tile)
    requires IsStart(ws, normalising, padded, root, t) && IsStart(ws, normalising, padded, root', t')
    ensures t == t'
  {
    var acc := (if ws then ACC_ROWS / 2 else ACC_ROWS) / DIM;
    RootOnce(acc, root, root');
    RootOnce(acc, root', root);
  }

  /** Two runs of the search end in the same tile. */
  lemma SearchIsDetermined(ws: bool, normalising: bool, dimI: int, dimJ: int, dimK: int, padded: Tile, root: int,
                           s: seq<Tile>, t: Tile, padded': Tile, root': int, s': seq<Tile>, t': Tile)
    requires IsSearch(ws, normalising, dimI, dimJ, dimK, padded, root, s, t)
    requires IsSearch(ws, normalising, dimI, dimJ, dimK, padded', root', s', t')
    ensures t == t'
  {
    PaddedOnce(dimI, padded.i, padded'.i);
    PaddedOnce(dimJ, padded.j, padded'.j);
    PaddedOnce(dimK, padded.k, padded'.k);
    StartsOnce(ws, normalising, padded, root, root', s[0], s'[0]);
    if |s| <= |s'| {
      RoundsEndSame(ws, padded, s, s');
    } else {
      RoundsEndSame(ws, padded, s', s);
    }
  }

  /** The checks of `tiled_matmul`, in numbers. */
  lemma AcceptedIff(ws: bool, dimI: nat, dimJ: nat, dimK: nat, t: Tile)
    ensures Accepted(ws, dimI, dimJ, dimK, t.i, t.j, t.k) <==>
              && 0 < t.i <= 65535 && 0 < t.j <= 65535 && 0 < t.k <= 65535
              && (t.i - 1) * DIM < dimI && (t.j - 1) * DIM < dimJ && (t.k - 1) * DIM < dimK
              && t.InSpad(ws) && t.InAcc(ws)
  {
    InPadded(t.i, dimI);
    InPadded(t.j, dimJ);
    InPadded(t.k, dimK);
  }

  lemma InPadded(x: int, dim: int)
    ensures Dims(x) <= Dims(Blocks(dim)) <==> (x - 1) * DIM < dim
  {
    BlocksCover(dim);
    DimsMono(x, Blocks(dim));
    DimsMono(Blocks(dim) + 1, x);
    DimsStep(x - 1);
    DimsStep(Blocks(dim));
  }

  /** One round of the fill loop: each factor is raised if the raised tile still fits. */
  method Fill(ws: bool, paddedI: int, paddedJ: int, paddedK: int, i0: nat, j0: nat, k0: nat)
    returns (i: nat, j: nat, k: nat, increased: bool)
    requires 0 < i0 && 0 < j0 && 0 < k0 && Dims(i0) <= paddedI && Dims(j0) <= paddedJ && Dims(k0) <= paddedK
    ensures i0 <= i && j0 <= j && k0 <= k && Dims(i) <= paddedI && Dims(j) <= paddedJ && Dims(k) <= paddedK
    ensures increased <==> i0 < i || j0 < j || k0 < k
    ensures increased ==> Dims(i0) + Dims(j0) + Dims(k0) < Dims(i) + Dims(j) + Dims(k)
    ensures !increased ==> !(Fits(ws, i + 1, j, k) && Dims(i + 1) <= paddedI)
    ensures !increased ==> !(Fits(ws, i, j + 1, k) && Dims(j + 1) <= paddedJ)
    ensures !increased ==> !(Fits(ws, i, j, k + 1) && Dims(k + 1) <= paddedK)
    ensures Fits(ws, i, j, k) <==> Fits(ws, i0, j0, k0)
    ensures Round(ws, Tile(paddedI, paddedJ, paddedK), Tile(i0, j0, k0), Tile(i, j, k))
  {
    var padded := Tile(paddedI, paddedJ, paddedK);
    var raisedI, raisedJ, raisedK;
    j, raisedJ := RaiseJ(ws, padded, i0, j0, k0);
    i, raisedI := RaiseI(ws, padded, i0, j, k0);
    k, raisedK := RaiseK(ws, padded, i, j, k0);
    increased := raisedJ || raisedI || raisedK;
    DimsMono(i0, i);
    DimsMono(j0, j);
    DimsMono(k0, k);
  }

  method RaiseJ(ws: bool, padded: Tile, i: nat, j0: nat, k: nat) returns (j: nat, raised: bool)
    requires Dims(j0) <= padded.j
    ensures Tile(i, j, k) == WithJ(ws, padded, Tile(i, j0, k)) && Dims(j) <= padded.j
    ensures if raised then j == j0 + 1 else j == j0 && !(Fits(ws, i, j + 1, k) && Dims(j + 1) <= padded.j)
    ensures Fits(ws, i, j, k) <==> Fits(ws, i, j0, k)
  {
    j, raised := j0, false;
    Growing(i, j, k);
    if SpadRows(i, j + 1, k) <= MaxSpadRows(ws) && AccRows(i, j + 1) <= MaxAccRows(ws) && Dims(j + 1) <= padded.j {
      j := j + 1;
      raised := true;
    }
  }

  method RaiseI(ws: bool, padded: Tile, i0: nat, j: nat, k: nat) returns (i: nat, raised: bool)
    requires Dims(i0) <= padded.i
    ensures Tile(i, j, k) == WithI(ws, padded, Tile(i0, j, k)) && Dims(i) <= padded.i
    ensures if raised then i == i0 + 1 else i == i0 && !(Fits(ws, i + 1, j, k) && Dims(i + 1) <= padded.i)
    ensures Fits(ws, i, j, k) <==> Fits(ws, i0, j, k)
  {
    i, raised := i0, false;
    Growing(i, j, k);
    if SpadRows(i + 1, j, k) <= MaxSpadRows(ws) && AccRows(i + 1, j) <= MaxAccRows(ws) && Dims(i + 1) <= padded.i {
      i := i + 1;
      raised := true;
    }
  }

  method RaiseK(ws: bool, padded: Tile, i: nat, j: nat, k0: nat) returns (k: nat, raised: bool)
    requires Dims(k0) <= padded.k
    ensures Tile(i, j, k) == WithK(ws, padded, Tile(i, j, k0)) && Dims(k) <= padded.k
    ensures if raised then k == k0 + 1 else k == k0 && !(Fits(ws, i, j, k + 1) && Dims(k + 1) <= padded.k)
    ensures Fits(ws, i, j, k) <==> Fits(ws, i, j, k0)
  {
    k, raised := k0, false;
    Growing(i, j, k);
    if SpadRows(i, j, k + 1) <= MaxSpadRows(ws) && Dims(k + 1) <= padded.k {
      k := k + 1;
      raised := true;
    }
  }

  /** `normalising` is act == LAYERNORM || act == SOFTMAX. */
  method Search(dimI: nat, dimJ: nat, dimK: nat, ws: bool, normalising: bool)
    returns (tileI: nat, tileJ: nat, tileK: nat, ghost padded: Tile, ghost root: int, ghost trace: seq<Tile>)
    requires 0 < dimI && 0 < dimJ && 0 < dimK
    ensures 0 < tileI <= Blocks(dimI) && 0 < tileJ <= Blocks(dimJ) && 0 < tileK <= Blocks(dimK)
    ensures Maximal(ws, dimI, dimJ, dimK, tileI, tileJ, tileK)
    ensures Accepted(ws, dimI, dimJ, dimK, tileI, tileJ, tileK) <==>
              !normalising || Dims(Blocks(dimJ)) <= MaxAccRows(ws)
    ensures normalising ==> tileJ == Blocks(dimJ)
    ensures IsSearch(ws, normalising, dimI, dimJ, dimK, padded, root, trace, Tile(tileI, tileJ, tileK))
  {
    var paddedI, paddedJ, paddedK := Dims(Blocks(dimI)), Dims(Blocks(dimJ)), Dims(Blocks(dimK));
    PaddedBlocks(dimI);
    PaddedBlocks(dimJ);
    PaddedBlocks(dimK);
    StartBounds(ws);
    if normalising {
      tileI, tileJ, tileK := 1, paddedJ / DIM, 1;
    } else {
      tileI := Min(paddedI / DIM, MaxTileIJ(ws));
      tileJ := Min(paddedJ / DIM, MaxTileIJ(ws));
      tileK := Min(paddedK / DIM, MaxTileK(ws));
      StartFits(ws, tileI, tileJ, tileK);
    }
    ghost var startFits := Fits(ws, tileI, tileJ, tileK);
    NormalisingFitsIff(ws, Blocks(dimJ));
    StartInRange(tileI, tileJ, tileK, Blocks(dimI), Blocks(dimJ), Blocks(dimK));
    padded, root := Tile(paddedI, paddedJ, paddedK), MaxTileIJ(ws);
    PaddedIs(dimI);
    PaddedIs(dimJ);
    PaddedIs(dimK);
    tileI, tileJ, tileK, trace := FillUp(ws, paddedI, paddedJ, paddedK, tileI, tileJ, tileK);
    FactorsInRange(dimI, dimJ, dimK, tileI, tileJ, tileK);
    if startFits {
      FitsIsSmall(ws, tileI, tileJ, tileK);
    }
  }

  lemma PaddedBlocks(dim: nat)
    requires 0 < dim
    ensures 1 <= Blocks(dim) && Dims(Blocks(dim)) / DIM == Blocks(dim)
  {
    BlocksCover(dim);
    DimsMono(Blocks(dim), 0);
    InBlock(Blocks(dim), 0);
  }

  lemma StartInRange(i: int, j: int, k: int, maxI: int, maxJ: int, maxK: int)
    requires i <= maxI && j <= maxJ && k <= maxK
    ensures Dims(i) <= Dims(maxI) && Dims(j) <= Dims(maxJ) && Dims(k) <= Dims(maxK)
  {
    DimsMono(i, maxI);
    DimsMono(j, maxJ);
    DimsMono(k, maxK);
  }

  lemma FactorsInRange(dimI: nat, dimJ: nat, dimK: nat, i: int, j: int, k: int)
    requires Dims(i) <= Dims(Blocks(dimI)) && Dims(j) <= Dims(Blocks(dimJ)) && Dims(k) <= Dims(Blocks(dimK))
    ensures i <= Blocks(dimI) && j <= Blocks(dimJ) && k <= Blocks(dimK)
  {
    DimsMono(Blocks(dimI), i);
    DimsMono(Blocks(dimJ), j);
    DimsMono(Blocks(dimK), k);
  }

  /** The loop itself: it ends because every round but the last raises a factor. */
  method FillUp(ws: bool, paddedI: int, paddedJ: int, paddedK: int, i0: nat, j0: nat, k0: nat)
    returns (i: nat, j: nat, k: nat, ghost trace: seq<Tile>)
    requires 0 < i0 && 0 < j0 && 0 < k0 && Dims(i0) <= paddedI && Dims(j0) <= paddedJ && Dims(k0) <= paddedK
    ensures i0 <= i && j0 <= j && k0 <= k && Dims(i) <= paddedI && Dims(j) <= paddedJ && Dims(k) <= paddedK
    ensures !(Fits(ws, i + 1, j, k) && Dims(i + 1) <= paddedI)
    ensures !(Fits(ws, i, j + 1, k) && Dims(j + 1) <= paddedJ)
    ensures !(Fits(ws, i, j, k + 1) && Dims(k + 1) <= paddedK)
    ensures Fits(ws, i, j, k) <==> Fits(ws, i0, j0, k0)
    ensures var padded, t := Tile(paddedI, paddedJ, paddedK), Tile(i, j, k);
            && Rounds(ws, padded, trace) && trace[0] == Tile(i0, j0, k0) && trace[|trace| - 1] == t
            && Round(ws, padded, t, t)
  {
    i, j, k := i0, j0, k0;
    var increased := true;
    ghost var padded := Tile(paddedI, paddedJ, paddedK);
    trace := [Tile(i, j, k)];
    while increased
      invariant i0 <= i && j0 <= j && k0 <= k && Dims(i) <= paddedI && Dims(j) <= paddedJ && Dims(k) <= paddedK
      invariant Fits(ws, i, j, k) <==> Fits(ws, i0, j0, k0)
      invariant !increased ==> !(Fits(ws, i + 1, j, k) && Dims(i + 1) <= paddedI)
      invariant !increased ==> !(Fits(ws, i, j + 1, k) && Dims(j + 1) <= paddedJ)
      invariant !increased ==> !(Fits(ws, i, j, k + 1) && Dims(k + 1) <= paddedK)
      invariant Rounds(ws, padded, trace) && trace[0] == Tile(i0, j0, k0) && trace[|trace| - 1] == Tile(i, j, k)
      invariant !increased ==> Round(ws, padded, Tile(i, j, k), Tile(i, j, k))
      decreases paddedI + paddedJ + paddedK - (Dims(i) + Dims(j) + Dims(k)), increased
    {
      i, j, k, increased := Fill(ws, paddedI, paddedJ, paddedK, i, j, k);
      MoreRounds(ws, padded, trace, Tile(i, j, k));
      trace := trace + [Tile(i, j, k)];
    }
  }
}
