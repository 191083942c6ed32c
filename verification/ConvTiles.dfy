/** The tile search of `tiled_conv_stride_auto` and the space check of `tiled_conv`. */
module ConvTiles {
  import opened Params

  /** Tile factors in the order of the source's args[]: batches, porows, pocols, pochs, krows, kcols, kchs. */
  type Tile = seq<int>
  const FACTORS := 7
  const OROWS := 1
  const OCOLS := 2
  const OUT_CHANNELS := 3
  const IN_CHANNELS := 6

  datatype Config = Config(stride: int, inputDilation: int, kernelDilation: int, downsample: bool,
                           transWeight0132: bool, transInput3120: bool, poolSize: int, poolStride: int)
  {
    predicate Valid() {
      0 < stride && 0 < inputDilation && 0 < kernelDilation && 0 < poolSize && 0 < poolStride
    }
  }

  predicate IsTile(t: Tile) { |t| == FACTORS && forall i :: 0 <= i < FACTORS ==> 1 <= t[i] }

  /** Quotient rounded up: `x / d + (x % d != 0)`. */
  function CeilDiv(x: int, d: int): int
    requires d > 0
  { x / d + if x % d != 0 then 1 else 0 }

  function Halved(x: int, downsample: bool): int { if downsample then x / 2 else x }

  function ORows(c: Config, porows: int): int { porows * c.poolStride + c.poolSize - 1 }

  function IRows(c: Config, porows: int, krows: int): int
    requires c.Valid()
  {
    CeilDiv(ORows(c, porows) * c.stride + (krows + (c.kernelDilation - 1) * (krows - 1)) - 1, c.inputDilation)
  }

  function ARows(c: Config, t: Tile): int
    requires c.Valid() && |t| == FACTORS
  {
    var rows, cols := Halved(IRows(c, t[1], t[4]), c.downsample), Halved(IRows(c, t[2], t[5]), c.downsample);
    if c.transInput3120 then Blocks(t[0]) * t[6] * rows * cols else Blocks(t[6]) * t[0] * rows * cols
  }

  function BRows(c: Config, t: Tile): int
    requires |t| == FACTORS
  {
    if c.transWeight0132 then Blocks(t[6]) * t[5] * t[4] * t[3] else Blocks(t[3]) * t[5] * t[4] * t[6]
  }

  /** `tiled_conv_total_spad_rows` with acc false and with acc true. */
  function SpadRows(c: Config, t: Tile): int
    requires c.Valid() && |t| == FACTORS
  { ARows(c, t) + BRows(c, t) }

  function AccRows(c: Config, t: Tile): int
    requires c.Valid() && |t| == FACTORS
  { Blocks(t[3]) * t[0] * ORows(c, t[1]) * ORows(c, t[2]) }

  predicate Fits(c: Config, t: Tile)
    requires c.Valid() && |t| == FACTORS
  { SpadRows(c, t) <= SPAD_ROWS / 2 && AccRows(c, t) <= ACC_ROWS / 2 }

  predicate AtMost(t: Tile, u: Tile) {
    |t| == FACTORS == |u| && forall i :: 0 <= i < FACTORS ==> t[i] <= u[i]
  }

  // ---- the row counts are monotone in every factor ----

  lemma ProductMono(a: int, b: int, a': int, b': int)
    requires 0 <= a <= a' && 0 <= b <= b'
    ensures 0 <= a * b <= a' * b'
  {
    MulMono(a, a', b);
    MulMono(b, b', a');
    MulMono(0, a, b);
  }

  lemma Product4Mono(a: int, b: int, x: int, y: int, a': int, b': int, x': int, y': int)
    requires 0 <= a <= a' && 0 <= b <= b' && 0 <= x <= x' && 0 <= y <= y'
    ensures 0 <= a * b * x * y <= a' * b' * x' * y'
  {
    ProductMono(a, b, a', b');
    ProductMono(a * b, x, a' * b', x');
    ProductMono(a * b * x, y, a' * b' * x', y');
  }

  lemma CeilDivMono(x: int, y: int, d: int)
    requires 0 < d && 0 <= x <= y
    ensures 0 <= CeilDiv(x, d) <= CeilDiv(y, d)
  {
    var p, q := x / d, y / d;
    assert x == p * d + x % d && y == q * d + y % d;
    MulMono(q + 1, p, d);
    MulMono(p, -1, d);
    assert (q + 1) * d == q * d + d;
    assert 0 <= p <= q;
    if p == q && x % d != 0 {
      assert y % d != 0;
    }
  }

  lemma ImageMono(c: Config, porows: int, krows: int, porows': int, krows': int)
    requires c.Valid() && 1 <= porows <= porows' && 1 <= krows <= krows'
    ensures 1 <= ORows(c, porows) <= ORows(c, porows')
    ensures 0 <= IRows(c, porows, krows) <= IRows(c, porows', krows')
  {
    ProductMono(1, c.poolStride, porows, c.poolStride);
    ProductMono(porows, c.poolStride, porows', c.poolStride);
    ProductMono(ORows(c, porows), c.stride, ORows(c, porows'), c.stride);
    ProductMono(c.kernelDilation - 1, krows - 1, c.kernelDilation - 1, krows' - 1);
    CeilDivMono(ORows(c, porows) * c.stride + (krows + (c.kernelDilation - 1) * (krows - 1)) - 1,
                ORows(c, porows') * c.stride + (krows' + (c.kernelDilation - 1) * (krows' - 1)) - 1, c.inputDilation);
  }

  lemma BlocksMono(x: int, y: int)
    requires 1 <= x <= y
    ensures 0 <= Blocks(x) <= Blocks(y)
  {
    CeilDivMono(x, y, DIM);
  }

  lemma RowsMonotone(c: Config, t: Tile, u: Tile)
    requires c.Valid() && IsTile(t) && AtMost(t, u)
    ensures SpadRows(c, t) <= SpadRows(c, u) && AccRows(c, t) <= AccRows(c, u)
  {
    BlocksMono(t[0], u[0]);
    BlocksMono(t[3], u[3]);
    BlocksMono(t[6], u[6]);
    ImageMono(c, t[1], t[4], u[1], u[4]);
    ImageMono(c, t[2], t[5], u[2], u[5]);
    ARowsMonotone(c, t, u);
    BRowsMonotone(c, t, u);
    Product4Mono(Blocks(t[3]), t[0], ORows(c, t[1]), ORows(c, t[2]), Blocks(u[3]), u[0], ORows(c, u[1]),
                 ORows(c, u[2]));
  }

  lemma ARowsMonotone(c: Config, t: Tile, u: Tile)
    requires c.Valid() && IsTile(t) && AtMost(t, u)
    requires 0 <= Blocks(t[0]) <= Blocks(u[0]) && 0 <= Blocks(t[6]) <= Blocks(u[6])
    requires 0 <= IRows(c, t[1], t[4]) <= IRows(c, u[1], u[4]) && 0 <= IRows(c, t[2], t[5]) <= IRows(c, u[2], u[5])
    ensures ARows(c, t) <= ARows(c, u)
  {
    var r, s := Halved(IRows(c, t[1], t[4]), c.downsample), Halved(IRows(c, t[2], t[5]), c.downsample);
    var r', s' := Halved(IRows(c, u[1], u[4]), c.downsample), Halved(IRows(c, u[2], u[5]), c.downsample);
    if c.transInput3120 {
      Product4Mono(Blocks(t[0]), t[6], r, s, Blocks(u[0]), u[6], r', s');
    } else {
      Product4Mono(Blocks(t[6]), t[0], r, s, Blocks(u[6]), u[0], r', s');
    }
  }

  lemma BRowsMonotone(c: Config, t: Tile, u: Tile)
    requires IsTile(t) && AtMost(t, u)
    requires 0 <= Blocks(t[3]) <= Blocks(u[3]) && 0 <= Blocks(t[6]) <= Blocks(u[6])
    ensures BRows(c, t) <= BRows(c, u)
  {
    if c.transWeight0132 {
      Product4Mono(Blocks(t[6]), t[5], t[4], t[3], Blocks(u[6]), u[5], u[4], u[3]);
    } else {
      Product4Mono(Blocks(t[3]), t[5], t[4], t[6], Blocks(u[3]), u[5], u[4], u[6]);
    }
  }

  /** The tile that `tiled_conv` cuts where only `left` remains of each dimension. */
  function EdgeOf(t: Tile, left: Tile): Tile
    requires |t| == FACTORS == |left|
  { seq(FACTORS, i requires 0 <= i < FACTORS => if left[i] > t[i] then t[i] else left[i]) }

  lemma EdgeTilesFit(c: Config, t: Tile, left: Tile)
    requires c.Valid() && IsTile(t) && IsTile(left) && Fits(c, t)
    ensures Fits(c, EdgeOf(t, left))
    ensures forall i :: 0 <= i < FACTORS ==>
              if t[i] <= left[i] then EdgeOf(t, left)[i] == t[i] else EdgeOf(t, left)[i] == left[i]
  {
    RowsMonotone(c, EdgeOf(t, left), t);
  }

  // ---- the search ----

  const ONES: Tile := [1, 1, 1, 1, 1, 1, 1]

  function Sum(t: Tile): int
    requires |t| == FACTORS
  { t[0] + t[1] + t[2] + t[3] + t[4] + t[5] + t[6] }

  /** ocols is not reduced while it is at most DIM and there are still rows to reduce. */
  predicate Reducible(t: Tile, i: int)
    requires |t| == FACTORS && 0 <= i < FACTORS
  { !(i == OCOLS && t[i] <= DIM && t[OROWS] > 1) }

  method LargestReducible(args: array<int>) returns (maxIdx: int)
    requires IsTile(args[..])
    ensures 0 <= maxIdx < FACTORS && Reducible(args[..], maxIdx)
    ensures forall i :: 0 <= i < FACTORS && Reducible(args[..], i) ==> args[i] <= args[maxIdx]
    ensures forall i :: 0 <= i < maxIdx && Reducible(args[..], i) ==> args[i] < args[maxIdx]
  {
    var maxVal := -1;
    maxIdx := -1;
    for i := 0 to FACTORS
      invariant maxIdx == -1 ==> maxVal == -1 && i == 0
      invariant maxIdx != -1 ==> 0 <= maxIdx < i && Reducible(args[..], maxIdx) && maxVal == args[maxIdx]
      invariant forall i' :: 0 <= i' < i && Reducible(args[..], i') ==> args[i'] <= maxVal
      invariant forall i' :: 0 <= i' < maxIdx && Reducible(args[..], i') ==> args[i'] < maxVal
    {
      if !(i == OCOLS && args[i] <= DIM && args[OROWS] > 1) && args[i] > maxVal {
        maxVal := args[i];
        maxIdx := i;
      }
    }
  }

  lemma SomethingToReduce(t: Tile, i: int)
    requires IsTile(t) && t != ONES && 0 <= i < FACTORS
    requires forall k :: 0 <= k < FACTORS && Reducible(t, k) ==> t[k] <= t[i]
    ensures t[i] >= 2
  {
    var k :| 0 <= k < FACTORS && t[k] != ONES[k];
    assert Reducible(t, k) || (k == OCOLS && t[OROWS] > 1 && Reducible(t, OROWS));
  }

  /** A channel count goes down to the next multiple of DIM. */
  lemma ChannelsDown(x: int)
    requires 1 <= x
    ensures x % DIM != 0 ==> 0 <= x / DIM * DIM && x - DIM <= x / DIM * DIM < x && (x / DIM * DIM) % DIM == 0
    ensures x % DIM == 0 ==> 0 <= x - DIM < x && (x - DIM) % DIM == 0
  {
    assert x == x / DIM * DIM + x % DIM;
    MulSign(x / DIM, DIM);
    DivModUnique(x / DIM * DIM, DIM, x / DIM, 0);
    if x % DIM == 0 {
      assert x / DIM != 0;
      MulMono(1, x / DIM, DIM);
      DivModUnique(x - DIM, DIM, x / DIM - 1, 0);
    }
  }

  /** v is what the loop makes of factor i: one less or, for a channel count, the next multiple of DIM below it,
      but at least one. */
  predicate ReducedTo(x: int, i: int, v: int) {
    if i == 3 || i == 6 then
      (v % DIM == 0 && 0 < v && x - DIM <= v < x) || (v == 1 && x <= DIM)
    else v == x - 1
  }

  /** One step of the shrinking loop from a tile that does not fit: of the largest factors the first is reduced,
      where the columns do not count while there are at most DIM of them and more than one row. */
  ghost predicate ShrinkStep(c: Config, t: Tile, u: Tile)
    requires c.Valid()
  {
    && |t| == FACTORS && !Fits(c, t)
    && exists i :: 0 <= i < FACTORS && ShrinksAt(t, u, i)
  }

  ghost predicate ShrinksAt(t: Tile, u: Tile, i: int)
    requires |t| == FACTORS && 0 <= i < FACTORS
  {
    && !(i == 2 && t[2] <= DIM && t[1] > 1)
    && (forall k :: 0 <= k < FACTORS && !(k == 2 && t[2] <= DIM && t[1] > 1) ==>
        t[k] <= t[i] && (k < i ==> t[k] < t[i]))
    && |u| == FACTORS && u == t[i := u[i]] && ReducedTo(t[i], i, u[i])
  }

  /** The tiles that the loop goes through. */
  ghost predicate Shrinking(c: Config, trace: seq<Tile>)
    requires c.Valid()
  { |trace| > 0 && forall n :: 0 <= n < |trace| - 1 ==> ShrinkStep(c, trace[n], trace[n + 1]) }

  lemma ShrinkOnce(c: Config, trace: seq<Tile>, t: Tile, i: int, v: int)
    requires c.Valid() && Shrinking(c, trace) && trace[|trace| - 1] == t && |t| == FACTORS && !Fits(c, t)
    requires 0 <= i < FACTORS && ShrinksAt(t, t[i := v], i)
    ensures Shrinking(c, trace + [t[i := v]])
  {
    var more := trace + [t[i := v]];
    forall n | 0 <= n < |more| - 1 ensures ShrinkStep(c, more[n], more[n + 1]) {
      if n < |trace| - 1 {
        assert ShrinkStep(c, trace[n], trace[n + 1]);
      }
    }
  }

  lemma ShrinkTarget(t: Tile, i: int, v: int)
    requires IsTile(t) && 0 <= i < FACTORS && Reducible(t, i) && ReducedTo(t[i], i, v)
    requires forall k :: 0 <= k < FACTORS && Reducible(t, k) ==> t[k] <= t[i]
    requires forall k :: 0 <= k < i && Reducible(t, k) ==> t[k] < t[i]
    ensures ShrinksAt(t, t[i := v], i)
  {}

  /** The shrinking loop ends, with a tile that fits, whenever the smallest tile fits: the first one that fits of
      the tiles it goes through. */
  method Shrink(c: Config, args: array<int>) returns (ghost trace: seq<Tile>)
    requires c.Valid() && IsTile(args[..]) && Fits(c, ONES)
    modifies args
    ensures IsTile(args[..]) && AtMost(args[..], old(args[..])) && Fits(c, args[..])
    ensures Fits(c, old(args[..])) ==> args[..] == old(args[..])
    ensures Shrinking(c, trace) && trace[0] == old(args[..]) && trace[|trace| - 1] == args[..]
  {
    trace := [args[..]];
    while SpadRows(c, args[..]) > SPAD_ROWS / 2 || AccRows(c, args[..]) > ACC_ROWS / 2
      invariant IsTile(args[..]) && AtMost(args[..], old(args[..]))
      invariant Fits(c, old(args[..])) ==> args[..] == old(args[..])
      invariant Shrinking(c, trace) && trace[0] == old(args[..]) && trace[|trace| - 1] == args[..]
      decreases Sum(args[..])
    {
      trace := ShrinkOne(c, args, trace);
    }
  }

  /** The body of the loop. */
  method ShrinkOne(c: Config, args: array<int>, ghost earlier: seq<Tile>) returns (ghost trace: seq<Tile>)
    requires c.Valid() && IsTile(args[..]) && args[..] != ONES && !Fits(c, args[..])
    requires Shrinking(c, earlier) && earlier[|earlier| - 1] == args[..]
    modifies args
    ensures IsTile(args[..]) && AtMost(args[..], old(args[..])) && Sum(args[..]) < Sum(old(args[..]))
    ensures Shrinking(c, trace) && trace[0] == earlier[0] && trace[|trace| - 1] == args[..]
  {
    ghost var t := args[..];
    var maxIdx := LargestReducible(args);
    SomethingToReduce(t, maxIdx);
    ReduceFactor(args, maxIdx);
    Reduced(t, t, maxIdx, args[maxIdx]);
    ShrinkTarget(t, maxIdx, args[maxIdx]);
    ShrinkOnce(c, earlier, t, maxIdx, args[maxIdx]);
    trace := earlier + [args[..]];
  }

  method ReduceFactor(args: array<int>, maxIdx: nat)
    requires IsTile(args[..]) && maxIdx < FACTORS && 2 <= args[maxIdx]
    modifies args
    ensures args[..] == old(args[..])[maxIdx := args[maxIdx]] && 1 <= args[maxIdx] < old(args[maxIdx])
    ensures ReducedTo(old(args[maxIdx]), maxIdx, args[maxIdx])
  {
    ChannelsDown(args[maxIdx]);
    if maxIdx == OUT_CHANNELS || maxIdx == IN_CHANNELS {
      if args[maxIdx] % DIM != 0 {
        args[maxIdx] := args[maxIdx] / DIM * DIM;
      } else {
        args[maxIdx] := args[maxIdx] - DIM;
      }
      args[maxIdx] := if args[maxIdx] == 0 then 1 else args[maxIdx];
    } else {
      args[maxIdx] := args[maxIdx] - 1;
    }
  }

  lemma Reduced(t: Tile, bound: Tile, i: int, v: int)
    requires IsTile(t) && |bound| == FACTORS && AtMost(t, bound) && 0 <= i < FACTORS && 1 <= v < t[i]
    ensures IsTile(t[i := v]) && AtMost(t[i := v], bound) && Sum(t[i := v]) < Sum(t)
  {}

  function Raised(t: Tile, i: int): Tile
    requires |t| == FACTORS && 0 <= i < FACTORS
  { t[i := t[i] + 1] }

  predicate CanRaise(c: Config, t: Tile, max: Tile, i: int)
    requires c.Valid() && |t| == FACTORS == |max| && 0 <= i < FACTORS
  { t[i] + 1 <= max[i] && Fits(c, Raised(t, i)) }

  predicate Bounded(c: Config, t: Tile, max: Tile)
    requires c.Valid() && |max| == FACTORS
  { IsTile(t) && AtMost(t, max) && Fits(c, t) }

  method TryRaise(c: Config, args: array<int>, max: Tile, i: nat) returns (raised: bool)
    requires c.Valid() && |max| == FACTORS && i < FACTORS && Bounded(c, args[..], max)
    modifies args
    ensures Bounded(c, args[..], max)
    ensures raised == CanRaise(c, old(args[..]), max, i)
    ensures args[..] == if raised then Raised(old(args[..]), i) else old(args[..])
  {
    var candidate := args[..][i := args[i] + 1];
    if candidate[i] > max[i] {
      return false;
    }
    if SpadRows(c, candidate) <= SPAD_ROWS / 2 && AccRows(c, candidate) <= ACC_ROWS / 2 {
      args[i] := candidate[i];
      assert args[..] == candidate;
      return true;
    }
    return false;
  }

  /** First only ocols is raised, as far as it goes. */
  method RaiseColumns(c: Config, args: array<int>, max: Tile)
    requires c.Valid() && |max| == FACTORS && Bounded(c, args[..], max)
    modifies args
    ensures Bounded(c, args[..], max) && !CanRaise(c, args[..], max, OCOLS)
    ensures args[..] == old(args[..])[OCOLS := args[OCOLS]] && old(args[OCOLS]) <= args[OCOLS]
  {
    var notIncreased := false;
    while !notIncreased
      invariant Bounded(c, args[..], max)
      invariant args[..] == old(args[..])[OCOLS := args[OCOLS]] && old(args[OCOLS]) <= args[OCOLS]
      invariant notIncreased ==> !CanRaise(c, args[..], max, OCOLS)
      decreases Sum(max) - Sum(args[..]), !notIncreased
    {
      var raised := TryRaise(c, args, max, OCOLS);
      notIncreased := !raised;
    }
  }

  /** The tiles that trying the factors in turn goes through: each raised if it can be. */
  ghost predicate Raising(c: Config, max: Tile, trace: seq<Tile>)
    requires c.Valid() && |max| == FACTORS
  { |trace| > 0 && forall n :: 0 <= n < |trace| - 1 ==> RaiseStep(c, max, trace[n], trace[n + 1], n % 7) }

  ghost predicate RaiseStep(c: Config, max: Tile, t: Tile, u: Tile, i: int)
    requires c.Valid() && |max| == FACTORS && 0 <= i < FACTORS
  { |t| == FACTORS && u == if CanRaise(c, t, max, i) then Raised(t, i) else t }

  /** n tiles are those of whole rounds, the one they started from and i more. */
  predicate InRound(n: int, i: int) { (n - 1 - i) % 7 == 0 }

  lemma RoundDone(n: int)
    requires InRound(n, 7)
    ensures InRound(n, 0)
  {}

  lemma RaiseOnce(c: Config, max: Tile, trace: seq<Tile>, u: Tile, i: int)
    requires c.Valid() && |max| == FACTORS && Raising(c, max, trace) && 0 <= i < 7 && InRound(|trace|, i)
    requires RaiseStep(c, max, trace[|trace| - 1], u, i)
    ensures Raising(c, max, trace + [u])
  {
    var more := trace + [u];
    forall n | 0 <= n < |more| - 1 ensures RaiseStep(c, max, more[n], more[n + 1], n % 7) {
      if n < |trace| - 1 {
        assert RaiseStep(c, max, trace[n], trace[n + 1], n % 7);
      }
    }
  }

  /** Then every factor in turn, until a whole round raises nothing. */
  method RaiseAll(c: Config, args: array<int>, max: Tile) returns (ghost trace: seq<Tile>)
    requires c.Valid() && |max| == FACTORS && Bounded(c, args[..], max)
    modifies args
    ensures Bounded(c, args[..], max)
    ensures forall i :: 0 <= i < FACTORS ==> !CanRaise(c, args[..], max, i)
    ensures Raising(c, max, trace) && trace[0] == old(args[..]) && trace[|trace| - 1] == args[..]
  {
    var nothingIncreased := false;
    trace := [args[..]];
    while !nothingIncreased
      invariant Bounded(c, args[..], max)
      invariant nothingIncreased ==> forall i :: 0 <= i < FACTORS ==> !CanRaise(c, args[..], max, i)
      invariant Raising(c, max, trace) && trace[0] == old(args[..]) && trace[|trace| - 1] == args[..]
      invariant InRound(|trace|, 0)
      decreases Sum(max) - Sum(args[..]), !nothingIncreased
    {
      nothingIncreased, trace := RaiseRound(c, args, max, trace);
    }
  }

  /** None of the first n factors can be raised. */
  ghost predicate Stuck(c: Config, t: Tile, max: Tile, n: int)
    requires c.Valid() && |t| == FACTORS == |max| && 0 <= n <= FACTORS
  { forall i :: 0 <= i < n ==> !CanRaise(c, t, max, i) }

  /** One round. */
  method RaiseRound(c: Config, args: array<int>, max: Tile, ghost earlier: seq<Tile>)
    returns (nothingIncreased: bool, ghost trace: seq<Tile>)
    requires c.Valid() && |max| == FACTORS && Bounded(c, args[..], max)
    requires Raising(c, max, earlier) && earlier[|earlier| - 1] == args[..] && InRound(|earlier|, 0)
    modifies args
    ensures Bounded(c, args[..], max) && Sum(args[..]) >= Sum(old(args[..]))
    ensures if nothingIncreased then args[..] == old(args[..]) else Sum(args[..]) > Sum(old(args[..]))
    ensures nothingIncreased ==> Stuck(c, args[..], max, FACTORS)
    ensures Raising(c, max, trace) && trace[0] == earlier[0] && trace[|trace| - 1] == args[..] && InRound(|trace|, 0)
  {
    nothingIncreased := true;
    trace := earlier;
    for i := 0 to FACTORS
      invariant Bounded(c, args[..], max)
      invariant if nothingIncreased then args[..] == old(args[..]) else Sum(args[..]) > Sum(old(args[..]))
      invariant nothingIncreased ==> Stuck(c, args[..], max, i)
      invariant Raising(c, max, trace) && trace[0] == earlier[0] && trace[|trace| - 1] == args[..]
      invariant InRound(|trace|, i)
    {
      var raised;
      raised, trace := RaiseNext(c, args, max, i, nothingIncreased, trace);
      nothingIncreased := nothingIncreased && !raised;
    }
    RoundDone(|trace|);
  }

  method RaiseNext(c: Config, args: array<int>, max: Tile, i: nat, ghost stuck: bool, ghost earlier: seq<Tile>)
    returns (raised: bool, ghost trace: seq<Tile>)
    requires c.Valid() && |max| == FACTORS && i < FACTORS && Bounded(c, args[..], max)
    requires stuck ==> Stuck(c, args[..], max, i)
    requires Raising(c, max, earlier) && earlier[|earlier| - 1] == args[..] && InRound(|earlier|, i)
    modifies args
    ensures Bounded(c, args[..], max) && (stuck && !raised ==> Stuck(c, args[..], max, i + 1))
    ensures if raised then Sum(args[..]) == Sum(old(args[..])) + 1 else args[..] == old(args[..])
    ensures Raising(c, max, trace) && trace[0] == earlier[0] && trace[|trace| - 1] == args[..]
    ensures InRound(|trace|, i + 1)
  {
    ghost var t := args[..];
    raised := TryRaise(c, args, max, i);
    RaiseOnce(c, max, earlier, args[..], i);
    trace := earlier + [args[..]];
    assert raised ==> Sum(args[..]) == Sum(t) + 1;
  }

  /** A run of the three loops: `shrunk` are the tiles of the first, `raised` those of the last, which starts from
      the result of the first with the columns raised as far as they go. */
  ghost predicate IsSearch(c: Config, max: Tile, shrunk: seq<Tile>, raised: seq<Tile>, t: Tile)
    requires c.Valid() && |max| == FACTORS
  {
    && Shrinking(c, shrunk) && shrunk[0] == max
    && var first := shrunk[|shrunk| - 1];
    && |first| == FACTORS && Fits(c, first)
    && Raising(c, max, raised) && |raised[0]| == FACTORS
    && raised[0] == first[2 := raised[0][2]] && first[2] <= raised[0][2]
    && Bounded(c, raised[0], max) && !CanRaise(c, raised[0], max, 2)
    && raised[|raised| - 1] == t
    && |t| == FACTORS && Stuck(c, t, max, FACTORS)
  }

  /** The whole search: it ends whenever the all-ones tile fits, with every factor between 1 and
      its maximum, within both budgets, and no single factor can be raised; the loops determine the tile. */
  method Search(c: Config, max: Tile) returns (args: array<int>, ghost shrunk: seq<Tile>, ghost raised: seq<Tile>)
    requires c.Valid() && IsTile(max) && Fits(c, ONES)
    ensures fresh(args) && args.Length == FACTORS
    ensures IsPick(c, args[..], max)
    ensures IsSearch(c, max, shrunk, raised, args[..])
  {
    args := new int[FACTORS](i requires 0 <= i < FACTORS => max[i]);
    assert args[..] == max;
    shrunk := Shrink(c, args);
    RaiseColumns(c, args, max);
    raised := RaiseAll(c, args, max);
  }

  // ---- the search is determined by its loops ----

  lemma ReducedToOne(x: int, i: int, v: int, v': int)
    requires ReducedTo(x, i, v) && ReducedTo(x, i, v')
    ensures v == v'
  {
    if v % DIM == 0 && v' % DIM == 0 {
      BlockOf(v);
      BlockOf(v');
      DimsMono(v / DIM, v' / DIM);
      DimsMono(v' / DIM, v / DIM);
      assert Dims(0) == 0;
      DimsMono(v / DIM, 0);
      DimsMono(v' / DIM, 0);
      DimsMono(1, v / DIM);
      DimsMono(1, v' / DIM);
    } else {
      NoMultiple(v);
      NoMultiple(v');
    }
  }

  /** No multiple of DIM lies strictly between 0 and DIM. */
  lemma NoMultiple(v: int)
    ensures 0 < v < DIM ==> v % DIM != 0
  {
    BlockOf(v);
    DimsMono(v / DIM, 0);
    DimsMono(1, v / DIM);
  }

  lemma ShrinksOneWay(t: Tile, u: Tile, i: int, u': Tile, i': int)
    requires |t| == FACTORS && 0 <= i < FACTORS && 0 <= i' < FACTORS && ShrinksAt(t, u, i) && ShrinksAt(t, u', i')
    ensures u == u'
  {
    assert i == i';
    ReducedToOne(t[i], i, u[i], u'[i]);
  }

  lemma {:induction false} ShrinksSame(c: Config, s: seq<Tile>, s': seq<Tile>, n: nat)
    requires c.Valid() && Shrinking(c, s) && Shrinking(c, s') && s[0] == s'[0]
    requires n < |s| && n < |s'|
    ensures s[n] == s'[n]
  {
    if n != 0 {
      ShrinksSame(c, s, s', n - 1);
      var t := s[n - 1];
      assert ShrinkStep(c, t, s[n - 1 + 1]) && ShrinkStep(c, t, s'[n - 1 + 1]);
      var i :| 0 <= i < FACTORS && ShrinksAt(t, s[n], i);
      var i' :| 0 <= i' < FACTORS && ShrinksAt(t, s'[n], i');
      ShrinksOneWay(t, s[n], i, s'[n], i');
    }
  }

  lemma ShrinksNoLonger(c: Config, s: seq<Tile>, s': seq<Tile>)
    requires c.Valid() && Shrinking(c, s) && Shrinking(c, s') && s[0] == s'[0] && |s[|s| - 1]| == FACTORS
    ensures |s| < |s'| ==> !Fits(c, s[|s| - 1])
  {
    if |s| < |s'| {
      ShrinksSame(c, s, s', |s| - 1);
      assert ShrinkStep(c, s'[|s| - 1], s'[|s| - 1 + 1]);
    }
  }

  lemma {:induction false} RaisesSame(c: Config, max: Tile, s: seq<Tile>, s': seq<Tile>, n: nat)
    requires c.Valid() && |max| == FACTORS && Raising(c, max, s) && Raising(c, max, s') && s[0] == s'[0]
    requires n < |s| && n < |s'|
    ensures s[n] == s'[n]
  {
    if n != 0 {
      RaisesSame(c, max, s, s', n - 1);
      assert RaiseStep(c, max, s[n - 1], s[n - 1 + 1], (n - 1) % 7);
      assert RaiseStep(c, max, s'[n - 1], s'[n - 1 + 1], (n - 1) % 7);
    }
  }

  lemma {:induction false} StuckStays(c: Config, max: Tile, s: seq<Tile>, n: nat, m: nat)
    requires c.Valid() && |max| == FACTORS && Raising(c, max, s) && n <= m < |s|
    requires |s[n]| == FACTORS && Stuck(c, s[n], max, FACTORS)
    ensures s[m] == s[n]
  {
    if n < m {
      StuckStays(c, max, s, n, m - 1);
      assert RaiseStep(c, max, s[m - 1], s[m - 1 + 1], (m - 1) % 7);
    }
  }

  lemma RaisesToSame(c: Config, max: Tile, s: seq<Tile>, s': seq<Tile>)
    requires c.Valid() && |max| == FACTORS && Raising(c, max, s) && Raising(c, max, s') && s[0] == s'[0]
    requires |s[|s| - 1]| == FACTORS && Stuck(c, s[|s| - 1], max, FACTORS) && |s| <= |s'|
    ensures s[|s| - 1] == s'[|s'| - 1]
  {
    RaisesSame(c, max, s, s', |s| - 1);
    StuckStays(c, max, s', |s| - 1, |s'| - 1);
  }

  /** Of one tile, the columns go up to one count only. */
  lemma ColumnsSame(c: Config, max: Tile, t: Tile, x: int, y: int)
    requires c.Valid() && |max| == |t| == FACTORS && x <= y
    requires Bounded(c, t[2 := x], max) && Bounded(c, t[2 := y], max) && !CanRaise(c, t[2 := x], max, 2)
    ensures x == y
  {
    if x < y {
      RowsMonotone(c, Raised(t[2 := x], 2), t[2 := y]);
    }
  }

  /** Two runs of the search end in the same tile: the loops leave no choice. */
  lemma SearchIsDetermined(c: Config, max: Tile, s: seq<Tile>, r: seq<Tile>, t: Tile, s': seq<Tile>, r': seq<Tile>,
                           t': Tile)
    requires c.Valid() && |max| == FACTORS && IsSearch(c, max, s, r, t) && IsSearch(c, max, s', r', t')
    ensures t == t'
  {
    ShrinksNoLonger(c, s, s');
    ShrinksNoLonger(c, s', s);
    ShrinksSame(c, s, s', |s| - 1);
    var first := s[|s| - 1];
    if r[0][2] <= r'[0][2] {
      ColumnsSame(c, max, first, r[0][2], r'[0][2]);
    } else {
      ColumnsSame(c, max, first, r'[0][2], r[0][2]);
    }
    if |r| <= |r'| {
      RaisesToSame(c, max, r, r');
    } else {
      RaisesToSame(c, max, r', r);
    }
  }

  // ---- the downsample flag of the search and of the check ----

  /** `tiled_conv_stride_auto` computes the flag without looking at dilation or transposition ... */
  predicate SearchDownsample(stride: int, kernelDim: int, padding: int, noPool: bool, inRows: int, inCols: int) {
    stride == 2 && kernelDim == 1 && padding == 0 && noPool && inRows % 2 == 0 && inCols % 2 == 0
  }

  /** ... `tiled_conv` with. */
  predicate CheckDownsample(stride: int, kernelDim: int, padding: int, noPool: bool, inRows: int, inCols: int,
                            inputDilation: int, transInput3120: bool) {
    && SearchDownsample(stride, kernelDim, padding, noPool, inRows, inCols)
    && inputDilation == 1 && !transInput3120
  }

  /** The configuration as the search sees it and as the check does. */
  function Searched(c: Config, kernelDim: int, padding: int, noPool: bool, inRows: int, inCols: int): Config {
    c.(downsample := SearchDownsample(c.stride, kernelDim, padding, noPool, inRows, inCols))
  }

  function Checked(c: Config, kernelDim: int, padding: int, noPool: bool, inRows: int, inCols: int): Config {
    c.(downsample := CheckDownsample(c.stride, kernelDim, padding, noPool, inRows, inCols, c.inputDilation,
                                     c.transInput3120))
  }

  /** What `Search` promises of its result. */
  predicate IsPick(c: Config, t: Tile, max: Tile)
    requires c.Valid() && |max| == FACTORS
  { Bounded(c, t, max) && forall i :: 0 <= i < FACTORS ==> !CanRaise(c, t, max, i) }

  /** If the whole convolution fits the search budgets, it is the pick. */
  lemma PickIsWhole(c: Config, t: Tile, max: Tile)
    requires c.Valid() && IsTile(max) && Fits(c, max) && IsPick(c, t, max)
    ensures t == max
  {
    forall i | 0 <= i < FACTORS ensures t[i] == max[i] {
      if t[i] < max[i] {
        RowsMonotone(c, Raised(t, i), max);
        assert CanRaise(c, t, max, i);
      }
    }
  }

  lemma MoreRowsChecked(c: Config, t: Tile, kernelDim: int, padding: int, noPool: bool, inRows: int, inCols: int)
    requires c.Valid() && IsTile(t) && Fits(Checked(c, kernelDim, padding, noPool, inRows, inCols), t)
    ensures Fits(Searched(c, kernelDim, padding, noPool, inRows, inCols), t)
  {
    ImageMono(c, t[1], t[4], t[1], t[4]);
    ImageMono(c, t[2], t[5], t[2], t[5]);
    BlocksMono(t[0], t[0]);
    BlocksMono(t[6], t[6]);
    var rows, cols := IRows(c, t[1], t[4]), IRows(c, t[2], t[5]);
    Product4Mono(Blocks(t[0]), t[6], rows / 2, cols / 2, Blocks(t[0]), t[6], rows, cols);
    Product4Mono(Blocks(t[6]), t[0], rows / 2, cols / 2, Blocks(t[6]), t[0], rows, cols);
  }

  /** When the space check of `tiled_conv` accepts the pick and the tiles cut from it: always if the flags
      agree; if the whole convolution fits the search budgets, exactly when it fits with the flag of the
      check; and always if it fits with the flag of the check. */
  lemma PickedTilesAreAccepted(c: Config, t: Tile, max: Tile, left: Tile, kernelDim: int, padding: int, noPool: bool,
                               inRows: int, inCols: int)
    requires c.Valid() && IsTile(max) && IsTile(left)
    requires IsPick(Searched(c, kernelDim, padding, noPool, inRows, inCols), t, max)
    ensures var searched := Searched(c, kernelDim, padding, noPool, inRows, inCols);
            var checked := Checked(c, kernelDim, padding, noPool, inRows, inCols);
            && (searched == checked ==> Fits(checked, t))
            && (Fits(searched, max) ==> t == max && (Fits(checked, t) <==> Fits(checked, max)))
            && (Fits(checked, max) ==> Fits(checked, t))
            && (Fits(checked, t) ==> Fits(checked, EdgeOf(t, left)))
  {
    var searched := Searched(c, kernelDim, padding, noPool, inRows, inCols);
    var checked := Checked(c, kernelDim, padding, noPool, inRows, inCols);
    if Fits(searched, max) {
      PickIsWhole(searched, t, max);
    }
    if Fits(checked, max) {
      MoreRowsChecked(c, max, kernelDim, padding, noPool, inRows, inCols);
    }
    if Fits(checked, t) {
      EdgeTilesFit(checked, t, left);
    }
  }

  /** The flags in numbers: both ask for stride 2, a 1x1 kernel, no padding, no pooling and an even image, the check
      also for an input that is neither dilated nor transposed. So they differ exactly for a downsampling convolution
      whose input is dilated or transposed. */
  lemma FlagsDiffer(c: Config, kernelDim: int, padding: int, noPool: bool, inRows: int, inCols: int)
    ensures var searched := Searched(c, kernelDim, padding, noPool, inRows, inCols);
            var checked := Checked(c, kernelDim, padding, noPool, inRows, inCols);
            var halves := c.stride == 2 && kernelDim == 1 && padding == 0 && noPool && inRows % 2 == inCols % 2 == 0;
            && searched == c.(downsample := halves)
            && checked == c.(downsample := halves && c.inputDilation == 1 && !c.transInput3120)
            && (searched != checked <==> halves && (c.inputDilation != 1 || c.transInput3120))
  {}

  /** A 1x1 convolution of stride 2 over a transposed 2x2 input, with so many input channels that the
      halved input just fits. */
  const DEEP: Config := Config(2, 1, 1, false, false, true, 1, 1)
  const DEEP_WHOLE: Tile := [1, 1, 1, 1, 1, 1, SPAD_ROWS / 4]

  lemma DeepRows()
    ensures var searched, checked := Searched(DEEP, 1, 0, true, 2, 2), Checked(DEEP, 1, 0, true, 2, 2);
            DEEP.Valid() && IsTile(DEEP_WHOLE) && Fits(searched, DEEP_WHOLE) && !Fits(checked, DEEP_WHOLE)
  {
    var channels := SPAD_ROWS / 4;
    var searched, checked := Searched(DEEP, 1, 0, true, 2, 2), Checked(DEEP, 1, 0, true, 2, 2);
    assert searched.downsample && !checked.downsample;
    BlocksOf(1, DIM - 1);
    assert Dims(1) - (DIM - 1) == 1;
    assert Blocks(1) == 1;
    assert IRows(DEEP, 1, 1) == IRows(searched, 1, 1) == IRows(checked, 1, 1) == 2;
    assert ARows(searched, DEEP_WHOLE) == channels && ARows(checked, DEEP_WHOLE) == 4 * channels;
    assert BRows(searched, DEEP_WHOLE) == channels == BRows(checked, DEEP_WHOLE);
    assert AccRows(searched, DEEP_WHOLE) == 1;
  }

  /** So the search can pick a tile that the check rejects: here whatever it may pick is rejected. */
  lemma SearchCanBeRejected(t: Tile)
    requires DEEP.Valid() && IsPick(Searched(DEEP, 1, 0, true, 2, 2), t, DEEP_WHOLE)
    ensures t == DEEP_WHOLE && !Fits(Checked(DEEP, 1, 0, true, 2, 2), t)
  {
    DeepRows();
    PickIsWhole(Searched(DEEP, 1, 0, true, 2, 2), t, DEEP_WHOLE);
  }

  lemma SmallestFits(c: Config, max: Tile)
    requires c.Valid() && IsTile(max) && Fits(c, max)
    ensures Fits(c, ONES)
  {
    RowsMonotone(c, ONES, max);
  }

  /** The search on that convolution. */
  method SearchDeep() returns (args: array<int>)
    ensures DEEP.Valid() && args.Length == FACTORS && !Fits(Checked(DEEP, 1, 0, true, 2, 2), args[..])
  {
    DeepRows();
    var searched, max := Searched(DEEP, 1, 0, true, 2, 2), DEEP_WHOLE;
    SmallestFits(searched, max);
    ghost var shrunk, raised;
    args, shrunk, raised := Search(searched, max);
    SearchCanBeRejected(args[..]);
  }

  // ---- a convolution larger than the budgets ----

  const ACC_HALF: int := ACC_ROWS / 2

  /** A 1x1 convolution of stride 2 over a transposed input of two columns, larger than the accumulator
      half in its rows and in its output channels together. */
  const DEPTH: int := SPAD_ROWS / 2 / (ACC_HALF + 4)
  const LARGE_WHOLE: Tile := [1, ACC_HALF, 1, Dims(ACC_HALF), 1, 1, DEPTH]
  const TALL: Tile := [1, ACC_HALF, 1, DIM, 1, 1, DEPTH]
  const BROAD: Tile := [1, 1, 1, Dims(ACC_HALF), 1, 1, DEPTH]

  function LargeSearched(): Config { Searched(DEEP, 1, 0, true, 2 * ACC_HALF, 2) }
  function LargeChecked(): Config { Checked(DEEP, 1, 0, true, 2 * ACC_HALF, 2) }

  /** The row counts of a tile of one batch and one column. */
  lemma LargeRows(rows: int, och: int, ich: int)
    ensures var t: Tile := [1, rows, 1, och, 1, 1, ich];
            && SpadRows(LargeSearched(), t) == ich * rows + Blocks(och) * ich
            && SpadRows(LargeChecked(), t) == 4 * (ich * rows) + Blocks(och) * ich
            && AccRows(LargeSearched(), t) == Blocks(och) * rows == AccRows(LargeChecked(), t)
  {
    var t: Tile := [1, rows, 1, och, 1, 1, ich];
    var searched, checked := LargeSearched(), LargeChecked();
    assert searched.downsample && !checked.downsample;
    BlocksOf(1, DIM - 1);
    assert Dims(1) - (DIM - 1) == 1;
    OneToOneRows(searched, rows);
    OneToOneRows(checked, rows);
    OneToOneRows(searched, 1);
    OneToOneRows(checked, 1);
    assert ARows(searched, t) == ich * rows;
    assert ARows(checked, t) == 1 * ich * (2 * rows) * 2 == 4 * (ich * rows);
    assert BRows(searched, t) == Blocks(och) * ich == BRows(checked, t);
  }

  lemma OneToOneRows(c: Config, rows: int)
    requires c == DEEP.(downsample := c.downsample)
    ensures ORows(c, rows) == rows && IRows(c, rows, 1) == 2 * rows
  {}

  /** The depth is such that both tiles fit the search, and only the broad one fits the check. */
  lemma DepthArithmetic(s: int, a: int, n: int)
    requires 4 <= a && 2 * a <= s && n == s / (a + 4)
    ensures 1 <= n && n * a + n <= s && 4 * n + a * n <= s && s < 4 * (n * a) + n
  {
    var d := a + 4;
    assert s == n * d + s % d && 0 <= s % d < d;
    assert n != 0;
    MulSign(n, d);
    assert n * d == n * a + 4 * n;
    MulMono(1, n, d);
    MulMono(4, a, n);
  }

  lemma LargeBlocks()
    ensures Blocks(DIM) == 1 && Blocks(DIM + 1) == 2 && Blocks(Dims(ACC_HALF)) == ACC_HALF && DIM <= Dims(ACC_HALF)
  {
    BlocksOf(1, 0);
    BlocksOf(2, DIM - 1);
    assert Dims(1) - 0 == DIM && Dims(2) - (DIM - 1) == DIM + 1;
    BlocksOf(ACC_HALF, 0);
    DimsMono(1, ACC_HALF);
  }

  lemma LargeShapes()
    requires 4 <= ACC_HALF
    ensures 1 <= DEPTH && IsTile(TALL) && AtMost(TALL, LARGE_WHOLE) && IsTile(BROAD) && AtMost(BROAD, LARGE_WHOLE)
  {
    DepthArithmetic(SPAD_ROWS / 2, ACC_HALF, DEPTH);
    LargeBlocks();
  }

  lemma TallFits()
    requires 4 <= ACC_HALF
    ensures DEEP.Valid() && Fits(LargeSearched(), TALL)
  {
    DepthArithmetic(SPAD_ROWS / 2, ACC_HALF, DEPTH);
    LargeBlocks();
    LargeRows(ACC_HALF, DIM, DEPTH);
  }

  lemma TallChecked()
    requires 4 <= ACC_HALF
    ensures DEEP.Valid() && !Fits(LargeChecked(), TALL)
  {
    DepthArithmetic(SPAD_ROWS / 2, ACC_HALF, DEPTH);
    LargeBlocks();
    LargeRows(ACC_HALF, DIM, DEPTH);
  }

  lemma BroadFits()
    requires 4 <= ACC_HALF
    ensures DEEP.Valid() && Fits(LargeSearched(), BROAD)
  {
    DepthArithmetic(SPAD_ROWS / 2, ACC_HALF, DEPTH);
    LargeBlocks();
    LargeRows(1, Dims(ACC_HALF), DEPTH);
  }

  lemma BroadChecked()
    requires 4 <= ACC_HALF
    ensures DEEP.Valid() && Fits(LargeChecked(), BROAD)
  {
    DepthArithmetic(SPAD_ROWS / 2, ACC_HALF, DEPTH);
    LargeBlocks();
    LargeRows(1, Dims(ACC_HALF), DEPTH);
  }

  lemma TallIsMaximal()
    requires DEEP.Valid()
    ensures forall i :: 0 <= i < FACTORS ==> !CanRaise(LargeSearched(), TALL, LARGE_WHOLE, i)
  {
    LargeBlocks();
    LargeRows(ACC_HALF, DIM + 1, DEPTH);
    forall i | 0 <= i < FACTORS ensures !CanRaise(LargeSearched(), TALL, LARGE_WHOLE, i) {
      if i == OUT_CHANNELS {
        assert Raised(TALL, i) == [1, ACC_HALF, 1, DIM + 1, 1, 1, DEPTH];
      }
    }
  }

  lemma BroadIsMaximal()
    requires DEEP.Valid()
    ensures forall i :: 0 <= i < FACTORS ==> !CanRaise(LargeSearched(), BROAD, LARGE_WHOLE, i)
  {
    LargeBlocks();
    LargeRows(2, Dims(ACC_HALF), DEPTH);
    forall i | 0 <= i < FACTORS ensures !CanRaise(LargeSearched(), BROAD, LARGE_WHOLE, i) {
      if i == OROWS {
        assert Raised(BROAD, i) == [1, 2, 1, Dims(ACC_HALF), 1, 1, DEPTH];
      }
    }
  }

  lemma MakePick(c: Config, t: Tile, max: Tile)
    requires c.Valid() && IsTile(t) && AtMost(t, max) && Fits(c, t)
    requires forall i :: 0 <= i < FACTORS ==> !CanRaise(c, t, max, i)
    ensures IsPick(c, t, max)
  {}

  lemma TallIsPick(searched: Config, tall: Tile, max: Tile)
    requires 4 <= ACC_HALF && searched == LargeSearched() && tall == TALL && max == LARGE_WHOLE
    ensures searched.Valid() && IsPick(searched, tall, max)
  {
    LargeShapes();
    TallFits();
    TallIsMaximal();
    MakePick(searched, tall, max);
  }

  lemma BroadIsPick(searched: Config, broad: Tile, max: Tile)
    requires 4 <= ACC_HALF && searched == LargeSearched() && broad == BROAD && max == LARGE_WHOLE
    ensures searched.Valid() && IsPick(searched, broad, max)
  {
    LargeShapes();
    BroadFits();
    BroadIsMaximal();
    MakePick(searched, broad, max);
  }

  /** Where the whole convolution does not fit the budgets of the search, what the search promises does not
      decide whether the check accepts: of these two tiles none of whose factors can be raised, the check
      rejects one and accepts the other. */
  lemma MaximalityDoesNotDecide() returns (searched: Config, checked: Config, tall: Tile, broad: Tile, max: Tile)
    requires 4 <= ACC_HALF
    ensures searched == LargeSearched() && checked == LargeChecked() && tall == TALL && broad == BROAD &&
            max == LARGE_WHOLE
    ensures searched.Valid() && checked.Valid() && |tall| == |broad| == FACTORS
    ensures IsPick(searched, tall, max) && !Fits(checked, tall)
    ensures IsPick(searched, broad, max) && Fits(checked, broad)
  {
    searched, checked, tall, broad, max := LargeSearched(), LargeChecked(), TALL, BROAD, LARGE_WHOLE;
    TallIsPick(searched, tall, max);
    BroadIsPick(searched, broad, max);
    TallChecked();
    BroadChecked();
  }
}
