# Verification of the systolic-array library, its profiling passes and its memory model

This project models the numerical and structural core of the repository in Dafny and proves what that
code is for. `dafny verify dfyconfig.toml` checks everything.

## What is modelled

**Lowering a matmul** (`Params`, `Machine`, `TiledMatmul`, `TiledMatmulLoop`, `TiledMatmulOuter`, `MatmulTheorems`).
`tiled_matmul_outer` and `sp_tiled_matmul_ws` turn a matmul of any size into move-in, preload, multiply and
move-out commands over a small scratchpad and accumulator. The loops are modelled as methods that issue the
commands to a device object. For all dimensions and legal strides and tile factors, and for every parameter header
that meets `Params.Sound`, the stream stores each element once, after its last accumulation, with its start value
plus the element of A * Bᵀ, and stores nothing else. With a bias the start value is the bias; without one it is what
the accumulator holds, and the model keeps account of the whole accumulator through the whole run.

**Tile searches** (`MatmulTiles`, `ConvTiles`, `ConvSpace`). The greedy searches of `tiled_matmul_auto` and
`tiled_conv_stride_auto` terminate and pick a tile none of whose factors can be raised, the only one their loops can
end in; exactly when the checks that follow accept it is stated, and every smaller edge tile that the drivers cut from
a fitting tile fits too, since the row counts are monotone. The row counts of a convolution are shown to be those of
the tables that hold its outputs, inputs and weights, with pooling, dilation, downsampling and transposition.

**References** (`MatmulCpu`, `Rounding`, `Conv`, `ConvTaps`, `Im2col`, `Im2colTheorem`, `Depthwise`, `Tensor`,
`IntSqrt`).
The reference matmul with its two branches, the reference convolutions with all their dilation, transposition and
rotation flags, pooling, im2col, the depthwise layers, the rounding macros and the integer square root: each method
is proved against a textbook definition, and the definitions are related to each other (im2col plus matmul is the
convolution; fused pooling is convolution then pooling; clamp-then-scale is scale-then-clamp). Lemmas that end in
`WrittenOut` state a result in numbers, without the functions that the methods share with it. Row strides and
tensor layouts are parameters, so `im2col_with_col2im`, `pool_with_col2im` and `conv_dw`, which are the same loops over
flattened or nested tensors, are the same methods at other strides.

**Lowering a depthwise convolution** (`OneChannel`, `DepthwiseTile`, `DepthwiseDriver`). `tiled_conv_dw` over
`sp_tiled_conv` without pooling, on the same machine: which pixel each scratchpad row holds, what each multiply adds,
how the two static accumulator offsets alternate, and that the whole run equals the reference.

**The LLVM block splitter** (`SplitBB`), **the SimPoint tracer and profiler** (`Intervals`, `Profilers`),
**the DRAM address mapping** (`AddressMapping`) and **the sparse bank store** (`Bank.dfy`, module `Banks`).

## The machine is an assumption

The `cosim_*` calls are empty stubs (`manual/interface.c:40-113`), so nothing in the repository says what they
do. `Machine` fixes one meaning for all of them, and every result about a command stream is relative to it: a
scratchpad and an accumulator of DIM-wide rows, blocks of DIM columns landing DIM rows apart, a NULL source loading
zeros, a preload filling the shadow tile, a flip making it active, a multiply adding A * Wᵀ, address bit 31 selecting
the accumulator, bit 30 accumulation and bit 29 full-width reads. Each device method requires that the command stays
inside the buffers and memories and moves no more blocks than its limit, so the runs also prove that every command is
legal.

The two lowerings use that machine with different settings, which are parameters of it (`Machine.Settings`). The
configuration instructions that would make them are commented out, so these are assumptions as well:

- *Row strides and the output stage.* Main memory (`Machine.Dram`) comes with the strides of A, B, D and C and the
  output stage; a repeating bias has load stride 0 (`gemmini-rocc-tests/include/gemmini.h:882-886` for the matmul,
  1634 and 1673 for the convolution).
- *Stride of the left operand.* A multiply of the matmul reads consecutive scratchpad rows; one of the convolution
  steps through the scratchpad with the stride of the convolution (2792).
- *Packed pixels.* In the matmul a row of the left operand is one scratchpad row. In the convolution it is a pixel and
  its right neighbours, each of them in a scratchpad row of its own (the repetition of pixels in 1673); without the
  first-layer optimizations it is that pixel alone (1586-1593).
- *Orientation of the weights.* A preload of the matmul finds the weights by row of W in consecutive scratchpad rows;
  one of the convolution finds a row of W down a column, one kernel position per scratchpad row.

`Machine.MATMUL` and `OneChannel.ConvSettings` are the two settings; `Problem.Valid` and `DepthwiseDriver.Operands`
require them. With one channel in and one out every command of the convolution works on the first column of the local
memories: the lemmas of `OneChannel` say what each does there.

The sizes (DIM, the banks, the accumulator, the block limits) are those of any header that meets `Params.Sound`; the
three parameter headers of the repository do.

## Where the code does not do what its surroundings suggest

The model follows the code. Each point is a lemma.

- The stream reads B as a J x K matrix whatever `transpose_B` says, while the layer checks pass
  `transpose_B = false` to the reference (`gemmini-rocc-tests/include/gemmini_nn.h:83-121`). The two agree for
  every A exactly when B is symmetric as stored: `UntransposedReferenceDiffers`, `UntransposedMatchesIffSymmetric`.
- The same layers pass a K x J buffer with row stride J. The move-ins of B stay inside that buffer exactly when J is at
  most K; a layer that is wider than deep makes the stream issue move-ins past the end of B: `LayerLoadsInsideIff`,
  `WideLayerReadsPastB`.
- Without a bias the accumulator is not overwritten (`gemmini-rocc-tests/include/gemmini.h:699-704`), and every output
  tile starts in the same corner of it. So the run computes the sums of the product for all A and B exactly when there
  is a single output tile and the accumulator holds zeros for it; with two tiles not even a zero accumulator is enough:
  `ComputesIffCleanStart`, `SecondTileStart`, `RunTwoTiles`.
- `tiled_conv_stride_auto` decides on downsampling without looking at dilation and transposition, `tiled_conv`
  looks at both (`FlagsDiffer`), so a pick can be rejected: `SearchCanBeRejected`. When it is not is stated by
  `PickedTilesAreAccepted`: never when the flags agree, and, if the whole convolution fits the budgets of the search,
  exactly when it also fits with the flag of the check. In the remaining case both outcomes are possible:
  `MaximalityDoesNotDecide`.
- For LAYERNORM and SOFTMAX the starting tile of `tiled_matmul_auto` may not fit; the pick is accepted exactly
  when the padded row fits the accumulator budget: `MatmulTiles.Search`, `MatmulTiles.NormalisingFitsIff`.
- `SplitBB` does not separate a splitting call from a splitting invoke right behind it; all blocks come out in
  normal form exactly when no block has that pattern: `SplitBB.Function.Run`, `CallThenInvokeStays`.
- A bank indexes its table with the column of a packet; reads do not check it. Mapped columns are in the table exactly
  when the column count is a power of two or some low column bits are thrown away: `ColumnsInBankIff`.
- Clamp-then-scale is scale-then-clamp exactly for a scale that is not negative: `ClampCommutesExactly`.

## Model

| member | source | states |
|---|---|---|
| TiledMatmul.Regions | gemmini-rocc-tests/include/gemmini.h:575-578 | For every block of a tile that passes the size checks, its A region, B region and accumulator region lie inside the memories, and all of A lies below all of B |
| TiledMatmul.MovedAHit | gemmini-rocc-tests/include/gemmini.h:666-673 | After the grouped move-in of up to MAX_BLOCK_LEN blocks of A, each block of the group is in its own scratchpad region, element by element, the short last block included |
| TiledMatmul.MovedBHit | gemmini-rocc-tests/include/gemmini.h:677-684 | The same for the grouped move-in of B, read as a J x K matrix |
| TiledMatmul.RewriteAKeepsA | gemmini-rocc-tests/include/gemmini.h:666-673 | A move-in of A leaves every other loaded block of A as it was |
| TiledMatmul.RewriteAKeepsB | gemmini-rocc-tests/include/gemmini.h:666-673 | A move-in of A leaves every loaded block of B as it was |
| TiledMatmul.RewriteBKeepsB | gemmini-rocc-tests/include/gemmini.h:677-684 | A move-in of B leaves every other loaded block of B as it was |
| TiledMatmul.RewriteBKeepsA | gemmini-rocc-tests/include/gemmini.h:677-684 | A move-in of B leaves every loaded block of A as it was |
| TiledMatmul.MultiplyBlock | gemmini-rocc-tests/include/gemmini.h:695-735 | A multiply whose operands are loaded extends the inner products of its own block by exactly one K block, and changes no other block of the accumulator |
| TiledMatmul.MoveOutStores | gemmini-rocc-tests/include/gemmini.h:737-750 | Moving out a group of blocks stores each of its elements once, with the complete sum |
| TiledMatmul.MoveOutKeeps | gemmini-rocc-tests/include/gemmini.h:737-750 | Moving out a group of blocks touches no element of any other block |
| TiledMatmul.MoveOutInside | gemmini-rocc-tests/include/gemmini.h:742-749 | Moving out a group of blocks touches nothing outside the tile |
| TiledMatmulLoop.StepWeights | gemmini-rocc-tests/include/gemmini.h:726-734 | At every multiply the active weight tile is block (j, k) of B: preloaded and flipped in at i = 0, kept for the other i |
| TiledMatmulLoop.StepMultiply | gemmini-rocc-tests/include/gemmini.h:611-635 | The multiply of step (k, j, i) advances the running sums of block (i, j) by one step and leaves all others at theirs |
| TiledMatmulLoop.StepOut | gemmini-rocc-tests/include/gemmini.h:737-750 | The move-out of step (k, j, i) stores each block of its group, after the last accumulation of each, exactly once |
| TiledMatmulLoop.MoveInALegal | gemmini-rocc-tests/include/gemmini.h:666-673 | Every move-in of A stays inside A and inside the scratchpad |
| TiledMatmulLoop.MoveInBLegal | gemmini-rocc-tests/include/gemmini.h:677-684 | Every move-in of B stays inside B and inside the scratchpad |
| TiledMatmulLoop.MoveInBiasLegal | gemmini-rocc-tests/include/gemmini.h:592-608 | Every move-in of the bias stays inside D, inside the accumulator and within the block limit for the width of D |
| TiledMatmulLoop.MoveOutLegal | gemmini-rocc-tests/include/gemmini.h:737-750 | Every move-out stays inside C, inside the accumulator and within the block limit for the width of C |
| TiledMatmulLoop.LoadBias | gemmini-rocc-tests/include/gemmini.h:592-609 | After the grouped bias move-ins every accumulator block holds its block of D |
| TiledMatmulLoop.Compute | gemmini-rocc-tests/include/gemmini.h:695-735 | With both operands in the scratchpad, the active tile at the multiply is B(j, k), the block gains its products and no other block changes |
| TiledMatmulLoop.MoveInOperands | gemmini-rocc-tests/include/gemmini.h:666-684 | After the move-ins of step (k, j, i), if it issues any, blocks A(i, k) and B(j, k) are in the scratchpad, and so is every block loaded before and still to be used |
| TiledMatmulLoop.Step | gemmini-rocc-tests/include/gemmini.h:633-750 | The body of the three loops keeps the invariant: operands in the scratchpad, loaded in this step or earlier and not overwritten since, partial sums, stored blocks |
| TiledMatmulLoop.SpTiledMatmulWs | gemmini-rocc-tests/include/gemmini.h:565-750 | The command stream of one tile: every element gets its start value (the bias, or what the accumulator held) plus the full inner product and, if there is an output, is stored once; nothing else is stored |
| TiledMatmulOuter.TilesPartition | gemmini-rocc-tests/include/gemmini.h:842-860 | The tiles of one dimension cut it into consecutive pieces without gap or overlap, padding excluded |
| TiledMatmulOuter.JobsAreValid | gemmini-rocc-tests/include/gemmini.h:935-1006 | Every tile that the driver cuts, edge tiles included, is in bounds and fits both memories |
| TiledMatmulOuter.OutputTile | gemmini-rocc-tests/include/gemmini.h:935-1006 | All K tiles of one output tile: partial sums stay in the accumulator, the output tile is stored once, by the last, and afterwards every accumulator element is known: those of the tile hold the complete sums, the others what they held |
| TiledMatmulOuter.Run | gemmini-rocc-tests/include/gemmini.h:824-1006 | For all dimensions >= 1 and all legal strides and tile factors, with and without a bias: every element of C is stored exactly once, with its start value plus the element of A * Bᵀ (after the output stage), nothing outside C is stored, and the accumulator at the end is what the output tiles, in their order, make of it |
| MatmulTheorems.SumIsProduct | gemmini-rocc-tests/include/gemmini.h:1193-1204 | The reference sum with transposed B is the bias plus the inner product the accelerator forms |
| MatmulTheorems.CleanStartComputes | gemmini-rocc-tests/include/gemmini.h:824-1006 | From a clean start (a bias, or a single output tile over a zero accumulator) the run computes D + A * Bᵀ, for both output widths |
| MatmulTheorems.LoweringMatchesReference | gemmini-rocc-tests/include/gemmini.h:1181-1210 | From a clean start the command stream and matmul_cpu with transB = true write the same matrix, element by element |
| MatmulTheorems.RunAndCheck | gemmini-rocc-tests/include/gemmini_nn.h:82-121 | Running both on one problem leaves equal matrices, provided the reference transposes B and the start is clean |
| MatmulTheorems.Auto | gemmini-rocc-tests/include/gemmini.h:1410-1512 | tiled_matmul_auto for WS and a non-normalising activation runs with the tile of the search; whatever that is, it is accepted and makes the run legal; every size, with or without a bias, gives start value plus A * Bᵀ, and D + A * Bᵀ from a clean start |
| MatmulTheorems.UntransposedReferenceDiffers | gemmini-rocc-tests/include/gemmini_nn.h:83-121 | The layer check, which does not transpose B, compares against a different product: a 1x2 by 2x2 counterexample |
| MatmulTheorems.UntransposedMatchesIffSymmetric | gemmini-rocc-tests/include/gemmini_nn.h:83-121 | Exactly when it does not matter: for a given B whose J x K reading stays inside its buffer, the accelerator agrees with the untransposed reference on every A if and only if B is symmetric as stored |
| TiledMatmulLoop.LoadsBInsideIff | gemmini-rocc-tests/include/gemmini.h:666-684 | The move-ins of B that the stream of one tile issues all stay inside the buffer if and only if the part of B that the tile is for does: the last of them reads its last element |
| TiledMatmulOuter.LoadsInsideIffInBounds | gemmini-rocc-tests/include/gemmini.h:824-1006 | So the move-ins of B of a whole run all stay inside the buffer if and only if its J x K reading does |
| MatmulTheorems.LayerLoadsInsideIff | gemmini-rocc-tests/include/gemmini_nn.h:83-121 | For the buffer and stride that a layer passes, every move-in of B of the run stays inside it, and the call is legal, if and only if dim_J <= dim_K |
| MatmulTheorems.WideLayerReadsPastB | gemmini-rocc-tests/include/gemmini_nn.h:83-121 | A layer of one row and DIM + 1 columns: the move-in of B that the second call issues starts past the end of B |
| MatmulTheorems.SecondTileStart | gemmini-rocc-tests/include/gemmini.h:935-1006 | Without a bias the first element of the second output tile starts from the old accumulator corner plus the corner of the product: what the first tile left there |
| MatmulTheorems.ComputesIffCleanStart | gemmini-rocc-tests/include/gemmini.h:698-704 | For both output widths, the run computes the sums of D + A * Bᵀ for all A and B if and only if there is a bias, or there is one output tile and its accumulator elements hold zeros before the call, because the overwrite of old sums is commented out |
| MatmulTheorems.RunTwoTiles | gemmini-rocc-tests/include/gemmini.h:698-704 | A run with two output tiles and no bias that starts from a zero accumulator and stores 2 where the product is 1 |
| Params.HeadersAreSound | gemmini-rocc-tests/include/gemmini_params.h:9-17 | The constants of gemmini_params.h, gemmini_params_ee290.h and gemmini_params_ee290_smallsp.h meet the conditions that the lowerings and searches need; the memory sizes in bytes and the block limits that follow from them |
| Machine.AccAddress | gemmini-rocc-tests/include/gemmini.h:575-578 | The local addresses (1 << 31) + row, (3 << 30) + row and, for full-width results, (3 << 30) + (1 << 29) + row select that accumulator row, overwriting, accumulating, and reading full width |
| MatmulTiles.StartFits | gemmini-rocc-tests/include/gemmini.h:1422-1433 | The square-root starting tile fits both budgets, whatever the dimensions and the memory sizes |
| MatmulTiles.FillUp | gemmini-rocc-tests/include/gemmini.h:1463-1488 | The fill loop terminates, in a tile none of whose factors can be raised |
| MatmulTiles.Search | gemmini-rocc-tests/include/gemmini.h:1435-1488 | The picked tile is maximal; it passes every check of tiled_matmul if and only if the activation does not normalise or a padded row of the result fits the accumulator budget; and it is the end of a run of the search, described in numbers |
| MatmulTiles.SearchIsDetermined | gemmini-rocc-tests/include/gemmini.h:1422-1488 | What the search promises of its run (the start from the root of the accumulator budget, rounds of j, i, k up to the first that changes nothing, in numbers) leaves one possible pick |
| MatmulTiles.AcceptedIff | gemmini-rocc-tests/include/gemmini.h:1295-1350 | The checks of tiled_matmul in numbers: factors between 1 and 65535, no block wholly outside a dimension, (i * k + k * j) * DIM and i * j * DIM within half of each memory when double-buffered, all of it otherwise |
| MatmulTiles.NormalisingFitsIff | gemmini-rocc-tests/include/gemmini.h:1435-1440 | The start tile for LAYERNORM and SOFTMAX fits if and only if the padded row fits the accumulator budget; one column more than the budget never fits |
| ConvTiles.RowsMonotone | gemmini-rocc-tests/include/gemmini.h:2020-2060 | The scratchpad and accumulator row counts are monotone in every tile factor, for all strides, dilations, pools and transpositions |
| ConvTiles.EdgeTilesFit | gemmini-rocc-tests/include/gemmini.h:2600-2606 | Every edge tile that tiled_conv cuts from a fitting tile (in each dimension the factor, or what is left of the dimension) fits too |
| ConvTiles.LargestReducible | gemmini-rocc-tests/include/gemmini.h:2945-2955 | The factor chosen for shrinking is the first of the largest reducible ones |
| ConvTiles.Shrink | gemmini-rocc-tests/include/gemmini.h:2944-2975 | The shrinking loop ends in a fitting tile with factors >= 1 whenever the all-ones tile fits, and does not touch a tile that already fits. It goes through tiles that do not fit, each the one before with the first of its largest factors reduced: by one or, for channels, to the next lower multiple of DIM, at least 1 |
| ConvTiles.RaiseColumns | gemmini-rocc-tests/include/gemmini.h:2977-2999 | The column loop changes only the columns and ends with a column factor that cannot be raised |
| ConvTiles.RaiseAll | gemmini-rocc-tests/include/gemmini.h:3001-3025 | The final loop tries the factors in turn, raises each that can be raised, and ends with none that can |
| ConvTiles.Search | gemmini-rocc-tests/include/gemmini.h:2913-3025 | The whole search: all seven factors in [1, max], both budgets kept, no single factor can be raised; the tile is the end of a run of the three loops |
| ConvTiles.SearchIsDetermined | gemmini-rocc-tests/include/gemmini.h:2944-3025 | What the loops promise of their run leaves one possible pick |
| ConvSpace.WindowRowCounted | gemmini-rocc-tests/include/gemmini.h:2032-2033 | Row r * pool_stride + w of every pooling window of a tile is among the output rows counted; after the last one the count has pool_stride - 1 more |
| ConvSpace.OutputHeld | gemmini-rocc-tests/include/gemmini.h:2032-2057 | The accumulator rows counted are those of the table by output channel block, batch, output row and output column; every output that a pooling window of the tile sees has its place among them |
| ConvSpace.OutputsApart | gemmini-rocc-tests/include/gemmini.h:2057 | No two outputs share a place and a column |
| ConvSpace.SourceRowCounted | gemmini-rocc-tests/include/gemmini.h:2035-2043 | The input row (orow * stride + krow * kernel_dilation) / input_dilation is below the rows counted, for every counted output row and kernel row; the count is the least that covers the dilated rows up to stride behind the last one read |
| ConvSpace.InputHeld | gemmini-rocc-tests/include/gemmini.h:2035-2051 | Every input that a counted output reads has its place among the input rows counted, transposed or not; a downsampling convolution reads only even rows and columns, so that half of them is enough |
| ConvSpace.InputsApart | gemmini-rocc-tests/include/gemmini.h:2049-2051 | No two inputs that are kept share a place and a column |
| ConvSpace.WeightHeld | gemmini-rocc-tests/include/gemmini.h:2053-2055 | Every weight has its place among the weight rows counted, transposed or not |
| ConvSpace.WeightsApart | gemmini-rocc-tests/include/gemmini.h:2053-2055 | No two weights share a place and a column |
| ConvSpace.SpadRowsAre | gemmini-rocc-tests/include/gemmini.h:2035-2059 | The scratchpad rows counted are those of the inputs and the weights together, in numbers |
| ConvSpace.FittingTileIsHeld | gemmini-rocc-tests/include/gemmini.h:2467-2490 | So in a tile that fits every output needed lies in half of the accumulator, every input in the first half of the scratchpad and every weight, kept at the end, in the second |
| ConvTiles.FlagsDiffer | gemmini-rocc-tests/include/gemmini.h:2465-2466 | When the search and when the check set the downsample flag, in numbers; they differ exactly for a downsampling convolution with a dilated or transposed input |
| ConvTiles.PickIsWhole | gemmini-rocc-tests/include/gemmini.h:2944-3025 | If the whole convolution fits the budgets of the search, it is the only tile that the search can pick |
| ConvTiles.SearchCanBeRejected | gemmini-rocc-tests/include/gemmini.h:2464-2490 | A transposed 2x2 input with many channels: whatever tile the search picks, the space check of tiled_conv rejects it |
| ConvTiles.SearchDeep | gemmini-rocc-tests/include/gemmini.h:2913-3025 | Running the search on it ends in a rejected tile |
| ConvTiles.PickedTilesAreAccepted | gemmini-rocc-tests/include/gemmini.h:2470-2490 | The space check accepts the pick, and with it every edge tile cut from it, whenever the two flags agree; if the whole convolution fits the search budgets, exactly when it fits with the flag of the check; and whenever it fits with that flag |
| ConvTiles.MaximalityDoesNotDecide | gemmini-rocc-tests/include/gemmini.h:2944-3025 | In the remaining case what the search promises decides nothing: one convolution with two tiles none of whose factors can be raised, of which the check accepts one and rejects the other |
| MatmulCpu.General | gemmini-rocc-tests/include/gemmini.h:1181-1210 | The general branch writes scale_and_sat of the textbook sum to every element of C and nothing else |
| MatmulCpu.Blocked | gemmini-rocc-tests/include/gemmini.h:1083-1180 | The 4x4-blocked branch writes the same |
| MatmulCpu.Matmul | gemmini-rocc-tests/include/gemmini.h:1075-1210 | So the branch taken never changes the result |
| MatmulCpu.MatmulWrittenOut | gemmini-rocc-tests/include/gemmini.h:1193-1210 | The result in numbers: each element is the last partial sum of the textbook loop (operands scaled, rounded and limited to 8 bits, by rows or columns as transposed, from the bias row or 0), times the scale, rounded to nearest with ties to even, limited to -128 .. 127, and below by 0 for RELU |
| MatmulCpu.SumFitsInt32 | gemmini-rocc-tests/include/gemmini.h:1193-1204 | With at most 131071 terms and abs(bias) <= 16383 no partial sum of 8-bit operands leaves int32 |
| MatmulCpu.SumReachesBound | gemmini-rocc-tests/include/gemmini.h:1193-1204 | The bound is reached: n maximal products add up to exactly bias + n * 16384 |
| Rounding.RoundNearEvenIsNearest | gemmini-rocc-tests/include/gemmini_params.h:52-60 | ROUND_NEAR_EVEN is the nearest integer with ties to even, for every real |
| Rounding.NearestEvenIsUnique | gemmini-rocc-tests/include/gemmini_params.h:52-60 | That integer is unique |
| Rounding.RoundNearEvenMonotone | gemmini-rocc-tests/include/gemmini_params.h:52-60 | Rounding is monotone |
| Rounding.RoundingRightShiftIsNearest | gemmini-rocc-tests/include/gemmini_params.h:41-44 | ROUNDING_RIGHT_SHIFT(x, s), s >= 1, is the integer nearest to x / 2^s with ties to even, for every signed x (mode rne of section 3.8 of the RISC-V "V" Vector Extension 1.0) |
| Rounding.ShiftAgreesWithRound | gemmini-rocc-tests/include/gemmini_params.h:40-60 | It agrees with ROUND_NEAR_EVEN on the exact quotient |
| Rounding.ScaleAndSat | gemmini-rocc-tests/include/gemmini.h:1052-1061 | The output stage stays in the element range, and is not negative with RELU |
| Rounding.ScalesRound | gemmini-rocc-tests/include/gemmini_params.h:68-72 | ACC_SCALE and MVIN_SCALE are x * scale rounded to nearest, ties to even, and limited to -128 .. 127 |
| Rounding.ScaleAndSatRounds | gemmini-rocc-tests/include/gemmini.h:1052-1061 | The output stage is x * scale rounded to nearest, ties to even, limited to -128 .. 127 and, for RELU, below by 0 |
| IntSqrt.StartIsAbove | gemmini-rocc-tests/include/gemmini.h:1016-1020 | The power-of-two start is at or above the root |
| IntSqrt.StepStaysAbove | gemmini-rocc-tests/include/gemmini.h:1023 | A Newton step from any positive value stays at or above the floor root |
| IntSqrt.Step | gemmini-rocc-tests/include/gemmini.h:1022-1026 | An iterate either stops at the floor root or gets strictly smaller, without leaving the 32-bit range for a 32-bit argument |
| IntSqrt.Sqrt | gemmini-rocc-tests/include/gemmini.h:1013-1027 | int_sqrt terminates with r * r <= n < (r + 1) * (r + 1) for every n >= 0 |
| Conv.OutputPixel | gemmini-rocc-tests/include/gemmini.h:2090-2126 | The accumulation loops compute the textbook triple sum, for every dilation, transposition and rotation flag |
| Conv.ConvWithoutPool | gemmini-rocc-tests/include/gemmini.h:2063-2137 | conv_cpu_without_pool fills the whole output tensor with those values and writes nothing else, the gaps between rows of channels included |
| ConvTaps.ConvWrittenOut | gemmini-rocc-tests/include/gemmini.h:2085-2132 | The value of an output in numbers, for every dilation, rotation and transposition: one flat loop over kernel rows, kernel columns and channels with its positions in image and weights written out, then rounded to nearest even, limited to 8 bits and, for RELU, below by 0 |
| ConvTaps.StoredWrittenOut | gemmini-rocc-tests/include/gemmini.h:2126-2132 | That value is in the output buffer, by batch, row, column and channel or by row, column, batch and channel |
| Conv.WindowMaxIsMaximum | gemmini-rocc-tests/include/gemmini_nn.h:486-528 | A pooled element bounds every element of its window, and is one of them or the least element value |
| Conv.WindowMaxIsElement | gemmini-rocc-tests/include/gemmini_nn.h:486-528 | For element values the maximum is attained in every non-empty window, all-negative ones included |
| Conv.Pool | gemmini-rocc-tests/include/gemmini_nn.h:486-528 | pool fills the tensor with the maxima of its windows, where a window sees 0 in the padding |
| Conv.ConvWithPool | gemmini-rocc-tests/include/gemmini.h:2187-2303 | conv_cpu with pooling fills the tensor with the window maxima of the convolution itself, where a window sees 0 in the padding |
| Conv.PooledIsMaximum | gemmini-rocc-tests/include/gemmini_nn.h:503-521 | A pooled element is at least the tensor value at every window position inside, at least 0 if a position is outside, and one of these values or -128; the coordinates are p * stride + w - padding |
| Conv.MaximumIsUnique | gemmini-rocc-tests/include/gemmini_nn.h:503-521 | No other number is |
| Conv.MaximumIsAttained | gemmini-rocc-tests/include/gemmini_nn.h:503-521 | For element values the maximum is one of the values seen: a tensor value at a window position inside, or 0 at one outside |
| Conv.OutDimCountsWindows | gemmini-rocc-tests/include/gemmini.h:2218-2219 | The pooled dimension counts the windows that fit: the last does, one more would not; and what it is when none fits |
| Conv.FusionPreservesMeaning | gemmini-rocc-tests/include/gemmini.h:2217-2303 | conv_cpu equals conv_cpu_without_pool followed by pool, for windows over the padding and all-negative windows too |
| Conv.PoolBothWays | gemmini-rocc-tests/include/gemmini_nn.h:486-528 | Convolving and then pooling leaves the output elements that the fused pass leaves |
| Im2col.Tap | gemmini-rocc-tests/include/gemmini_nn.h:318-330 | One tap copies its channels to entries (krow * kernel + kcol) * channels + ch of the patch row, or leaves zeros outside the image |
| Im2col.Im2col | gemmini-rocc-tests/include/gemmini_nn.h:304-339 | From a zeroed matrix, row (b * out_rows + orow) * out_cols + ocol becomes the patch of that output, for all outputs |
| Im2colTheorem.MatmulOfPatchesIsConvolution | gemmini-rocc-tests/include/gemmini_nn.h:304-339 | The patch matrix times the HWIO weights with a repeating bias is the convolution, for every batch, size, stride, padding and kernel |
| Im2colTheorem.ConvolveBothWays | gemmini-rocc-tests/include/gemmini.h:2080-2132 | im2col and matmul_cpu leave the same output elements as conv_cpu_without_pool |
| Depthwise.ConvDwCpu | gemmini-rocc-tests/include/gemmini.h:2140-2180 | conv_dw_cpu_without_pool fills the output with the depthwise sums, scaled, saturated, then clamped |
| Depthwise.ConvDwWithCol2im | gemmini-rocc-tests/include/gemmini_nn.h:244-301 | conv_dw_with_col2im fills it with the same sums, clamped, then scaled and saturated, whatever the row lengths of the two matrices, and writes nothing else |
| Depthwise.ReferenceWrittenOut | gemmini-rocc-tests/include/gemmini.h:2154-2180 | The value the reference stores in numbers: one flat loop over the kernel with positions written out, times the scale, rounded to nearest even, limited to 8 bits and, for RELU, below by 0 |
| Depthwise.LayerWrittenOut | gemmini-rocc-tests/include/gemmini_nn.h:262-296 | The same for the layer, which limits the sum below by 0 before it scales |
| Depthwise.LayerStageRounds | gemmini-rocc-tests/include/gemmini_nn.h:285-296 | The output stage of the layer is the sum, limited below by 0, times the scale, rounded to nearest, ties to even, limited to -128 .. 127 |
| Depthwise.ClampCommutesExactly | gemmini-rocc-tests/include/gemmini_nn.h:285-296 | The two orders agree on every sum if and only if the scale is not negative |
| Depthwise.LayerMatchesReference | gemmini-rocc-tests/include/gemmini_nn.h:244-301 | So for RELU and every non-negative scale both write the same tensor |
| Depthwise.LayerBothWays | gemmini-rocc-tests/include/gemmini_nn.h:244-301 | Running both on one tensor, stored with any row length for the layer, leaves the same elements in both buffers |
| DepthwiseTile.ZerosOutsideImage | gemmini-rocc-tests/include/gemmini.h:1713-1718 | The test for a zero move-in holds exactly for the positions outside the image |
| DepthwiseTile.RunIsUniform | gemmini-rocc-tests/include/gemmini.h:1680-1718 | A move-in lies wholly inside or wholly outside the image columns, so one test decides for it |
| DepthwiseTile.RunInBounds | gemmini-rocc-tests/include/gemmini.h:1715-1723 | No non-zero move-in touches memory outside the image |
| DepthwiseTile.LoadInput | gemmini-rocc-tests/include/gemmini.h:1680-1729 | After the input move-ins every scratchpad row of the slice holds its pixel, zero outside the image |
| DepthwiseTile.LoadWeights | gemmini-rocc-tests/include/gemmini.h:1761-1789 | After the weight move-ins every weight of the kernel slice is in its scratchpad row |
| DepthwiseTile.TapPixel | gemmini-rocc-tests/include/gemmini.h:1814-1853 | The row a multiply starts at for (orow, ocol, krow, kcol) holds exactly the pixel the reference reads there |
| DepthwiseTile.MultiplyLegal | gemmini-rocc-tests/include/gemmini.h:1832-1861 | No multiply reads outside the scratchpad |
| DepthwiseTile.MultiplyAdvances | gemmini-rocc-tests/include/gemmini.h:1814-1926 | A multiply adds its kernel columns to its run of outputs and to no other accumulator row |
| DepthwiseTile.Compute | gemmini-rocc-tests/include/gemmini.h:1792-1934 | The compute loops add the products of the whole kernel slice to every output of the tile, each once |
| DepthwiseTile.StoreTile | gemmini-rocc-tests/include/gemmini.h:1939-1959 | The move-outs store every output of the tile once and nothing else |
| DepthwiseTile.Driver.SpTiledConv | gemmini-rocc-tests/include/gemmini.h:1602-1616 | One kernel slice accumulates at the old C offset; D moves on exactly with a bias, C exactly with an output |
| DepthwiseDriver.SlicesFit | gemmini-rocc-tests/include/gemmini.h:2826-2846 | Every slice that the driver cuts fits half the scratchpad and half the accumulator |
| DepthwiseDriver.OutputTile | gemmini-rocc-tests/include/gemmini.h:2804-2880 | Each output tile starts with equal offsets, accumulates all kernel slices in the half where its bias was loaded, leaves the other half alone, and ends with both offsets in the other half |
| DepthwiseDriver.Execute | gemmini-rocc-tests/include/gemmini.h:2797-2888 | The whole run stores every output once, with the depthwise sum after the output stage, and nothing else |
| DepthwiseDriver.RunAndCheck | gemmini-rocc-tests/include/gemmini.h:2697-2888 | Running the driver and the reference on one problem leaves equal output tensors |
| SplitBB.Function.SplitBb | llvm/split_bb.cpp:50-108 | Splitting a block yields a chain of blocks that, without the inserted branches, is the original; every piece is settled; it is normal if and only if no splitting call stood directly before a splitting invoke; the recursion terminates |
| SplitBB.Function.Run | llvm/split_bb.cpp:33-97 | The same for a whole function, its blocks in order. Afterwards every call of an unknown or defined function is first in its block and followed at most by one terminator that is no conditional branch; every such invoke is alone or directly behind such a call, and some is behind one exactly if some was before. The function is left unchanged if and only if this held before, so always if all calls are of declared functions. For a function whose terminators go to its own labels the two results below apply |
| SplitBB.SettledIff | llvm/split_bb.cpp:71-97 | The blocks that the pass leaves alone, written out by constructor and callee |
| SplitBB.NormalIff | llvm/split_bb.cpp:71-97 | Those in normal form, and the call-before-invoke pattern, written out |
| SplitBB.Function.RunTwice | llvm/split_bb.cpp:33-48 | A second run adds no block |
| SplitBB.CallThenInvokeStays | llvm/split_bb.cpp:83-97 | The pattern that the pass leaves in one block |
| SplitBB.ChainExecutes | llvm/split_bb.cpp:73-102 | Going through a chain from its first block to its last executes the original instructions |
| SplitBB.ChainStep | llvm/split_bb.cpp:73-102 | Inside a chain execution can only go to the next block |
| SplitBB.ExitStep | llvm/split_bb.cpp:33-108 | From the last block of a chain execution can go to a block if and only if that block starts the chain of a block that the original could go to |
| SplitBB.RunsPreserved | llvm/split_bb.cpp:33-108 | Every run of the original function is a run of the new one, with the same instruction sequence |
| SplitBB.RunsReflected | llvm/split_bb.cpp:33-108 | Every run of the new function that starts where an original block starts is the beginning of what a run of the original becomes: no other behaviour is added |
| Intervals.TraceRecordsInterval | llvm/log_helper.cpp:137-173 | In every run and for every interval t: one start record, then the ids of the other blocks of t in order, then one end marker if and only if a block starts after t has ended |
| Intervals.ProfileCountsIntervals | llvm/profile_helper.cpp:122-198 | Line q counts exactly the blocks that start in interval q |
| Intervals.ProfileAddsCycles | llvm/profile_helper.cpp:139-143 | Line q of the cycle file gives every block the cycles it took in interval q |
| Intervals.CyclesAddUp | llvm/profile_helper.cpp:62-84 | The cycles of a block on all lines of the cycle file add up to those it took in the run |
| Intervals.CountMapCounts | llvm/profile_helper.cpp:132-137 | The counts of a line are multiplicities |
| Intervals.PrintedCounts | llvm/profile_helper.cpp:148-166 | A line prints every id plus one with its multiplicity |
| Intervals.TraceMatchesProfile | llvm/profile_helper.cpp:39-59 | The blocks the tracer records for t are those the profiler counts on line t, the last line included |
| Intervals.LinesPartitionRun | llvm/profile_helper.cpp:122-198 | Joined in order, the lines are all executions of the run, each once |
| Intervals.CountsAddUp | llvm/profile_helper.cpp:39-59 | The counts of a block on all lines add up to its executions |
| Intervals.FullLinesReachThreshold | llvm/profile_helper.cpp:145-147 | The instruction total of every full line lies in [threshold, threshold + largest block) |
| Intervals.StartFilesAgree | llvm/profile_helper.cpp:127-130 | When no block is empty, the start file names the first block of every interval: the tracer's start record |
| Profilers.Tracer.FlushBuffer | llvm/log_helper.cpp:87-95 | Flushing moves the buffered entries to the file in order |
| Profilers.Tracer.DumpData | llvm/log_helper.cpp:111-127 | Dumping appends one entry to what is dumped, across buffer allocation and flushes |
| Profilers.Tracer.UpdateDumpStatus | llvm/log_helper.cpp:148-173 | The status update is the tracer's step function |
| Profilers.Tracer.UpdateInsncountInterval | llvm/log_helper.cpp:137-146 | The counter update is the counter's step function |
| Profilers.Profiler.ProfileInterface | llvm/profile_helper.cpp:122-198 | One profiler call, with its two maps and three files, is the profiler's step function |
| Profilers.TraceRun | llvm/instrumentPass.cpp:89-110 | A traced run leaves in the files what the step functions say |
| Profilers.TraceAndProfile | llvm/log_helper.cpp:97-109 | Tracing interval t and profiling one run: line t counts exactly the traced ids, each printed as the id plus one, and the trace files are the blocks of t and the end marker 4294967295 |
| AddressMapping.XorKeepsLowBits | sim/DRAMSim2/AddressMapping.cpp:93-96 | Shifting down, up again and taking the exclusive or leaves exactly the low bits |
| AddressMapping.Map | sim/DRAMSim2/AddressMapping.cpp:36-311 | Each of the seven schemes yields the five fields given by arithmetic on the address: scheme 7, for one, the channel x % 2^chan, the bank x / 2^chan % 2^bank, and so on with x the address without byte offset and low column bits; any other scheme is the error exit |
| AddressMapping.MappedDigits | sim/DRAMSim2/AddressMapping.cpp:58-297 | The same for the mapping as a function of the address |
| AddressMapping.FieldsInRange | sim/DRAMSim2/AddressMapping.cpp:58-297 | Every field is below two to its width |
| AddressMapping.PackMapped | sim/DRAMSim2/AddressMapping.cpp:58-297 | Packing the fields of an address gives its mapped bits back |
| AddressMapping.MapAddress | sim/DRAMSim2/AddressMapping.cpp:58-297 | Every location in range is the image of its packed address, which fits the mapped width |
| AddressMapping.AddressMapped | sim/DRAMSim2/AddressMapping.cpp:58-297 | Packing what an address maps to gives the address back, but for the ignored low and high bits |
| AddressMapping.CollideIffSameBits | sim/DRAMSim2/AddressMapping.cpp:58-297 | Two addresses collide if and only if they agree on the mapped bits |
| AddressMapping.ColumnsInBankIff | sim/DRAMSim2/Bank.cpp:82-86 | The column of every mapped address lies in the table of NUM_COLS lists that a read indexes unchecked, if and only if NUM_COLS is a power of two or some low column bits are thrown away |
| AddressMapping.Log2 | sim/DRAMSim2/SystemConfiguration.h:200-212 | A width is the logarithm of its count, rounded up, and at most 32 |
| Banks.Bank.SearchForRow | sim/DRAMSim2/Bank.cpp:66-80 | The search terminates and finds the node of a row exactly if a write has put one there |
| Banks.Bank.RowsDistinct | sim/DRAMSim2/Bank.cpp:121-131 | In every list all rows are distinct |
| Banks.Bank.Read | sim/DRAMSim2/Bank.cpp:82-102 | A read returns the entry of the map, or the tracer value if there is none, and changes no list |
| Banks.Bank.Write | sim/DRAMSim2/Bank.cpp:105-143 | A write changes exactly its own entry of the map; a column outside the bank is the error exit |
| Banks.LastWriteWins | sim/DRAMSim2/Bank.cpp:105-143 | After any sequence of writes the map holds the last value written to each place and nothing where nothing was |
| Banks.WriteThenRead | sim/DRAMSim2/Bank.cpp:82-143 | So a read after any sequence of writes returns the last value written there, or, if there is none, a burst of zeros but for 0xdeadbeef in its first word |

## Left out

- MatmulTheorems.UntransposedMatchesIffSymmetric: speaks of the sums before the output stage, since saturation can hide a difference, and of calls whose reads stay inside B (for a layer, exactly those of `MatmulTheorems.LayerLoadsInsideIff`).
- MatmulTheorems.ComputesIffCleanStart: speaks of the sums before the output stage, since saturation can hide a wrong sum; a full-width output stores the sum itself. `MatmulTheorems.CleanStartComputes` adds the stored values of both widths.
- ConvTiles.PickedTilesAreAccepted: speaks of the space check, not of the other exits of tiled_conv (gemmini-rocc-tests/include/gemmini.h:2491-2510). Where the whole convolution does not fit the budgets of the search and the flags differ, acceptance is stated one way only: `ConvTiles.MaximalityDoesNotDecide` shows that the maximality of the pick does not settle it; which maximal tile the loops reach is determined by their run (`ConvTiles.SearchIsDetermined`), not by a closed formula.
- Conv.ConvWithoutPool: reads of operands outside their buffers count as zero, since the source states no buffer lengths; stores are in bounds.
- Depthwise.ConvDwCpu: reads of operands as in `Conv.ConvWithoutPool`; its input is dense, as in the source.
- ConvSpace.InputHeld: the input rows are those of the counting function, where a dilated position is divided rounding down and the padding is part of the image; `sp_tiled_conv` rounds up in its dilated case, which is not modelled.
- Im2col.Im2col: requires a kernel of at least one row, and a matrix row as long as a patch.
- SplitBB.RunsPreserved: phi nodes and debug information are not modelled; LLVM's SplitBlock is taken to keep them right. What a terminator decides is not modelled beyond the labels it may go to.
- Profilers.Profiler.ProfileInterface: the text format of the lines and the unused interval counter and flag are not modelled.
- Profilers.Tracer.Finish: the set of function names and the opening and closing of files are not modelled.
- Banks.Bank.Read: requires a column inside the bank, since outside it the unchecked access of the source is undefined; `AddressMapping.ColumnsInBankIff` says when mapped addresses meet it. Data are values, so sharing of a data buffer between packet and store is not modelled.
- AddressMapping.Map: no 64-bit wrap-around, since no step makes the address larger; the alignment warning is not modelled.
- IntSqrt.Sqrt: negative arguments, for which the loop divides by zero.
- Buffers are sequences of elements and addresses are element offsets, not bytes.
- A and B pointers are never NULL in the matmul; pointer aliasing between operands and result is excluded by the value model of main memory.
- The output-stationary matmul: its loads and the driver's offsets disagree on the layout of B.
- Values of `tiled_conv` with several kernel or channel slices: the guard that suppresses output of partial slices is commented out (gemmini-rocc-tests/include/gemmini.h:2587-2591), so accumulator halves change on every slice.
- Pooling, transposition, input dilation and downsampling inside `sp_tiled_conv`: pooling exits, and the others depend on commented-out configuration instructions.
- Floating-point rounding: scales are exact reals; NaN and overflow of conversions are not modelled.
- SOFTMAX, LAYERNORM and IGELU.
- The scale factor of the bias: the macro that applies it is the identity, since HAS_MVIN_ACC_SCALE is not defined.
- Wrap-around of 32-bit sums, except for the bound that `MatmulCpu.SumFitsInt32` gives.
- The sixteen statements of the 4x4 block are two loops in the model.
- `resadd`, global average pooling, the benchmark mains and the simulator stubs: no further logic.
