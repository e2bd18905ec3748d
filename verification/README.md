# xGPR structured transforms, modelled in Dafny

xGPR builds random features for Gaussian-process regression from structured
orthogonal transforms: each input row is multiplied by a diagonal of random
signs (a "Rademacher diagonal"), passed through an unnormalised fast
Walsh-Hadamard transform, and so on for three rounds. This project models the
CPU core of that machinery and proves what it computes:

- `hadamard.dfy` and `walsh.dfy`: `transformRows`. The model covers its
  hand-unrolled first three stages and their early exits, then the general
  butterfly loop. It proves that each length-`dim2` segment of every row in
  range ends as the explicit Walsh-Hadamard sum
  `out[k] = Σ_j (-1)^popcount(j & k) x[j]`. It also proves that the transform
  is linear and that applying it twice multiplies by the length.
- `diagonal.dfy`: the five diagonal sign scalings. These are the plain 2-D and
  3-D variants, the variant that writes into a copy buffer, and the two
  convolution variants that tile a slice of the sign array across segments.
  The model proves which element gets which factor and that nothing outside
  the rows in range changes.
- `ard.dfy`, `ard_worker.dfy` and `ard_entry.dfy`: the graph ARD gradient entry
  point `graphARDDoubleGrad_`. This covers how the thread count is clamped,
  how rows are split into chunk ranges, the status string the entry point
  returns, and the two passes each thread makes over its rows. The model
  proves that the ranges partition the batch. It also proves that the call
  reports success exactly when every allocation, creation and join succeeds,
  and that every row then holds the closed-form cosine/sine features and the
  per-lengthscale gradient.
- `graph_rbf.dfy`: the GraphRBF kernel's constructor (shape validation,
  padded width, sign-array size) and its two entry points. These check their
  inputs, zero-pad every node's features to the padded width, and either scale
  the input by `sigma` (features) or pass `sigma` along (gradient).
- `conv_reference.dfy` and `conv_features.dfy`: the reference computations the
  convolution tests compare against. These are the sizes, the sliding
  windows, the three sign/transform rounds, the feature and gradient
  generators and max-pooling. The model proves closed forms for every feature
  column and that each round can be undone.
- `arith.dfy`, `rows.dfy` and `outcome.dfy` hold shared arithmetic, flat-array
  row helpers and the `Option`/`Result` types.

The operations are pure functions over sequences. The copy variants of the
diagonal scaling return only the buffer, so the input array is unchanged by
construction. The ARD gradient is modelled literally: the C code multiplies
the summed partial products by the summed cosine and sine, and the model
states exactly that, not the derivative of the features. The GraphRBF entry
points refuse an input wider than the padded width with an error of their own.
In the source that case is not checked explicitly; numpy's slice assignment
fails instead.

Arithmetic is over Dafny's exact `real`. `cos`, `sin`, `sqrt`, the random
draws and the normalisation constant are parameters of the operations that
use them. A predicate states what the model relies on: for example
`IsNormFor(norm, c)` says `norm * norm * c == 1`.

## Model

| member | source | states |
|---|---|---|
| WalshHadamard.SylvesterIsWalsh | xGPR/random_feature_generation/cpu_rf_gen/shared_fht_functions/hadamard_transforms.cpp:12-20 | The recursive butterfly transform of a power-of-two length equals the explicit unnormalised Walsh-Hadamard sum `out[k] = Σ_j (-1)^popcount(j & k) x[j]`. |
| WalshHadamard.SylvesterLinear | xGPR/random_feature_generation/cpu_rf_gen/shared_fht_functions/hadamard_transforms.cpp:12-20 | The unnormalised transform is linear: the transform of `a*u + b*v` is `a*T(u) + b*T(v)`. |
| WalshHadamard.SylvesterInvolution | xGPR/random_feature_generation/cpu_rf_gen/shared_fht_functions/hadamard_transforms.cpp:12-20 | Transforming twice multiplies every entry by the length, so `T / n` inverts `T`. |
| Hadamard.StageAt | xGPR/random_feature_generation/cpu_rf_gen/shared_fht_functions/hadamard_transforms.cpp:110-121 | Stage `h` replaces exactly the pairs `(p, p + h)` with `p mod 2h < h` by their sum (at `p`) and difference (at `p + h`); every other position is left alone. |
| Hadamard.StageMergesSegments | xGPR/random_feature_generation/cpu_rf_gen/shared_fht_functions/hadamard_transforms.cpp:110-121 | Applied to a row whose length-`m` segments are already transformed, stage `m` leaves every length-`2m` segment transformed. |
| Hadamard.StagesAreSegWht | xGPR/random_feature_generation/cpu_rf_gen/shared_fht_functions/hadamard_transforms.cpp:49-122 | Stages `1, 2, …, c/2` in that order transform every length-`c` segment of a row independently. |
| Hadamard.SegWhtSegment | xGPR/random_feature_generation/cpu_rf_gen/shared_fht_functions/hadamard_transforms.cpp:15-20 | Segment `s` of the row-wise transform is the transform of segment `s` of the input: neighbouring segments never mix. |
| Hadamard.SegmentIsWalsh | xGPR/random_feature_generation/cpu_rf_gen/shared_fht_functions/hadamard_transforms.cpp:15-20 | Each length-`c` segment of the result is the explicit Walsh-Hadamard sum of the same segment of the input. |
| Hadamard.SegWhtTwice | xGPR/random_feature_generation/cpu_rf_gen/shared_fht_functions/hadamard_transforms.cpp:15-20 | Transforming the segments twice multiplies every entry by the segment length (the transform is unnormalised). |
| Hadamard.SegWhtLinear | xGPR/random_feature_generation/cpu_rf_gen/shared_fht_functions/hadamard_transforms.cpp:15-20 | The segment-wise transform is linear. |
| HadamardLoops.UnrolledStage1 | xGPR/random_feature_generation/cpu_rf_gen/shared_fht_functions/hadamard_transforms.cpp:52-58 | The first hand-unrolled loop (pairs `(i, i + 1)`, `i` even) computes stage 1. |
| HadamardLoops.UnrolledStage2 | xGPR/random_feature_generation/cpu_rf_gen/shared_fht_functions/hadamard_transforms.cpp:62-75 | The second hand-unrolled loop (pairs `(0, 2)`, `(1, 3)` of every block of 4) computes stage 2. |
| HadamardLoops.UnrolledStage4 | xGPR/random_feature_generation/cpu_rf_gen/shared_fht_functions/hadamard_transforms.cpp:79-105 | The third hand-unrolled loop (pairs `(t, t + 4)`, `t < 4`, of every block of 8) computes stage 4. |
| HadamardLoops.StageBlock | xGPR/random_feature_generation/cpu_rf_gen/shared_fht_functions/hadamard_transforms.cpp:112-120 | The innermost `j` loop does the butterflies of one block of `2h` and nothing else. |
| HadamardLoops.GeneralStage | xGPR/random_feature_generation/cpu_rf_gen/shared_fht_functions/hadamard_transforms.cpp:111-121 | The `i` loop over blocks of `2h` computes stage `h`. |
| HadamardLoops.FirstStages | xGPR/random_feature_generation/cpu_rf_gen/shared_fht_functions/hadamard_transforms.cpp:49-107 | For `dim2 >= 2`, the three unrolled stages with the exits `dim2 <= 2`, `<= 4`, `<= 8` leave exactly the stages below `min(dim2, 8)` done. |
| HadamardLoops.LaterStages | xGPR/random_feature_generation/cpu_rf_gen/shared_fht_functions/hadamard_transforms.cpp:110-122 | The loop `h = 8, 16, …, < dim2` completes the stages, so the row ends segment-wise transformed. |
| HadamardLoops.TransformRow | xGPR/random_feature_generation/cpu_rf_gen/shared_fht_functions/hadamard_transforms.cpp:49-122 | One row ends as the segment-wise transform with segment length `dim2`; a row with `dim2 == 1` is left as it is. |
| HadamardLoops.TransformRows | xGPR/random_feature_generation/cpu_rf_gen/shared_fht_functions/hadamard_transforms.cpp:36-124 | Rows `startRow <= i < endRow` are each replaced by their segment-wise transform; every other element is unchanged. |
| HadamardLoops.RowStagesAsWrittenAgree | xGPR/random_feature_generation/cpu_rf_gen/shared_fht_functions/hadamard_transforms.cpp:49-60 | For every power-of-two segment length of at least 2, the stages the routine runs on a row as written are the segment-wise transform. |
| HadamardLoops.StageOnePair | xGPR/random_feature_generation/cpu_rf_gen/shared_fht_functions/hadamard_transforms.cpp:52-58 | The first loop leaves the sum of each pair `(e, e + 1)`, `e` even, at `e` and the difference at `e + 1`. |
| HadamardLoops.RowStagesAsWrittenDim2OneWrong | xGPR/random_feature_generation/cpu_rf_gen/shared_fht_functions/hadamard_transforms.cpp:49-60 | With `dim2 == 1` and an even row length, the first loop as written leaves a row unchanged, as the length-1 transform does, only when the row is all zero. |
| HadamardLoops.RowStagesAsWrittenDim2One | xGPR/random_feature_generation/cpu_rf_gen/shared_fht_functions/hadamard_transforms.cpp:52-60 | With `dim2 == 1` and two elements per row, the first loop turns `[1, 0]` into `[1, 1]` although the length-1 transform is the identity. |
| HadamardLoops.PairsAsWritten | xGPR/random_feature_generation/cpu_rf_gen/shared_fht_functions/hadamard_transforms.cpp:49-58 | The first loop on one row as written keeps the array length, and writes outside the array exactly when its last pair reaches past the end. |
| HadamardLoops.FirstLoopAsWritten | xGPR/random_feature_generation/cpu_rf_gen/shared_fht_functions/hadamard_transforms.cpp:48-60 | The first loop as written over a range of rows, which is all the routine does for `dim2 <= 2`, keeps the array length whenever it stays inside the array. |
| HadamardLoops.FirstLoopCrossesRows | xGPR/random_feature_generation/cpu_rf_gen/shared_fht_functions/hadamard_transforms.cpp:49-58 | With `dim2 == 1` and `dim1 == 3`, the first loop on row 0 of `[1, 0, 0, 5, 0, 0]` also rewrites element 3, the first of row 1; on rows 0 and 1 it writes past the end of the array. |
| Diagonal.ScaledRowsAt | xGPR/random_feature_generation/cpu_rf_gen/shared_fht_functions/diagonal_matmul_ops.cpp:136-141 | Element `(i, j)` of a row in range is the input element times `radem[j] * norm`. |
| Diagonal.ScaledMagnitude | xGPR/random_feature_generation/cpu_rf_gen/shared_fht_functions/diagonal_matmul_ops.cpp:136-141 | With ±1 signs and `norm > 0`, every element in a row in range keeps its magnitude, scaled by `norm`. |
| Diagonal.ScaledTwice | xGPR/random_feature_generation/cpu_rf_gen/shared_fht_functions/diagonal_matmul_ops.cpp:124-143 | Scaling twice by the same signs, with `norm = 1/sqrt(c)`, leaves each element in range at `1/c` of its value: `c` times the result is the input. |
| Diagonal.ConvIsTiledDiagonal | xGPR/random_feature_generation/cpu_rf_gen/shared_fht_functions/diagonal_matmul_ops.cpp:269-277 | The convolution variants multiply by the sign slice `radem[startPosition .. startPosition + d2)` repeated once per segment: the plain diagonal, tiled. |
| Diagonal.ScaleRowsLoop | xGPR/random_feature_generation/cpu_rf_gen/shared_fht_functions/diagonal_matmul_ops.cpp:136-142 | The shared row loop yields the reference result: rows in range scaled position by position, all other elements unchanged. |
| Diagonal.MultiplyByDiagonalRademacherMat2D | xGPR/random_feature_generation/cpu_rf_gen/shared_fht_functions/diagonal_matmul_ops.cpp:61-80 | Rows of `dim1` elements in `[startRow, endRow)` are multiplied element-wise by `radem[j] / sqrt(dim1)`; the rest of the array is unchanged. |
| Diagonal.MultiplyByDiagonalRademacherMat | xGPR/random_feature_generation/cpu_rf_gen/shared_fht_functions/diagonal_matmul_ops.cpp:124-143 | Rows of `dim1 * dim2` elements in range are multiplied by `radem[j] / sqrt(dim2)` at position `j`; the rest is unchanged. |
| Diagonal.MultiplyByDiagonalRademAndCopy | xGPR/random_feature_generation/cpu_rf_gen/shared_fht_functions/diagonal_matmul_ops.cpp:189-211 | The scaled rows are written to the copy buffer, which holds the same values the in-place variant would leave; the buffer is otherwise unchanged. |
| Diagonal.ConvRowsLoop | xGPR/random_feature_generation/cpu_rf_gen/shared_fht_functions/diagonal_matmul_ops.cpp:269-277 | The three-level loop of the convolution variants leaves the reference result of the tiled factors. |
| Diagonal.ConvElemAt | xGPR/random_feature_generation/cpu_rf_gen/shared_fht_functions/diagonal_matmul_ops.cpp:271-274 | Element `(i, j, k)` of the convolution result is the source element times `radem[startPosition + k] * norm`. |
| Diagonal.Conv1dMultiplyByRadem | xGPR/random_feature_generation/cpu_rf_gen/shared_fht_functions/diagonal_matmul_ops.cpp:258-278 | Element `(i, j, k)` of a row in range is multiplied by `radem[startPosition + k] / sqrt(reshapedDim2)`; the rest is unchanged. |
| Diagonal.Conv1dRademAndCopy | xGPR/random_feature_generation/cpu_rf_gen/shared_fht_functions/diagonal_matmul_ops.cpp:329-352 | The products of the convolution variant are written into the copy buffer, element for element. |
| Diagonal.CopyMatchesInPlace | xGPR/random_feature_generation/cpu_rf_gen/shared_fht_functions/diagonal_matmul_ops.cpp:202-210 | Every copy variant writes into its buffer exactly what its in-place twin leaves in the array. |
| ArdPlan.ClampThreads | xGPR/random_feature_generation/cpu_rf_gen/convolution_ops/ard_convolution.c:76-77 | The thread count is at most the number of rows and equals the request when that is smaller. |
| ArdPlan.ChunkSizeAsWritten | xGPR/random_feature_generation/cpu_rf_gen/convolution_ops/ard_convolution.c:76-90 | The chunk size `ceil(dim0 / numThreads)` after clamping; it is undefined (division by zero) exactly when `dim0 == 0` or `numThreads == 0`. |
| ArdPlan.EmptyBatchDividesByZero | xGPR/random_feature_generation/cpu_rf_gen/convolution_ops/ard_convolution.c:76-90 | An empty batch clamps every requested thread count to zero, so the chunk-size division has no value. |
| ArdPlan.ChunkSize | xGPR/random_feature_generation/cpu_rf_gen/convolution_ops/ard_convolution.c:90 | For a non-empty batch and at least one thread the chunk is defined, positive and equal to the value the entry point computes. |
| ArdPlan.RangeMembership | xGPR/random_feature_generation/cpu_rf_gen/convolution_ops/ard_convolution.c:90-96 | Row `q` belongs to thread `t`'s range exactly when `0 <= q < dim0` and `q / chunk == t`, so the ranges are disjoint. |
| ArdPlan.RangeAt | xGPR/random_feature_generation/cpu_rf_gen/convolution_ops/ard_convolution.c:92-96 | Thread `t` starts at `t * chunk` and ends one chunk later or at `dim0`, whichever comes first. |
| ArdPlan.RangesCover | xGPR/random_feature_generation/cpu_rf_gen/convolution_ops/ard_convolution.c:92-96 | The last thread's range reaches the end of the batch. |
| ArdPlan.RangeOwner | xGPR/random_feature_generation/cpu_rf_gen/convolution_ops/ard_convolution.c:90-96 | Every row of the batch belongs to some thread's range. |
| ArdPlan.LaunchStatus | xGPR/random_feature_generation/cpu_rf_gen/convolution_ops/ard_convolution.c:79-127 | The call reports `no_error` exactly when the allocation succeeded, every thread was created and every join returned 0. |
| ArdWorker.PositionPass | xGPR/random_feature_generation/cpu_rf_gen/convolution_ops/ard_convolution.c:326-333 | The `m` loop adds each product `x * w` to the gradient slot of its lengthscale and returns the `sigmaVals`-weighted sum. |
| ArdWorker.FreqPass | xGPR/random_feature_generation/cpu_rf_gen/convolution_ops/ard_convolution.c:320-339 | Over all positions of one frequency, the cosine and sine of each position's sum are added to feature columns `j` and `F + j`, and the products to the frequency's gradient block. |
| ArdWorker.RowPass1 | xGPR/random_feature_generation/cpu_rf_gen/convolution_ops/ard_convolution.c:318-342 | The first pass over one row leaves the feature and gradient rows that the reference sums define. |
| ArdWorker.Pass2Block | xGPR/random_feature_generation/cpu_rf_gen/convolution_ops/ard_convolution.c:354-359 | The innermost second-pass loop turns each accumulated slot `g` into `-sinVal * g` and puts `cosVal * g` in its partner slot. |
| ArdWorker.RowPass2 | xGPR/random_feature_generation/cpu_rf_gen/convolution_ops/ard_convolution.c:347-364 | The second pass over one row scales each feature once by the norm constant and rewrites each gradient block from it. |
| ArdWorker.Pass1Rows | xGPR/random_feature_generation/cpu_rf_gen/convolution_ops/ard_convolution.c:315-342 | The first pass over rows `[startRow, endRow)` maps each such row to its first-pass reference and changes no other row. |
| ArdWorker.Pass2Rows | xGPR/random_feature_generation/cpu_rf_gen/convolution_ops/ard_convolution.c:344-364 | The second pass over rows `[startRow, endRow)` maps each such row to its second-pass reference and changes no other row. |
| ArdWorker.Worker | xGPR/random_feature_generation/cpu_rf_gen/convolution_ops/ard_convolution.c:302-365 | `doubleGraphARDGradCalcs`: rows in range end as the two passes' references; rows outside are unchanged. |
| ArdWorker.FeatRow1At | xGPR/random_feature_generation/cpu_rf_gen/convolution_ops/ard_convolution.c:334-335 | After the first pass, columns `j` and `F + j` gained the summed cosines and sines of frequency `j`. |
| ArdWorker.GradRow1At | xGPR/random_feature_generation/cpu_rf_gen/convolution_ops/ard_convolution.c:326-329 | After the first pass, slot `j * L + g` gained the sum of the products of lengthscale `g` at frequency `j`. |
| ArdWorker.GradRow2At | xGPR/random_feature_generation/cpu_rf_gen/convolution_ops/ard_convolution.c:349-357 | After the second pass, slot `j * L + g` is `-sin * acc` and slot `F * L + j * L + g` is `cos * acc`, with `cos`, `sin` the scaled features. |
| ArdWorker.ZeroEntryFirstPass | xGPR/random_feature_generation/cpu_rf_gen/convolution_ops/ard_convolution.c:315-342 | With zeroed rows on entry, the first pass leaves exactly the cosine and sine sums and the lengthscale sums, and zero in the upper gradient half. |
| ArdWorker.SecondPassSlots | xGPR/random_feature_generation/cpu_rf_gen/convolution_ops/ard_convolution.c:347-358 | In terms of first-pass values the second pass leaves `c * tc`, `c * ts`, `-(c * ts) * gs` and `(c * tc) * gs`. |
| ArdEntry.RunThread | xGPR/random_feature_generation/cpu_rf_gen/convolution_ops/ard_convolution.c:238-247 | One thread runs the worker on its range after the threads before it; the finished prefix of rows grows to the range's end and nothing past it changes. |
| ArdEntry.RunThreads | xGPR/random_feature_generation/cpu_rf_gen/convolution_ops/ard_convolution.c:92-118 | The threads of the planned ranges together finish every row of the batch. |
| ArdEntry.GraphArdGrad | xGPR/random_feature_generation/cpu_rf_gen/convolution_ops/ard_convolution.c:71-128 | `graphARDDoubleGrad_`: `no_error` exactly when allocation, creation and joins all succeed, and then every row of both arrays holds the two passes' result. |
| GraphRbf.PaddedDims | xGPR/kernels/convolution_kernels/graph_rbf.py:83 | The padded width is a power of two, at least 2 and at least the feature count. |
| GraphRbf.PaddedDimsIsLeast | xGPR/kernels/convolution_kernels/graph_rbf.py:83 | No smaller power of two that is at least 2 holds the features. |
| GraphRbf.FreqSize | xGPR/kernels/convolution_kernels/graph_rbf.py:84-85 | The sign-array length is a multiple of the padded width, at least `num_freqs` and less than `num_freqs + padded_dims`. |
| GraphRbf.RademDraw | xGPR/kernels/convolution_kernels/graph_rbf.py:87-90 | The sign array has shape `(3, 1, freqSize)` and every entry is -1 or 1. |
| GraphRbf.NewGraphRbf | xGPR/kernels/convolution_kernels/graph_rbf.py:45-96 | The constructor fails with the 3-D error exactly when `xdim` does not have three entries. Otherwise the padded width is a power of two, at least 2 and at least the feature count; the slot count is a multiple of it holding `num_freqs` with less than one width to spare; averaging is on exactly when `"averaging"` is present and truthy; the hyperparameters are `[1, 1]` with bounds `[(0.001, 100), (0.01, 100)]`; the sign array has shape `(3, 1, slots)` with every entry -1 or 1; chi entry `i` is draw `i`. |
| GraphRbf.NewGraphRbfValid | xGPR/kernels/convolution_kernels/graph_rbf.py:68-96 | Every kernel the constructor returns keeps the invariant the entry points rely on: a power-of-two padded width of at least 2, a slot count that is a multiple of it and holds every frequency, a `(3, 1, slots)` sign array of -1 and 1, one chi value per frequency, and two hyperparameters with a bound each. |
| GraphRbf.PaddedAt | xGPR/kernels/convolution_kernels/graph_rbf.py:150-152 | Column `c` of a padded row is the input times the scale for `c < d` and zero beyond. |
| GraphRbf.CropOfPad | xGPR/kernels/convolution_kernels/graph_rbf.py:150-152 | Cropping the padded array back to `d` columns gives the scaled input. |
| GraphRbf.CropOfPadUnit | xGPR/kernels/convolution_kernels/graph_rbf.py:181-183 | At unit scale padding and cropping back return the input itself. |
| GraphRbf.PadScaledAll | xGPR/kernels/convolution_kernels/graph_rbf.py:150-152 | Padding at scale `s` is `s` times padding at scale 1. |
| GraphRbf.TransformX | xGPR/kernels/convolution_kernels/graph_rbf.py:129-155 | `transform_x` fails with the missing-length error when `sequence_length` is `None`, else with the 3-D error when the input is not 3-D, else with the broadcast error when its last axis is wider than the padding, and succeeds exactly when none of these holds. It then allocates a zero output of `num_rffs` columns per sample and pads the input scaled by `sigma`. |
| GraphRbf.TransformXPads | xGPR/kernels/convolution_kernels/graph_rbf.py:149-152 | Row `r`, column `c` of what `transform_x` pads is the input times `hyperparams[1]` inside the input width and zero beyond. |
| GraphRbf.KernelSpecificGradient | xGPR/kernels/convolution_kernels/graph_rbf.py:159-187 | `kernel_specific_gradient` fails with the same three errors in the same order, and succeeds exactly when none of them holds. It then pads the unscaled input, allocates a zero output of `num_rffs` columns per sample and passes `sigma` separately. |
| GraphRbf.KernelSpecificGradientPads | xGPR/kernels/convolution_kernels/graph_rbf.py:180-182 | Row `r`, column `c` of what `kernel_specific_gradient` pads is the input itself inside the input width and zero beyond. |
| GraphRbf.EntryPointsAgree | xGPR/kernels/convolution_kernels/graph_rbf.py:129-187 | Both entry points accept the same inputs, and the feature path's padded input is `sigma` times the gradient path's. |
| ConvReference.InitialSizes | test/fht_operations_tests/conv_testing_functions.py:12-36 | Fails on `ceil(log2(0))`, the ceiling of minus infinity, exactly when `kernel_width * aa_dim == 0`; otherwise fails on numpy's empty `[low, high)` range exactly when there are samples and `kernel_width >= num_aas`. On success `dim2` is a power of two holding a window and less than twice its size, `num_blocks = num_aas - kernel_width + 1`, the sign array length is a multiple of `dim2` holding `num_freqs` with less than `dim2` to spare, and the feature and scaling widths follow the mode. |
| ConvReference.InitialSizesAreLeast | test/fht_operations_tests/conv_testing_functions.py:15-20 | `dim2` is the least such power of two and `radem_size` the least such multiple. |
| ConvReference.FlattenAt | test/fht_operations_tests/conv_testing_functions.py:66-67 | Entry `c` of row `r` of a window lands at `r * w + c` of its reshape. |
| ConvReference.WindowAt | test/fht_operations_tests/conv_testing_functions.py:64-67 | Entry `p` of window `i` is feature `p % aa_dim` of row `i + p / aa_dim` inside the window and zero in the padding. |
| ConvReference.Windows | test/fht_operations_tests/conv_testing_functions.py:55-67 | The reshaped array has shape `(N, num_blocks, dim2)` with window `i` of every sample. |
| ConvReference.RepeatSigns | test/fht_operations_tests/conv_testing_functions.py:61-62 | Repeat `r` uses the `dim2` signs `radem[d, 0, r * dim2 : (r + 1) * dim2]`. |
| ConvReference.ReshapedX | test/fht_operations_tests/conv_testing_functions.py:45-74 | Every window of every sample goes through three rounds of signs, `norm` and the unnormalised transform, diagonals 0, 1, 2 in order. |
| ConvReference.UndoRoundInverts | test/fht_operations_tests/conv_testing_functions.py:69-74 | With ±1 signs and `norm^2 * dim2 == 1`, transforming again and reapplying the signs and `norm` undoes one round. |
| ConvReference.SorfRowInverts | test/fht_operations_tests/conv_testing_functions.py:69-74 | Undoing rounds 2, 1 and 0 in that order recovers the window row. |
| ConvFeatures.PySliceLen | test/fht_operations_tests/conv_testing_functions.py:128-129 | Index `i` of the window axis is in the slice `[:cutpoint]` exactly when it lies before `cutpoint`, a negative `cutpoint` counting from the end; the slice is the prefix of those indices. |
| ConvFeatures.BlockedColumns | test/fht_operations_tests/conv_testing_functions.py:110-130 | The repeat/offset/sample loops write frequency `c` of every sample once, from repeat `c / dim2` and offset `c % dim2`, for exactly the `c < num_freqs`. |
| ConvFeatures.NormalisationDivides | test/fht_operations_tests/conv_testing_functions.py:122-129 | A normalised feature pair times its divisor (`sqrt(cutpoint)` or `cutpoint`, 1 without normalisation) is the pair without normalisation: normalising divides each sample's sums by that divisor. |
| ConvFeatures.PairIsCell | test/fht_operations_tests/conv_testing_functions.py:116-129 | The closed form of frequency `c` is what the loop computes at repeat `c / dim2`, offset `c % dim2`. |
| ConvFeatures.FeatureColumns | test/fht_operations_tests/conv_testing_functions.py:118-129 | Every cell the loop writes holds the cosine and sine sums of its frequency over the valid windows. |
| ConvFeatures.GetFeatures | test/fht_operations_tests/conv_testing_functions.py:99-133 | `get_features` fails, as `1 / num_freqs` does in Python, exactly when `num_freqs == 0`. Otherwise it has `2 * num_freqs` columns per sample; columns `2c`, `2c + 1` hold the normalised cosine and sine sums of frequency `c`, and the whole array is scaled by `sqrt(1 / num_freqs)`. |
| ConvFeatures.QuadIsCell | test/fht_operations_tests/conv_testing_functions.py:153-164 | The closed form of frequency `c` in the gradient generator is what its loop computes at repeat `c / dim2`. |
| ConvFeatures.GradientFeaturesUnnormalised | test/fht_operations_tests/conv_testing_functions.py:156-164 | The features of the gradient generator are those of `get_features` without a normalisation. |
| ConvFeatures.GradientColumns | test/fht_operations_tests/conv_testing_functions.py:147-168 | Every feature and gradient cell the loops write, scaled, is the closed form of its frequency. |
| ConvFeatures.GetFeaturesWithGradient | test/fht_operations_tests/conv_testing_functions.py:136-169 | `get_features_with_gradient` fails exactly when `num_freqs == 0`. Otherwise the feature columns hold the cosine and sine sums and the gradient columns the sums of `-sin(t) * z` and `cos(t) * z`, both scaled by `sqrt(1 / num_freqs)`. |
| ConvFeatures.WindowMaxIsMax | test/fht_operations_tests/conv_testing_functions.py:189 | The maximum over the valid windows bounds every window from above and is attained by one of them. |
| ConvFeatures.Clip | test/fht_operations_tests/conv_testing_functions.py:189 | `clip(min=0)` is non-negative, at least its input, and either the input or zero. |
| ConvFeatures.MaxPool | test/fht_operations_tests/conv_testing_functions.py:173-190 | `get_features_maxpool`: there is no result exactly when `num_rffs >= 1` and some sample has no valid window (with `num_rffs == 0` no repeat runs and the empty slice is never taken; otherwise numpy's `max` of an empty slice raises), and the error names such a sample; otherwise the result has `num_rffs` columns per sample. |
| ConvFeatures.MaxPoolEntry | test/fht_operations_tests/conv_testing_functions.py:185-190 | Every returned max-pool feature is non-negative, at least `s[q] * z` for every valid window, and equal to one of them or zero. |

## Left out

- The single-precision (`float`) twins of every C routine (`graphARDFloatGrad_`, `floatGraphARDGradCalcs` and the `float` template instances) are left out. The template instances run the same statements on `float`; `floatGraphARDGradCalcs` runs the same statements with `float` inputs (`inputX`, `precompWeights`) but `double` accumulators and outputs. The model uses exact reals.
- pthreads are not modelled. The threads run one after another in thread order. They write disjoint rows, so every interleaving leaves the same arrays.
- The leak of the argument array and the threads left unjoined when a thread creation fails are not modelled. Memory and thread resources are outside the model; only the returned status is.
- After an error status the arrays are left unspecified in `ArdEntry.GraphArdGrad`. The C code returns while threads may have done part of their work.
- `cos`, `sin` and `sqrt` are function parameters. Floating-point rounding is not modelled.
- The normalisation constant `1 / 2^(log2(c) / 2)` computed with `log2` and `pow` is replaced by a parameter `norm` with `norm * norm * c == 1` (`Diagonal.IsNormFor`). The floating-point error of that computation is not modelled.
- The random generator, the seeded sign draw and the chi-distributed draw are parameters (`coin`, `chiDraw`). Their distributions are not modelled.
- ConvReference.ReshapedX stops before the simplex projection (`conv_testing_functions.py` lines 76-94). That step involves square roots of the row length and floating-point-specific reformulation.
- ConvFeatures.GetFeatures also returns the unscaled matrix `raw`, which states the final scaling as `features == ScaleAll(raw, sqrt(1 / num_freqs))`.
- ConvFeatures.GetFeatures requires the normalisation divisor to be nonzero (`ScalingDefined`). With a cutpoint of 0 and a normalisation, numpy divides by zero and yields `inf`/`nan`, which exact reals cannot express.
- The GPU paths (`gpuConv1dFGen`, `gpuConvGrad`, the cupy transfers in `kernel_specific_set_device`) and `kernel_specific_set_hyperparams` are left out. The first are device dispatch; the second does nothing.
- The base-class constructor and the feature and gradient generators that `transform_x` and `kernel_specific_gradient` call (`cpuConv1dFGen`, `cpuConvGrad`) are not part of this model. The entry points are modelled up to the arguments they pass.
- `dim2 == 0` is excluded by `IsPow2` in `HadamardLoops.TransformRows`. The C routine assumes a power of two and does not check it.
- Diagonal.MultiplyByDiagonalRademacherMat2D, Diagonal.MultiplyByDiagonalRademacherMat, Diagonal.MultiplyByDiagonalRademAndCopy, Diagonal.Conv1dMultiplyByRadem and Diagonal.Conv1dRademAndCopy require `IsNormFor(norm, c)`, which no `norm` meets for a zero scaling width (`dim1`, `dim2` or `reshapedDim2`). The C loops then do nothing with a normalisation constant of `inf` that is never applied; that empty case is not modelled.
- ArdEntry.GraphArdGrad requires `numThreads >= 1`. No caller of `graphARDDoubleGrad_` is part of this model, so nothing here guarantees a positive count, and with a zero count the C code also divides by zero; ArdPlan.ChunkSizeAsWritten states when that division has no value. An empty batch is modelled as the corrected behaviour of the second row under "Findings": it starts no thread.
- ArdPlan.ClampThreads, ArdPlan.ChunkSize and ArdEntry.GraphArdGrad take a `nat` thread count. A negative `int` count is not modelled: the C code converts it to a huge `size_t` for `malloc` and declares arrays of negative length, which C leaves undefined.
- ArdPlan.ChunkSize, ArdPlan.ThreadRanges, ArdWorker, HadamardLoops.TransformRows and the Diagonal routines use unbounded integers for the C `int` offsets (`rowStride = dim1 * dim2`, `idx1 * rowStride`, `dim0 + numThreads - 1`, `(i + 1) * chunkSize`, `startRow * gradRowSize`, `startRow * numFreqs * 2` and the row offsets of the diagonal routines). 32-bit overflow of these sums and products is not modelled; the model is faithful while every offset fits in an `int`.
- Hadamard.SegmentIsWalsh and the other transform lemmas are stated for exact arithmetic. Overflow and rounding of `double` sums are not modelled.
- ArdWorker has no single combined closed form for a row after both passes. ArdWorker.ZeroEntryFirstPass states the first pass from zeroed rows and ArdWorker.SecondPassSlots states the second pass in terms of the first pass's values; together they give the closed form.

## Findings

| source | as written | input that shows it | evidently intended | confidence | as-written member | corrected member |
|---|---|---|---|---|---|---|
| xGPR/random_feature_generation/cpu_rf_gen/shared_fht_functions/hadamard_transforms.cpp:49-60 | The first butterfly loop runs before any test of `dim2`, so with `dim2 == 1` it pairs elements `(i, i + 1)` across segment boundaries. | `dim1 = 2`, `dim2 = 1`: row `[1, 0]` becomes `[1, 1]` | A length-1 transform is the identity, so the row should stay `[1, 0]`. | not executed | HadamardLoops.RowStagesAsWrittenDim2OneWrong, HadamardLoops.RowStagesAsWrittenDim2One | HadamardLoops.TransformRow, HadamardLoops.TransformRows |
| xGPR/random_feature_generation/cpu_rf_gen/shared_fht_functions/hadamard_transforms.cpp:49-58 | With `dim2 == 1` and an odd `dim1` the row length `dim1 * dim2` is odd, and the first loop's last pair `(rowStride - 1, rowStride)` reaches the first element of the next row, or past the end of the array on the last row. | `dim1 = 3`, `dim2 = 1`, array `[1, 0, 0, 5, 0, 0]`: on rows `[0, 1)` element 3 (row 1) becomes -5; on rows `[0, 2)` a write lands past the end | Each row is transformed in place and nothing outside the rows in range changes. | not executed | HadamardLoops.FirstLoopAsWritten, HadamardLoops.FirstLoopCrossesRows | HadamardLoops.TransformRows |
| xGPR/random_feature_generation/cpu_rf_gen/convolution_ops/ard_convolution.c:76-90 | With `dim0 == 0` the thread count is clamped to 0 and `chunkSize = (dim0 + numThreads - 1) / numThreads` divides by zero. The division is reached when `malloc(0)` returns a non-null pointer; when it returns `NULL` the entry point reports the allocation error first. | `dim0 = 0`, `numThreads = 4` | An empty batch starts no thread and reports success. | not executed | ArdPlan.ChunkSizeAsWritten, ArdPlan.EmptyBatchDividesByZero | ArdPlan.ChunkSize, ArdEntry.GraphArdGrad |
