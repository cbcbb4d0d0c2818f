# Batched QR operator: shapes, layout and dispatch

A Dafny model of the non-numerical core of TensorFlow's QR decomposition
kernels (`tensorflow/core/kernels/qr_op_impl.h`). The model covers:

- the host kernel `QrOp`: its output-shape law, its cost hint, and the
  structural part of `ComputeMatrix`. That part is the upper-triangular view,
  the crop to the top `min(m, n)` rows of the packed factor, and the product
  with `Identity(m, min(m, n))`;
- the accelerator kernel `QrOpGpu::ComputeAsync`. This covers the output and
  scratch shapes, the axis permutation and the transposes it drives, and the
  per-matrix data path from Geqrf through Orgqr. It also covers the control
  flow that decides between InvalidArgument, the empty-input early success,
  Unimplemented, a collaborator failure and the asynchronous status check.
  The completion callback `done` is invoked exactly once on every path.

The Householder factorization is computed by external libraries (Eigen on the
host, cuSolver on the accelerator). Here it is an input: a `Factorization`
holds the packed factor `matrixQR()` (m x n) and the accumulated product
`householderQ()` (m x m). Orgqr is taken to leave the first n columns of that
product. Both kernels are handed the same `Factorization`, so the
comparison is between the kernels' layouts and crops, not between the two
libraries. With that, the model proves two things. First, the accelerator
path's R equals the host path's R for every factorization. Second, wherever
the accelerator produces Q at all, it produces the host's Q.

Files and modules:

| file | module | contents |
|---|---|---|
| shapes.dfy | `Shapes` | shapes, element counts, host and accelerator output shapes, scratch shapes |
| permutation.dfy | `Permutation` | `perm`, gather/scatter of indices, tensor transpose over an abstract element type |
| matrices.dfy | `Matrices` | matrix transpose, upper view, band part, top-rows crop, identity extension |
| host_qr.dfy | `HostQr` | `QrOp::ComputeMatrix` |
| gpu_qr.dfy | `GpuQr` | the accelerator's per-matrix data path and its agreement with the host |
| gpu_dispatch.dfy | `GpuDispatch` | `ComputeAsync` control flow as a trace of calls and completions |
| cost.dfy | `Cost` | `GetCostPerUnit` over exact reals |

Two facts about the code shape the dispatch model:

- Unimplemented is reported only after the transpose into column-major
  layout, Geqrf on every matrix, the R extraction and the band part have been
  enqueued: the Q-branch test is at line 241. `GpuDispatch.ComputeAsync`
  records that trace.
- The host kernel leaves the rank check to `ValidateSingleMatrix` (line 62).
  The accelerator kernel reports InvalidArgument for rank < 2, but only after
  reading the extents (see Findings).

The dispatch model states each invocation against a reference semantics.
`GpuDispatch.Enqueued` lists the calls a rank >= 2 input makes when none of
them fails. `GpuDispatch.Run` enqueues such calls one by one, each under
OP_REQUIRES_OK_ASYNC, and stops at the first checked call that fails. If none
fails, it then invokes `done` with the final status (`GpuDispatch.Completion`).
`GpuDispatch.RunSpec` states `Run` in terms of the calls themselves, and
`GpuDispatch.ComputeAsync` proves that the invocation is exactly that run.

## Model

| member | source | states |
|---|---|---|
| Shapes.HostOutputShapes | tensorflow/core/kernels/qr_op_impl.h:65-76 | Q has m rows and R has n columns. Q's column count equals R's row count. Full mode gives m; reduced mode gives min(m, n) |
| Shapes.HostShapeExamples | tensorflow/core/kernels/qr_op_impl.h:65-76 | 5x3 reduced gives Q 5x3, R 3x3. 5x3 full gives Q 5x5, R 5x3. 3x5 reduced gives Q 3x3, R 3x5 |
| Shapes.GpuShapesAgreeWithHost | tensorflow/core/kernels/qr_op_impl.h:149-161 | The accelerator's Q and R shapes keep every batch axis. Their trailing two axes are the host's shapes |
| Shapes.TransposedShape | tensorflow/core/kernels/qr_op_impl.h:169-172 | The scratch shape keeps the batch axes and swaps the two matrix extents |
| Shapes.TauShape | tensorflow/core/kernels/qr_op_impl.h:179-184 | tau holds one row per matrix of the batch. Each row has min(m, n) entries |
| Shapes.NumElementsBatched | tensorflow/core/kernels/qr_op_impl.h:163-166 | Element count = batch size * m * n. So the input is empty iff the batch is empty or m or n is zero |
| Shapes.TransposedShapeSameSize | tensorflow/core/kernels/qr_op_impl.h:169-177 | The transposed scratch buffer has as many elements as the input |
| Permutation.TransposePermInvolution | tensorflow/core/kernels/qr_op_impl.h:188-190 | perm is the identity on the batch axes and swaps the last two axes. Composed with itself it is the identity |
| Permutation.GatherScatterSwap | tensorflow/core/kernels/qr_op_impl.h:188-193 | Permuting any index or shape with perm, either way, swaps its last two entries |
| Permutation.GatherScatter | tensorflow/core/kernels/qr_op_impl.h:192-193 | For any permutation, the transpose reads output index o from a source index that the permutation maps back to o |
| Permutation.TransposeSwapsMatrixAxes | tensorflow/core/kernels/qr_op_impl.h:186-193 | Transposing with perm gives the scratch shape. The element at o is the source element at o with its last two coordinates swapped |
| Permutation.TransposeTwice | tensorflow/core/kernels/qr_op_impl.h:186-193 | Transposing twice with perm restores the shape and every element |
| Matrices.TransposeTwiceM | tensorflow/core/kernels/qr_op_impl.h:212-217 | Transposing a matrix twice gives it back |
| Matrices.UpperViewSpec | tensorflow/core/kernels/qr_op_impl.h:105 | The upper view zeroes every entry strictly below the diagonal and keeps all other entries |
| Matrices.UpperViewFixedPoints | tensorflow/core/kernels/qr_op_impl.h:113 | The upper view leaves a matrix unchanged iff the matrix is upper triangular. The view is idempotent |
| Matrices.BandPartUpperIsUpperView | tensorflow/core/kernels/qr_op_impl.h:232-238 | The band part with 0 lower and -1 upper diagonals equals Eigen's upper triangular view |
| Matrices.IdentityExtensionSelectsColumns | tensorflow/core/kernels/qr_op_impl.h:110-111 | An m x m matrix times Identity(m, k) is exactly its first k columns |
| HostQr.ComputeMatrix | tensorflow/core/kernels/qr_op_impl.h:96-115 | The outputs have the announced shapes and R is upper triangular. R matches the packed factor on and above the diagonal. Q holds the leading columns of the Householder product |
| HostQr.ReducedIsCropOfFull | tensorflow/core/kernels/qr_op_impl.h:103-114 | Reduced Q is the first min(m, n) columns of full Q. Reduced R is the top min(m, n) rows of full R |
| HostQr.ProductIsWellShaped | tensorflow/core/kernels/qr_op_impl.h:65-76 | In both modes Q's columns match R's rows, so Q R is defined and is m x n |
| GpuQr.QSupportedCases | tensorflow/core/kernels/qr_op_impl.h:241 | Q is generated iff m == n, or the mode is reduced and m > n. So 4 x 6 is unsupported in both modes, and 6 x 4 reduced is supported |
| GpuQr.BatchTransposeIsMatrixTranspose | tensorflow/core/kernels/qr_op_impl.h:186-202 | Transposing a (batch, rows, cols) tensor with perm transposes each matrix of the batch on its own |
| GpuQr.ExtractR | tensorflow/core/kernels/qr_op_impl.h:212-238 | The accelerator's R is upper triangular |
| GpuQr.ExpandQ | tensorflow/core/kernels/qr_op_impl.h:240-281 | A Q exists iff the shape and mode are supported |
| GpuQr.GpuRMatchesHost | tensorflow/core/kernels/qr_op_impl.h:212-238 | Both R branches (whole-buffer transpose; Geam crop) followed by the band part give the host kernel's R |
| GpuQr.GpuMatchesHost | tensorflow/core/kernels/qr_op_impl.h:267-281 | In every supported case, Orgqr and the transpose back give the host kernel's Q and R |
| GpuQr.ComputeBatch | tensorflow/core/kernels/qr_op_impl.h:163-281 | Succeeds iff the input has no elements or Q is supported. On success every output has the announced shape and every R is the host's R. Every Q is the host's Q, except the never-written m x m Q of an m x 0 input in full mode |
| GpuDispatch.TransposeDestinationsFit | tensorflow/core/kernels/qr_op_impl.h:215-281 | Each enqueued transpose fits its destination. The buffer fits R in full mode or when square. It fits Q iff Q is supported |
| GpuDispatch.RankCheckComesTooLate | tensorflow/core/kernels/qr_op_impl.h:136-147 | As written, every input the rank check rejects has already had an axis outside its shape read |
| GpuDispatch.ComputeAsync | tensorflow/core/kernels/qr_op_impl.h:134-298 | Rank < 2 gives InvalidArgument alone. Otherwise the trace is the run of the Enqueued calls: all of them and then done with the final status when none fails, otherwise the calls before the first failing one and then done with that failure. done runs exactly once, last. More below the table |
| GpuDispatch.Attempt | tensorflow/core/kernels/qr_op_impl.h:173-177 | The invocation completes iff the call fails. A successful call is recorded; a failing one is replaced by done with its failure |
| GpuDispatch.EnqueuePerBatch | tensorflow/core/kernels/qr_op_impl.h:203-210 | Completes iff some matrix's call fails. Then the trace is the calls for the matrices before the first failing matrix b, followed by done with the failure of b. Otherwise every call is made in batch order |
| GpuDispatch.EnqueueFactorization | tensorflow/core/kernels/qr_op_impl.h:168-238 | The trace is the run of the scratch, transpose, Geqrf, R and band-part calls, stopped at the first that fails. It completes iff one of them fails |
| GpuDispatch.EnqueueQ | tensorflow/core/kernels/qr_op_impl.h:267-297 | The trace is the run of the Orgqr calls, the transpose to Q and the async info copy, stopped at the first that fails. It completes iff one of them fails |
| GpuDispatch.CallsSucceededMeans | tensorflow/core/kernels/qr_op_impl.h:155-161 | A trace's calls all succeeded iff no checked call in it returned an error |
| GpuDispatch.CutConcat | tensorflow/core/kernels/qr_op_impl.h:173-193 | Running one sequence of checked calls after another runs the second only when every call of the first succeeded |
| GpuDispatch.CutSpec | tensorflow/core/kernels/qr_op_impl.h:173-193 | With every call succeeding all calls are recorded. Otherwise the run is the calls before the first failing one, then done with its failure |
| GpuDispatch.RunSpec | tensorflow/core/kernels/qr_op_impl.h:155-166 | A run followed by done: all calls then done with the final status, or the calls before the first failure then done with it. Either way done runs exactly once, last, with the final status or a checked call's failure |
| GpuDispatch.RunAfter | tensorflow/core/kernels/qr_op_impl.h:155-166 | After calls that all succeed, the rest of the invocation runs as it would on its own |
| GpuDispatch.StopsAtFaultUnique | tensorflow/core/kernels/qr_op_impl.h:173-193 | The failure a run stops at is determined by the calls: two such runs are equal |
| GpuDispatch.RunOutcome | tensorflow/core/kernels/qr_op_impl.h:134-298 | For a rank >= 2 input: done runs once, and only with a checked call's failure, Unimplemented (non-empty, unsupported), Ok (empty or supported) or a solver failure (non-zero info). Device work only for non-empty inputs |
| GpuDispatch.ComputeChecked | tensorflow/core/kernels/qr_op_impl.h:151-298 | Past the rank guard, the trace is the run of the Enqueued calls followed by done with the final status |
| GpuDispatch.AllocateOutputs | tensorflow/core/kernels/qr_op_impl.h:151-161 | The trace is the run of the two output allocations. It completes iff one of them fails |
| GpuDispatch.EnqueueAndComplete | tensorflow/core/kernels/qr_op_impl.h:168-298 | For a non-empty input, the trace is the run of the factorization and Q stages. done reports Unimplemented, or Ok, or a solver failure from the info codes |
| GpuDispatch.EnqueueScratch | tensorflow/core/kernels/qr_op_impl.h:168-193 | The trace is the run of the two temporary allocations and the transpose. It completes iff one of them fails |
| GpuDispatch.EnqueueR | tensorflow/core/kernels/qr_op_impl.h:212-238 | The trace is the run of the R branch and the band part. The band part reports no status, so only the branch can fail |
| Cost.GetCostPerUnit | tensorflow/core/kernels/qr_op_impl.h:78-89 | The result lies in [0, kint64max]. It is kint64max iff the flop count reaches it; otherwise it is the flop count rounded down |
| Cost.CostSymmetric | tensorflow/core/kernels/qr_op_impl.h:79-84 | The estimate and the returned value are symmetric in m and n |
| Cost.CostLowerBound | tensorflow/core/kernels/qr_op_impl.h:81-84 | The estimate is at least (4/3) min(m,n)^3, so it is non-negative |
| Cost.CostMonotone | tensorflow/core/kernels/qr_op_impl.h:78-89 | The estimate and the returned value never decrease as either extent grows |
| Cost.CostSquareVersusTall | tensorflow/core/kernels/qr_op_impl.h:83-84 | For n > 0: an n x n input costs (4/3) n^3, less than the (10/3) n^3 of a 2n x n input |
| Cost.CostLargerSquare | tensorflow/core/kernels/qr_op_impl.h:83-84 | 100 x 100 is estimated costlier than 10 x 10 |

The other outcomes of `GpuDispatch.ComputeAsync`, stated by `GpuDispatch.RunOutcome` about the same run:

- An error names a checked call the environment failed, and no recorded call failed.
- Device work only happens for non-empty inputs.
- Unimplemented means a non-empty input with m != n and (full or m < n).
- Ok means the input was empty or Q is supported.
- `Enqueued` has three shapes. For an empty input it is the two allocations.
  In the unsupported case it runs up to the band part. In the supported case
  it adds the Q stage. Only calls this input makes can fail the run.

## Left out

- The Householder numerics of Eigen's `HouseholderQR`/`householderQ()` and of cuSolver's Geqrf, Orgqr and Geam. They are floating-point computations in foreign libraries. The model takes their results as a `Factorization` input. Orthogonality of Q and Q R approximately equal to A are not stated.
- Element types float, double, complex64 and complex128. Matrices hold integers, which is enough for the masks, crops, transposes and the identity product.
- Cost.GetCostPerUnit: computes the flop count in exact reals rather than in double precision, so double rounding before the clamp and the truncating cast is not modelled.
- Device execution and stream ordering of DoTranspose, the band-part functor and the solver calls. The trace records the order in which work is enqueued, not when it runs.
- The host callback of `CopyLapackInfoToHostAsync` is modelled as running once, after enqueuing ends. When that call itself returns an error, the callback is taken never to run. The callback's contract is in `cuda_solvers.h`, which is not part of this model.
- The band-part functor's rule follows TensorFlow's documented in-band test. `matrix_band_part_op.h` is not part of this model.
- `TensorReference` reference counting and the `Unref` calls in the callback. They are resource management tied to the asynchronous callback.
- The `tau` and `dev_info` contents. Only tau's shape is modelled; the Householder coefficients are folded into the `Factorization`.
- Op registration, `GetAttr("full_matrices")`, `allocate_output`/`allocate_temp` beyond their success or failure, and the `LinearAlgebraOp` base class. The base class does input validation (`ValidateSingleMatrix`) and per-matrix dispatch on the host. These are framework collaborators.
- Integer widths. Shape extents, element counts and batch sizes are unbounded naturals. The model leaves out three things: int64 overflow of element counts and extents, the host's 32-bit `const int m, n, min_size` (lines 99-101) narrowed from the matrix map's extents, and the 32-bit `int batch` loop counters (lines 203, 222, 271, 257) compared against the int64 `batch_size`.
- The host and accelerator libraries are taken to factor identically. Both kernels are handed the same `Factorization`, so GpuQr.GpuRMatchesHost and GpuQr.GpuMatchesHost compare the kernels' layouts and crops. They do not compare Eigen's and cuSolver's results.
- GpuQr.ComputeBatch: for an m x 0 input with m > 0 in full mode, the kernel allocates an m x m Q and completes without writing it. The model fills it with zeros and promises nothing about its contents.
- Status messages. A status records its kind and, for a collaborator failure, which call failed.
- The commented-out Ormqr/EyeFunctor branch (lines 248-266). It is dead code.
- `tensorflow/contrib/lite/examples/opencv_input_inference/opencv_input_inference.cc`. It is command-line, file and image I/O glue with no algorithmic content.

## Findings

| source | as written | input that shows it | evidently intended | confidence | as-written member | corrected member |
|---|---|---|---|---|---|---|
| tensorflow/core/kernels/qr_op_impl.h:136-147 | `dim_size(ndims - 2)` and `dim_size(ndims - 1)` are read before the `ndims >= 2` check | an input of shape `[7]` (rank 1): axis -1 is read before InvalidArgument is reported | check the rank before reading any extent | medium, not executed | GpuDispatch.RankCheckComesTooLate | GpuDispatch.ComputeAsync |
