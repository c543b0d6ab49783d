# SYCL-DNN: algorithm selection, matmul launch and memory views, in Dafny

This project models six pieces of SYCL-DNN and proves properties about each.

- **Tiled convolution selector.** `TiledSelector::select` picks `Tiled` only for a square window with a square stride whose (window, stride) pair is (1,1), (1,2), (3,1), (3,2) or (5,1). Every other parameter set gets `NotSupported`.
- **Matmul launcher.** `launch` fixes the tile shape to 4 x 4 x 4. `launch_with_tiles` picks the kernel without bounds checks exactly when m, k and n are multiples of their tiles; otherwise it picks the bounds-checked kernel. It returns that kernel's status unchanged.
- **Matmul queueing.** `queue_kernel` sizes the launch grid:
  - ceil(m / RowTile) and ceil(n / ColTile) work-items, each rounded up to a multiple of 8;
  - one work-item per batch.

  It builds the functor from the accessors' offsets, runs it over the grid and returns OK.
- **Matmul functor.** Work-item (id0, id1, id2) of `MatmulKernel::operator()` computes one output tile of batch id2, with its corner at row id0 * RowTile and column id1 * ColTile:
  - it starts the tile at zero, or at `beta` times the current output tile when `beta != 0`;
  - it adds the products of lhs and rhs tiles, AccTile columns of k at a time, transposing on load when asked;
  - it stores the tile.

  This part is imperative. The output is an `array<int>`. The tile seeding, the k-loop and the store are methods; the k-loop and the store carry loop invariants. `parallel_for` is three nested loops over the grid.
- **Memory views.** A `MemObject` has a buffer, an extent and an offset, with the invariant `extent + offset <= count`. `make_mem_object` checks the invariant; `as_const` and `cast` preserve it. The accessors expose the same range; the writing accessors exist only for non-`const` element types. The getters `get_buffer`, `get_extent` and `get_offset` are the datatype's fields `buffer`, `extent` and `offset`.
- **Im2col filter-transform dispatch.** For forward and filter-backprop convolutions, the transform is an empty host task that depends on the incoming events and returns OK. For input-backprop, it builds a read-only view of the original filter and a writable view of the scratch filter, each `window_rows * window_cols * channels * features` elements long. It hands both views to the mirroring launcher and returns the launcher's result.

The main theorem is `MatmulLaunch.Launch`. After the launch over the grid `GridRange` computes, element (r, c) of output matrix b equals `beta * old + sum_p op(lhs)[r][p] * op(rhs)[p][c]`, where `op` reads the matrix transposed when its flag is set. Every other element of the output buffer is unchanged. This holds for both kernel variants.

The proof goes in four steps:
1. `ApplyItem` is proved against the per-item specification `ItemUpdate`.
2. `RunGrid` runs the grid one item at a time, in row-major order of the grid. It is proved against `MatmulResult` for any covering grid, using `Partial` as its loop invariant. A grid is covering (`Covers`) when its rows and columns of tiles cover m and n and its batch extent is exactly `batches`; `GridRange` is one.
3. `AnyOrderGivesResult` shows that the order chosen does not matter: running every grid point once, in any order (`ApplyAll`), also gives `MatmulResult`. `ItemsCommute` states the two-item case.
4. `MatmulResultAt` states the result cell by cell.

Modules, one per file: `Arith` (products, division and row-major indices), `Ratio`, `Runtime`, `Conv2D`, `TiledSelector`, `MemObjects`, `FilterTransform`, `MatmulBlocks`, `MatmulKernels`, `MatmulQueue`, `MatmulLaunch`.

## Model

| member | source | states |
|---|---|---|
| TiledSelector.Select | include/sycldnn/conv2d/selector/tiled_selector.h:43-64 | the result is always Tiled or NotSupported, and it is Tiled if and only if window and stride are both square and (window, stride) is one of the five allowed pairs |
| TiledSelector.NonSquareRejected | include/sycldnn/conv2d/selector/tiled_selector.h:44-47 | a non-square window or a non-square stride gives NotSupported, whatever the other fields hold |
| TiledSelector.UnlistedSquareRejected | include/sycldnn/conv2d/selector/tiled_selector.h:63 | every square shape whose (window, stride) pair is not on the allow-list gives NotSupported |
| TiledSelector.SelectReadsOnlyWindowAndStride | include/sycldnn/conv2d/selector/tiled_selector.h:43-64 | two parameter sets that agree on window and stride get the same answer; batch, channels, features and padding do not matter |
| MatmulLaunch.ExactVariantInBounds | src/matmul/launch.cc:36-37 | when m, k and n are multiples of their tiles, a work-item that passes the guard `row < m && col < n` has `row + RowTile <= m` and `col + ColTile <= n`, and every k-step `acc < k` has `acc + AccTile <= k` |
| MatmulLaunch.LaunchFunctor | src/matmul/launch.cc:38-42 | the functor a launch builds takes its offsets from the three memory objects, and passes on the sizes, beta, transpose flags and tiles unchanged |
| MatmulLaunch.LaunchWithTiles | src/matmul/launch.cc:29-43 | exactly one kernel variant is queued: the bounds-checked one if and only if some dimension is not a multiple of its tile. Its status (grid, variant, no dependencies, OK) is returned unchanged, and the output becomes the matmul result |
| MatmulLaunch.Launch | src/matmul/launch.cc:48-54 | `launch_with_tiles` with RowTile = AccTile = ColTile = 4, for any pair of transpose flags |
| Ratio.RoundRatioUp | src/matmul/queue_kernel_impl.h:40-41 | `x <= r * y < x + y`: the ceiling of x / y |
| Ratio.RoundRatioUpIsLeast | src/matmul/queue_kernel_impl.h:40-41 | no smaller quotient reaches x |
| Ratio.RoundUpToNearestMultiple | src/matmul/queue_kernel_impl.h:42-45 | the result is a multiple of `multiple`, and `x <= r < x + multiple` |
| Ratio.RoundUpIsLeast | src/matmul/queue_kernel_impl.h:42-45 | every multiple at or above x is at least the result |
| MatmulQueue.GridRange | src/matmul/queue_kernel_impl.h:38-46 | the row and column thread counts are multiples of 8 and cover m and n (`d0 * RowTile >= m`, `d1 * ColTile >= n`); the batch thread count equals `batches` |
| MatmulQueue.GridMinimal | src/matmul/queue_kernel_impl.h:42-45 | each thread count is the smallest multiple of 8 whose tiles cover its dimension |
| MatmulQueue.GridCoversOutput | src/matmul/queue_kernel_impl.h:40-46 | every output element (b, r, c) lies in the tile of some work-item (id0, id1) of the grid |
| MatmulQueue.OwnerInGrid | src/matmul/kernels.h:47-49 | on a covering grid, the work-item owning any output element has an id inside the grid |
| MatmulQueue.FunctorFor | src/matmul/queue_kernel_impl.h:53-58 | the functor's lhs, rhs and output offsets are the accessors' offsets; the other arguments are passed unchanged |
| MatmulQueue.RunGrid | src/matmul/queue_kernel_impl.h:60-62 | on a grid whose tiles cover m and n and whose batch extent is exactly `batches`, running every work-item turns the output into `MatmulResult` of its old contents |
| MatmulQueue.QueueKernel | src/matmul/queue_kernel_impl.h:31-65 | it returns the event of a kernel over `GridRange`, with no dependencies and status OK; the output becomes `MatmulResult`, computed with the accessors' offsets |
| MatmulQueue.PartialStart | src/matmul/queue_kernel_impl.h:60-62 | before any work-item runs, the output is unchanged |
| MatmulQueue.BatchesDone | src/matmul/queue_kernel_impl.h:60-62 | on a covering grid, finishing all batches of one (row, column) grid point is the same as starting the next column |
| MatmulQueue.ColumnsDone | src/matmul/queue_kernel_impl.h:60-62 | on a covering grid, finishing all columns of one grid row is the same as starting the next row |
| MatmulQueue.RowsDone | src/matmul/queue_kernel_impl.h:60-62 | on a covering grid, once every grid row has run the output is `MatmulResult` |
| MatmulKernels.GridStep | src/matmul/queue_kernel_impl.h:60-62 | running the next work-item in grid order after all earlier ones extends `Partial` by exactly that item |
| MatmulKernels.ApplyAllAt | src/matmul/queue_kernel_impl.h:60-62 | after distinct work-items run in any order, an output element owned by one of them is `beta * original + dot product`, and every other element keeps its original value |
| MatmulQueue.AnyOrderGivesResult | src/matmul/queue_kernel_impl.h:60-62 | on a grid whose tiles cover m and n and whose batch extent is exactly `batches`, running every grid point exactly once, in any order, turns the output into `MatmulResult` |
| MatmulKernels.ItemsCommute | src/matmul/kernels.h:47-75 | distinct work-items own disjoint output elements and read only their own, so running two of them in either order gives the same output |
| MatmulKernels.ApplyItem | src/matmul/kernels.h:46-77 | one work-item turns the output into `ItemUpdate`: each element of its tile inside the matrix becomes `beta * old + dot product`, and nothing else changes |
| MatmulKernels.NoOwnedCells | src/matmul/kernels.h:51 | a work-item with `row >= m` or `col >= n` leaves the output completely unchanged |
| MatmulKernels.MatmulKernel.BaseFits | src/matmul/kernels.h:52-54 | for each batch b < batches, the matrix starting at `b*m*k + lhs_offset`, `b*k*n + rhs_offset` or `b*m*n + out_offset` lies inside its buffer |
| MatmulKernels.MatmulKernel.Cell | src/matmul/kernels.h:54 | every element of the output matrices decodes to a batch, row and column in range, which maps back to the same position |
| MatmulKernels.MatmulKernel.CellOfOutIdx | src/matmul/kernels.h:54 | decoding the position of (b, r, c) gives back (b, r, c), so distinct cells have distinct positions |
| MatmulKernels.MatmulKernel.InBatch | src/matmul/kernels.h:54 | every position inside output matrix b decodes to batch b |
| MatmulKernels.SeedTile | src/matmul/kernels.h:56-66 | the tile starts as `beta` times the untransposed output tile (zero when `beta == 0`) on every in-range cell; `BetaZeroIgnoresOutput` states that the old output then does not matter |
| MatmulKernels.SeedAccumulated | src/matmul/kernels.h:56-66 | a zero tile, or `beta` times the loaded output tile, holds `beta * out` plus the empty dot product on every in-range cell |
| MatmulKernels.BetaZeroIgnoresOutput | src/matmul/kernels.h:57 | when `beta == 0`, the value a work-item writes does not depend on the old output |
| MatmulKernels.AccumulateTile | src/matmul/kernels.h:68-74 | the loop over `acc_idx = 0, AccTile, ...` while `acc_idx < k` adds every k index exactly once: every in-range cell ends as `beta * out + sum over p < k` |
| MatmulKernels.AccumulateStep | src/matmul/kernels.h:69-73 | one pass of the loop body (two tile loads and a multiply-accumulate) advances the partial sums from `acc` to `acc + AccTile` terms |
| MatmulKernels.KStep | src/matmul/kernels.h:73 | adding the product of the loaded tiles to a tile holding `acc` terms gives `min(acc + AccTile, k)` terms on every in-range cell |
| MatmulKernels.CellStep | src/matmul/kernels.h:73 | the same step, for one cell |
| MatmulKernels.AccStep | src/matmul/kernels.h:69-73 | the first `len` terms of a tile product equal the dot-product terms `acc .. min(acc + len, k)`, because the loaded tiles are zero past k |
| MatmulKernels.StoreGivesItem | src/matmul/kernels.h:75 | storing the fully accumulated tile gives exactly `ItemUpdate` |
| MatmulKernels.ExactTileInBounds | src/matmul/kernels.h:47-51 | if d is a multiple of T and tile t starts inside d, then the tile ends inside d |
| MatmulKernels.MatmulResultAt | src/matmul/kernels.h:56-75 | after the whole launch, element (r, c) of output matrix b is `beta * old + sum_p op(lhs)[r][p] * op(rhs)[p][c]` |
| MatmulBlocks.Load | src/matmul/kernels.h:63-64 | the tile at (row, col) of the logical matrix, read transposed when asked; zero outside the matrix |
| MatmulBlocks.Scale | src/matmul/kernels.h:65 | every tile element is multiplied by the scalar |
| MatmulBlocks.ZeroBlock | src/matmul/kernels.h:56 | a fresh tile is all zeros |
| MatmulBlocks.MmAcc | src/matmul/kernels.h:73 | the accumulator plus the tile product, element by element |
| MatmulBlocks.StoreBlock | src/matmul/kernels.h:75 | every in-matrix cell of the tile is written with the tile's value; every other element of the buffer keeps its value |
| MemObjects.MakeMemObject | include/sycldnn/mem_object.h:66-72 | a buffer holding at least `extent + offset` elements gives a view storing exactly those three values, which satisfies the invariant |
| MemObjects.RawConstructorUnchecked | include/sycldnn/mem_object.h:99-100 | the raw constructor accepts a view past the end of its buffer; only the factory enforces the invariant |
| MemObjects.MemObject.GetCount | include/sycldnn/mem_object.h:162 | the element count of the underlying buffer |
| MemObjects.MemObject.ReadAccessor | include/sycldnn/mem_object.h:108-110 | a read accessor on the same buffer, extent and offset; inside the buffer for a valid view |
| MemObjects.MemObject.ReadWriteAccessor | include/sycldnn/mem_object.h:118-123 | the same range, read-write; only for a non-`const` element type |
| MemObjects.MemObject.WriteAccessor | include/sycldnn/mem_object.h:131-136 | the same range, write-only; only for a non-`const` element type |
| MemObjects.AccessorsAgree | include/sycldnn/mem_object.h:108-136 | the three accessors of a view differ only in their mode |
| MemObjects.MemObject.AsConst | include/sycldnn/mem_object.h:168-171 | the same allocation, count, extent and offset, with a `const` element type; the invariant is preserved |
| MemObjects.MemObject.Cast | include/sycldnn/mem_object.h:177-183 | allowed only for an element type of the same size; it keeps the allocation, extent and offset, and re-establishes the invariant through the factory |
| FilterTransform.GetMemObjectInternal | include/sycldnn/internal/conv2d/im2col/launch_filter_transform.h:84-88 | a valid view of `size` elements at the pointer |
| FilterTransform.FilterViews | include/sycldnn/internal/conv2d/im2col/launch_filter_transform.h:82-88 | the source view is on the original filter and is read-only; the destination view is on the scratch filter and is writable. Both are exactly `window_rows * window_cols * channels * features` elements, at the pointers' offsets |
| FilterTransform.LaunchFilterTransform | include/sycldnn/internal/conv2d/im2col/launch_filter_transform.h:53-93 | forward and filter-backprop return an empty host task that depends on all the incoming events, with status OK; input-backprop returns exactly the mirroring launcher's result on the two views and the events |
| FilterTransform.NoOpIgnoresFilters | include/sycldnn/internal/conv2d/im2col/launch_filter_transform.h:57-66 | for forward and filter-backprop, the result does not depend on either filter pointer or on the mirroring launcher |

## Left out

- Element types are mathematical integers, not `float`, `double` or `half`. The sums are exact, so no claim is made about floating-point results.
- Dimensions, offsets and counts are naturals. `Index = int` overflow in products such as `batch * m * k`, and negative sizes, are not modelled.
- `src/matmul/blocks.h` is not part of this model. `MatmulBlocks.Load`, `Scale`, `MmAcc`, `ZeroBlock` and `StoreBlock` are given the contracts their names and call sites imply. These are assumptions:
  - the bounds-checked load reads zero outside the matrix;
  - the bounds-checked store skips cells outside the matrix;
  - the unchecked forms require the whole tile to be inside.
- `sycldnn/helpers/ratio.h` is not part of this model. `Ratio.RoundRatioUp` and `Ratio.RoundUpToNearestMultiple` are given the ceiling-division and round-up meanings their names imply.
- The two files come from different revisions:
  - `launch.cc` calls `queue_kernel` with a bounds-check template flag and with memory objects;
  - the `queue_kernel` shown takes accessors and no flag;
  - `MatmulKernel` has no flag at all.

  In this model the flag is a parameter of `QueueKernel` and `ApplyItem`, and `LaunchWithTiles` builds the accessors from the memory objects.
- The work-group sizes 8, 4, 1 that `launch` passes are not modelled. The grid shown computes its sizes without them.
- Device submission is not modelled: the queue, the command-group handler, `require`, the `depends_on` wait and asynchrony. An event is a record of its task and its dependencies. `parallel_for` is a sequential loop over the grid.
- The output buffer is assumed to be a different buffer from both inputs. Aliasing between them is not modelled.
- FilterTransform.GetMemObjectInternal: the backend's `_get_mem_object_internal` and its pointer types are not part of this model. `DevicePointer` (an allocation plus an offset), `FullPointerSet.WellTyped` (the original filter is `const`, the scratch filter is not) and `GetMemObjectInternal` (a valid view of `size` elements at the pointer, built with `MakeMemObject`) are assumptions about that backend. `FiltersAllocated` requires the caller to have allocated both filter buffers with room for a whole filter at their pointers; the library does not check this.
- The filter-mirroring kernel is only declared in these files. It is a function parameter (`MirrorLauncher`), and its element-by-element effect is not specified.
- `MatmulQueue.QueueKernel` and `MatmulKernels.ApplyItem` require that, without bounds checks, every dimension is a multiple of its tile. `launch_with_tiles` only picks that variant under this condition; the kernel itself does not check it.
- All operand matrices must lie inside their buffers. This is a precondition (`InputsFit`, `OutputFits`, `OperandsFit`). The library does not check it.
