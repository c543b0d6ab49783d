/**
 * The matmul launcher: `launch` fixes the tile shape to 4 x 4 x 4, and
 * `launch_with_tiles` picks the kernel without bounds checks exactly when
 * every dimension is a multiple of its tile, otherwise the bounds-checked
 * kernel, and returns that kernel's status unchanged. Both transpose flags are
 * plain parameters, so all four combinations the library instantiates are
 * covered.
 */
module MatmulLaunch {
  import opened Arith
  import opened Runtime
  import opened MemObjects
  import opened MatmulKernels
  import opened MatmulQueue

  /** `MatmulParams`: the batch count, the problem sizes and `beta`. */
  datatype MatmulParams = MatmulParams(batches: nat, m: nat, k: nat, n: nat, beta: int)

  /**
   * On the path without bounds checks, a work-item that passes the kernel's
   * guard `row < m && col < n` has its whole output tile inside the matrix,
   * and every step `acc_idx = steps * AccTile < k` of the k-loop reads a
   * whole AccTile slice inside k.
   */
  lemma ExactVariantInBounds(params: MatmulParams, rowTile: nat, accTile: nat, colTile: nat,
                             id0: nat, id1: nat, steps: nat)
    requires rowTile > 0 && accTile > 0 && colTile > 0
    requires DimsDivide(params.m, params.k, params.n, rowTile, accTile, colTile)
    requires id0 * rowTile < params.m && id1 * colTile < params.n && steps * accTile < params.k
    ensures id0 * rowTile + rowTile <= params.m
    ensures id1 * colTile + colTile <= params.n
    ensures steps * accTile + accTile <= params.k
  {
    ExactTileInBounds(params.m, rowTile, id0);
    ExactTileInBounds(params.n, colTile, id1);
    ExactTileInBounds(params.k, accTile, steps);
  }

  /** Each memory object's view holds all `batches` matrices of its operand, and its buffer's contents are given. */
  predicate OperandsFit(lhsMem: MemObject, rhsMem: MemObject, outMem: MemObject,
                        lhsLen: nat, rhsLen: nat, outLen: nat, params: MatmulParams)
  {
    && lhsMem.Valid() && rhsMem.Valid() && outMem.Valid()
    && lhsLen == lhsMem.buffer.count && rhsLen == rhsMem.buffer.count && outLen == outMem.buffer.count
    && params.batches * (params.m * params.k) <= lhsMem.extent
    && params.batches * (params.k * params.n) <= rhsMem.extent
    && params.batches * (params.m * params.n) <= outMem.extent
  }

  /** The functor a launch on these memory objects builds. */
  function LaunchFunctor(lhsMem: MemObject, rhsMem: MemObject, outMem: MemObject, params: MatmulParams,
                         transposeLhs: bool, transposeRhs: bool,
                         rowTile: nat, accTile: nat, colTile: nat): (kern: MatmulKernel)
    requires !outMem.buffer.elem.isConst
    ensures kern.lhsOffset == lhsMem.offset && kern.rhsOffset == rhsMem.offset && kern.outOffset == outMem.offset
    ensures kern.batches == params.batches && kern.m == params.m && kern.k == params.k && kern.n == params.n
    ensures kern.beta == params.beta && kern.transposeLhs == transposeLhs && kern.transposeRhs == transposeRhs
    ensures kern.rowTile == rowTile && kern.accTile == accTile && kern.colTile == colTile
  {
    FunctorFor(lhsMem.ReadAccessor(), rhsMem.ReadAccessor(), outMem.ReadWriteAccessor(),
               params.batches, params.m, params.k, params.n, params.beta,
               transposeLhs, transposeRhs, rowTile, accTile, colTile)
  }

  /**
   * `launch_with_tiles<T, TransposeLHS, TransposeRHS, RowTile, AccTile, ColTile>`:
   * queues the kernel without bounds checks when m, k and n are multiples of
   * their tiles and the bounds-checked kernel otherwise, and returns its status.
   */
  method LaunchWithTiles(lhsMem: MemObject, rhsMem: MemObject, outMem: MemObject,
                         lhs: seq<int>, rhs: seq<int>, out: array<int>, params: MatmulParams,
                         transposeLhs: bool, transposeRhs: bool,
                         rowTile: nat, accTile: nat, colTile: nat) returns (status: SNNStatus)
    requires rowTile > 0 && accTile > 0 && colTile > 0
    requires !outMem.buffer.elem.isConst
    requires OperandsFit(lhsMem, rhsMem, outMem, |lhs|, |rhs|, out.Length, params)
    modifies out
    ensures status == SNNStatus(Event(MatmulKernelTask(
                                  GridRange(params.batches, params.m, params.n, rowTile, colTile),
                                  !DimsDivide(params.m, params.k, params.n, rowTile, accTile, colTile)), []), OK)
    ensures out[..] == LaunchFunctor(lhsMem, rhsMem, outMem, params, transposeLhs, transposeRhs,
                                     rowTile, accTile, colTile).MatmulResult(lhs, rhs, old(out[..]))
  {
    var exact := DimsDivide(params.m, params.k, params.n, rowTile, accTile, colTile);
    status := QueueKernel(lhsMem.ReadAccessor(), rhsMem.ReadAccessor(), outMem.ReadWriteAccessor(),
                          lhs, rhs, out, params.batches, params.m, params.k, params.n, params.beta,
                          transposeLhs, transposeRhs, rowTile, accTile, colTile, !exact);
  }

  /** The tile sizes `launch` instantiates. */
  const RowTile: nat := 4
  const AccTile: nat := 4
  const ColTile: nat := 4

  /** `launch<T, TransposeLHS, TransposeRHS>`: `launch_with_tiles` with 4 x 4 x 4 tiles. */
  method Launch(lhsMem: MemObject, rhsMem: MemObject, outMem: MemObject,
                lhs: seq<int>, rhs: seq<int>, out: array<int>, params: MatmulParams,
                transposeLhs: bool, transposeRhs: bool) returns (status: SNNStatus)
    requires !outMem.buffer.elem.isConst
    requires OperandsFit(lhsMem, rhsMem, outMem, |lhs|, |rhs|, out.Length, params)
    modifies out
    ensures status == SNNStatus(Event(MatmulKernelTask(
                                  GridRange(params.batches, params.m, params.n, RowTile, ColTile),
                                  !DimsDivide(params.m, params.k, params.n, RowTile, AccTile, ColTile)), []), OK)
    ensures out[..] == LaunchFunctor(lhsMem, rhsMem, outMem, params, transposeLhs, transposeRhs,
                                     RowTile, AccTile, ColTile).MatmulResult(lhs, rhs, old(out[..]))
  {
    status := LaunchWithTiles(lhsMem, rhsMem, outMem, lhs, rhs, out, params, transposeLhs, transposeRhs,
                              RowTile, AccTile, ColTile);
  }
}
