/**
 * `queue_kernel`: sizes the three-dimensional launch grid for the matmul
 * functor, builds the functor from the accessors' offsets, and runs it over
 * the grid. The device's `parallel_for` is modelled as three nested
 * sequential loops in row-major grid order; `AnyOrderGivesResult` shows
 * that every other order of the work-items gives the same output.
 */
module MatmulQueue {
  import opened Arith
  import opened Ratio
  import opened Runtime
  import opened MemObjects
  import opened MatmulKernels

  /** `pow_two_multiple`: each grid dimension over the matrix is a multiple of this. */
  const PowTwoMultiple: nat := 8

  /**
   * The grid `range<3>{n_row_threads, n_col_threads, n_batch_threads}`: one
   * work-item per RowTile-by-ColTile output tile, rows and columns rounded up
   * to multiples of 8, and one work-item per batch. It covers every output
   * element.
   */
  function GridRange(batches: nat, m: nat, n: nat, rowTile: nat, colTile: nat): (r: Range3)
    requires rowTile > 0 && colTile > 0
    ensures r.d0 % PowTwoMultiple == 0 && r.d1 % PowTwoMultiple == 0
    ensures r.d0 * rowTile >= m && r.d1 * colTile >= n
    ensures r.d2 == batches
  {
    var outputSizeRow := RoundRatioUp(m, rowTile);
    var outputSizeCol := RoundRatioUp(n, colTile);
    var rows := RoundUpToNearestMultiple(outputSizeRow, PowTwoMultiple);
    var cols := RoundUpToNearestMultiple(outputSizeCol, PowTwoMultiple);
    MulMono(outputSizeRow, rows, rowTile);
    MulMono(outputSizeCol, cols, colTile);
    Range3(rows, cols, batches)
  }

  /** No smaller multiple of 8 would cover the rows or the columns. */
  lemma GridMinimal(batches: nat, m: nat, n: nat, rowTile: nat, colTile: nat, rows: nat, cols: nat)
    requires rowTile > 0 && colTile > 0
    requires rows % PowTwoMultiple == 0 && rows * rowTile >= m
    requires cols % PowTwoMultiple == 0 && cols * colTile >= n
    ensures GridRange(batches, m, n, rowTile, colTile).d0 <= rows
    ensures GridRange(batches, m, n, rowTile, colTile).d1 <= cols
  {
    RoundRatioUpIsLeast(m, rowTile, rows);
    RoundUpIsLeast(RoundRatioUp(m, rowTile), PowTwoMultiple, rows);
    RoundRatioUpIsLeast(n, colTile, cols);
    RoundUpIsLeast(RoundRatioUp(n, colTile), PowTwoMultiple, cols);
  }

  /**
   * A grid whose rows and columns cover the output matrices and whose batch
   * extent is exactly `batches`, as `GridRange` gives: every output element
   * has an owner in the grid, and no work-item addresses a batch past the last.
   */
  predicate Covers(kern: MatmulKernel, range: Range3) {
    range.d0 * kern.rowTile >= kern.m && range.d1 * kern.colTile >= kern.n && range.d2 == kern.batches
  }

  /** The owner of every output element lies inside a covering grid. */
  lemma OwnerInGrid(kern: MatmulKernel, range: Range3, idx: nat)
    requires kern.Valid() && Covers(kern, range) && kern.InOutput(idx)
    ensures kern.Owner(idx).0 < range.d0 && kern.Owner(idx).1 < range.d1 && kern.Owner(idx).2 < range.d2
  {
    var cell := kern.Cell(idx);
    DivBelow(cell.1, range.d0, kern.rowTile);
    DivBelow(cell.2, range.d1, kern.colTile);
  }

  /** Every element (b, r, c) of every output matrix lies in the tile of some work-item of the grid. */
  lemma GridCoversOutput(kern: MatmulKernel, b: nat, r: nat, c: nat)
    requires kern.Valid() && b < kern.batches && r < kern.m && c < kern.n
    ensures var range := GridRange(kern.batches, kern.m, kern.n, kern.rowTile, kern.colTile);
      exists id0, id1 :: 0 <= id0 < range.d0 && 0 <= id1 < range.d1
        && id0 * kern.rowTile <= r < id0 * kern.rowTile + kern.rowTile
        && id1 * kern.colTile <= c < id1 * kern.colTile + kern.colTile
  {
    var range := GridRange(kern.batches, kern.m, kern.n, kern.rowTile, kern.colTile);
    var id0 := TileCovering(r, kern.m, kern.rowTile, range.d0);
    var id1 := TileCovering(c, kern.n, kern.colTile, range.d1);
    assert 0 <= id0 < range.d0 && 0 <= id1 < range.d1
        && id0 * kern.rowTile <= r < id0 * kern.rowTile + kern.rowTile
        && id1 * kern.colTile <= c < id1 * kern.colTile + kern.colTile;
  }

  /** Position `x < d` lies in tile `x / T` of a grid of `count` tiles covering `d`, and that tile is in the grid. */
  lemma TileCovering(x: nat, d: nat, T: nat, count: nat) returns (t: nat)
    requires T > 0 && x < d && count * T >= d
    ensures t == x / T && t < count && t * T <= x < t * T + T
  {
    t := x / T;
    DivBelow(x, count, T);
    TileOf(x, t, T);
  }

  /** Before the first work-item nothing has changed. */
  lemma PartialStart(kern: MatmulKernel, lhs: seq<int>, rhs: seq<int>, o: seq<int>)
    requires kern.Valid() && kern.InputsFit(|lhs|, |rhs|) && kern.OutputFits(|o|)
    ensures kern.Partial(lhs, rhs, o, 0, 0, 0) == o
  {
    var p := kern.Partial(lhs, rhs, o, 0, 0, 0);
    assert forall idx :: 0 <= idx < |o| ==> p[idx] == o[idx];
  }

  /** After the last batch of grid column i1, the next column starts. */
  lemma BatchesDone(kern: MatmulKernel, lhs: seq<int>, rhs: seq<int>, o: seq<int>, range: Range3, i0: nat, i1: nat)
    requires kern.Valid() && kern.InputsFit(|lhs|, |rhs|) && kern.OutputFits(|o|) && Covers(kern, range)
    ensures kern.Partial(lhs, rhs, o, i0, i1, range.d2) == kern.Partial(lhs, rhs, o, i0, i1 + 1, 0)
  {
    var p := kern.Partial(lhs, rhs, o, i0, i1, range.d2);
    var q := kern.Partial(lhs, rhs, o, i0, i1 + 1, 0);
    forall idx | 0 <= idx < |o|
      ensures p[idx] == q[idx]
    {
      if kern.InOutput(idx) {
        OwnerInGrid(kern, range, idx);
      }
    }
  }

  /** After the last grid column of grid row i0, the next row starts. */
  lemma ColumnsDone(kern: MatmulKernel, lhs: seq<int>, rhs: seq<int>, o: seq<int>, range: Range3, i0: nat)
    requires kern.Valid() && kern.InputsFit(|lhs|, |rhs|) && kern.OutputFits(|o|) && Covers(kern, range)
    ensures kern.Partial(lhs, rhs, o, i0, range.d1, 0) == kern.Partial(lhs, rhs, o, i0 + 1, 0, 0)
  {
    var p := kern.Partial(lhs, rhs, o, i0, range.d1, 0);
    var q := kern.Partial(lhs, rhs, o, i0 + 1, 0, 0);
    forall idx | 0 <= idx < |o|
      ensures p[idx] == q[idx]
    {
      if kern.InOutput(idx) {
        OwnerInGrid(kern, range, idx);
      }
    }
  }

  /** Once every grid row has run, the output is the full matmul result. */
  lemma RowsDone(kern: MatmulKernel, lhs: seq<int>, rhs: seq<int>, o: seq<int>, range: Range3)
    requires kern.Valid() && kern.InputsFit(|lhs|, |rhs|) && kern.OutputFits(|o|) && Covers(kern, range)
    ensures kern.Partial(lhs, rhs, o, range.d0, 0, 0) == kern.MatmulResult(lhs, rhs, o)
  {
    var p := kern.Partial(lhs, rhs, o, range.d0, 0, 0);
    var q := kern.MatmulResult(lhs, rhs, o);
    forall idx | 0 <= idx < |o|
      ensures p[idx] == q[idx]
    {
      if kern.InOutput(idx) {
        OwnerInGrid(kern, range, idx);
      }
    }
  }

  /**
   * `parallel_for` gives no order between work-items: running every grid
   * point of a covering grid exactly once, in any order, gives `MatmulResult`.
   */
  lemma AnyOrderGivesResult(kern: MatmulKernel, lhs: seq<int>, rhs: seq<int>, o: seq<int>,
                            range: Range3, ids: seq<(nat, nat, nat)>)
    requires kern.Valid() && kern.InputsFit(|lhs|, |rhs|) && kern.OutputFits(|o|) && Covers(kern, range)
    requires NoDuplicates(ids)
    requires forall i0: nat, i1: nat, i2: nat :: i0 < range.d0 && i1 < range.d1 && i2 < range.d2 ==> (i0, i1, i2) in ids
    ensures kern.ApplyAll(lhs, rhs, o, ids) == kern.MatmulResult(lhs, rhs, o)
  {
    var p := kern.ApplyAll(lhs, rhs, o, ids);
    var q := kern.MatmulResult(lhs, rhs, o);
    forall idx | 0 <= idx < |o|
      ensures p[idx] == q[idx]
    {
      ApplyAllAt(kern, lhs, rhs, o, ids, idx);
      if kern.InOutput(idx) {
        OwnerInGrid(kern, range, idx);
      }
    }
  }

  /**
   * `parallel_for(range, functor)`, run one work-item at a time in row-major
   * grid order. On a covering grid the output becomes `MatmulResult`.
   */
  method RunGrid(kern: MatmulKernel, lhs: seq<int>, rhs: seq<int>, out: array<int>, checkBounds: bool, range: Range3)
    requires kern.Valid() && kern.InputsFit(|lhs|, |rhs|) && kern.OutputFits(out.Length)
    requires !checkBounds ==> kern.TilesDivide()
    requires Covers(kern, range)
    modifies out
    ensures out[..] == kern.MatmulResult(lhs, rhs, old(out[..]))
  {
    ghost var o := out[..];
    PartialStart(kern, lhs, rhs, o);
    var i0 := 0;
    while i0 < range.d0
      invariant i0 <= range.d0
      invariant out.Length == |o|
      invariant out[..] == kern.Partial(lhs, rhs, o, i0, 0, 0)
    {
      var i1 := 0;
      while i1 < range.d1
        invariant i1 <= range.d1
        invariant out[..] == kern.Partial(lhs, rhs, o, i0, i1, 0)
      {
        var i2 := 0;
        while i2 < range.d2
          invariant i2 <= range.d2
          invariant out[..] == kern.Partial(lhs, rhs, o, i0, i1, i2)
        {
          GridStep(kern, lhs, rhs, o, i0, i1, i2);
          ApplyItem(kern, lhs, rhs, out, checkBounds, i0, i1, i2);
          i2 := i2 + 1;
        }
        BatchesDone(kern, lhs, rhs, o, range, i0, i1);
        i1 := i1 + 1;
      }
      ColumnsDone(kern, lhs, rhs, o, range, i0);
      i0 := i0 + 1;
    }
    RowsDone(kern, lhs, rhs, o, range);
  }

  /** The functor `queue_kernel` builds: the problem and the offsets of the three accessors. */
  function FunctorFor(lhsAcc: Accessor, rhsAcc: Accessor, outAcc: Accessor,
                      batches: nat, m: nat, k: nat, n: nat, beta: int,
                      transposeLhs: bool, transposeRhs: bool,
                      rowTile: nat, accTile: nat, colTile: nat): (kern: MatmulKernel)
    ensures kern.lhsOffset == lhsAcc.offset && kern.rhsOffset == rhsAcc.offset && kern.outOffset == outAcc.offset
    ensures kern.batches == batches && kern.m == m && kern.k == k && kern.n == n && kern.beta == beta
    ensures kern.transposeLhs == transposeLhs && kern.transposeRhs == transposeRhs
    ensures kern.rowTile == rowTile && kern.accTile == accTile && kern.colTile == colTile
  {
    MatmulKernel(batches, m, k, n, beta, lhsAcc.offset, rhsAcc.offset, outAcc.offset,
                 transposeLhs, transposeRhs, rowTile, accTile, colTile)
  }

  /**
   * `queue_kernel`: launches the functor over `GridRange` and returns the
   * kernel's event with status OK. `lhs`, `rhs` and `out` are the contents of
   * the accessors' buffers; the operands must lie inside them, and each
   * accessor's range must hold all `batches` matrices of its operand.
   */
  method QueueKernel(lhsAcc: Accessor, rhsAcc: Accessor, outAcc: Accessor,
                     lhs: seq<int>, rhs: seq<int>, out: array<int>,
                     batches: nat, m: nat, k: nat, n: nat, beta: int,
                     transposeLhs: bool, transposeRhs: bool,
                     rowTile: nat, accTile: nat, colTile: nat, checkBounds: bool)
    returns (status: SNNStatus)
    requires rowTile > 0 && accTile > 0 && colTile > 0
    requires FunctorFor(lhsAcc, rhsAcc, outAcc, batches, m, k, n, beta, transposeLhs, transposeRhs,
                        rowTile, accTile, colTile).InputsFit(|lhs|, |rhs|)
    requires FunctorFor(lhsAcc, rhsAcc, outAcc, batches, m, k, n, beta, transposeLhs, transposeRhs,
                        rowTile, accTile, colTile).OutputFits(out.Length)
    requires batches * (m * k) <= lhsAcc.extent && batches * (k * n) <= rhsAcc.extent
    requires batches * (m * n) <= outAcc.extent
    requires !checkBounds ==> DimsDivide(m, k, n, rowTile, accTile, colTile)
    modifies out
    ensures status == SNNStatus(Event(MatmulKernelTask(GridRange(batches, m, n, rowTile, colTile), checkBounds), []), OK)
    ensures out[..] == FunctorFor(lhsAcc, rhsAcc, outAcc, batches, m, k, n, beta, transposeLhs, transposeRhs,
                                  rowTile, accTile, colTile).MatmulResult(lhs, rhs, old(out[..]))
  {
    var range := GridRange(batches, m, n, rowTile, colTile);
    var functor := FunctorFor(lhsAcc, rhsAcc, outAcc, batches, m, k, n, beta, transposeLhs, transposeRhs,
                              rowTile, accTile, colTile);
    RunGrid(functor, lhs, rhs, out, checkBounds, range);
    status := SNNStatus(Event(MatmulKernelTask(range, checkBounds), []), OK);
  }
}
