/**
 * The matmul functor `MatmulKernel<T, Index, TransposeLHS, TransposeRHS,
 * RowTile, AccTile, ColTile>`: each work-item computes one RowTile-by-ColTile
 * tile of `out = beta * out + op(lhs) * op(rhs)` for one batch, where `op`
 * transposes a matrix stored column-major. Elements are integers, so the
 * arithmetic is exact.
 *
 * Buffers are the flat element sequences behind the accessors; matrix `b` of
 * a batch of m-by-k matrices starts at `b * (m * k) + offset`.
 */
module MatmulKernels {
  import opened Arith
  import opened MatmulBlocks

  function Min(a: nat, b: nat): nat { if a <= b then a else b }

  /** m, k and n are multiples of RowTile, AccTile and ColTile: the condition for the kernel without bounds checks. */
  predicate DimsDivide(m: nat, k: nat, n: nat, rowTile: nat, accTile: nat, colTile: nat)
    requires rowTile > 0 && accTile > 0 && colTile > 0
  {
    m % rowTile == 0 && k % accTile == 0 && n % colTile == 0
  }

  /**
   * The functor's state: the problem sizes, `beta`, the three accessor
   * offsets, and the template parameters (transpose flags and tile sizes).
   */
  datatype MatmulKernel = MatmulKernel(
    batches: nat, m: nat, k: nat, n: nat, beta: int,
    lhsOffset: nat, rhsOffset: nat, outOffset: nat,
    transposeLhs: bool, transposeRhs: bool,
    rowTile: nat, accTile: nat, colTile: nat)
  {
    /** The tile sizes are positive template constants. */
    predicate Valid() {
      rowTile > 0 && accTile > 0 && colTile > 0
    }

    /** Every tile size divides its dimension: the kernel needs no bounds checks. */
    predicate TilesDivide()
      requires Valid()
    {
      DimsDivide(m, k, n, rowTile, accTile, colTile)
    }

    /** All `batches` left-hand matrices lie inside the lhs buffer. */
    predicate LhsFits(lhsLen: nat) {
      lhsOffset + batches * (m * k) <= lhsLen
    }

    /** All `batches` right-hand matrices lie inside the rhs buffer. */
    predicate RhsFits(rhsLen: nat) {
      rhsOffset + batches * (k * n) <= rhsLen
    }

    predicate InputsFit(lhsLen: nat, rhsLen: nat) {
      LhsFits(lhsLen) && RhsFits(rhsLen)
    }

    /** All `batches` output matrices lie inside the output buffer. */
    predicate OutputFits(outLen: nat) {
      outOffset + batches * (m * n) <= outLen
    }

    /** `lhs_ptr`, `rhs_ptr` and `out_ptr` of batch `b`, as buffer positions. */
    function LhsBase(b: nat): nat { b * (m * k) + lhsOffset }
    function RhsBase(b: nat): nat { b * (k * n) + rhsOffset }
    function OutBase(b: nat): nat { b * (m * n) + outOffset }

    /** Batch `b` of each operand lies inside its buffer. */
    lemma BaseFits(b: nat, lhsLen: nat, rhsLen: nat, outLen: nat)
      requires b < batches
      ensures LhsFits(lhsLen) ==> LhsBase(b) + m * k <= lhsLen
      ensures RhsFits(rhsLen) ==> RhsBase(b) + k * n <= rhsLen
      ensures OutputFits(outLen) ==> OutBase(b) + m * n <= outLen
    {
      MulMono(b + 1, batches, m * k);
      MulMono(b + 1, batches, k * n);
      MulMono(b + 1, batches, m * n);
    }

    /** op(lhs)[r][p] of batch `b`. */
    function LhsAt(lhs: seq<int>, b: nat, r: nat, p: nat): int
      requires LhsFits(|lhs|) && b < batches && r < m && p < k
    {
      BaseFits(b, |lhs|, 0, 0);
      MatrixAt(lhs, LhsBase(b), r, p, m, k, transposeLhs)
    }

    /** op(rhs)[p][c] of batch `b`. */
    function RhsAt(rhs: seq<int>, b: nat, p: nat, c: nat): int
      requires RhsFits(|rhs|) && b < batches && p < k && c < n
    {
      BaseFits(b, 0, |rhs|, 0);
      MatrixAt(rhs, RhsBase(b), p, c, k, n, transposeRhs)
    }

    /** Sum over p < len of op(lhs)[r][p] * op(rhs)[p][c] for batch `b`. */
    function Dot(lhs: seq<int>, rhs: seq<int>, b: nat, r: nat, c: nat, len: nat): int
      requires InputsFit(|lhs|, |rhs|) && b < batches && r < m && c < n && len <= k
    {
      if len == 0 then 0
      else Dot(lhs, rhs, b, r, c, len - 1) + LhsAt(lhs, b, r, len - 1) * RhsAt(rhs, b, len - 1, c)
    }

    /** Output position of element (r, c) of output matrix `b`. */
    function OutIdx(b: nat, r: nat, c: nat): (idx: nat)
      requires b < batches && r < m && c < n
      ensures OutBase(b) <= idx < OutBase(b) + m * n
    {
      Flat(OutBase(b), r, c, m, n)
    }

    /** `idx` is an element of one of the output matrices. */
    predicate InOutput(idx: nat) {
      outOffset <= idx < outOffset + batches * (m * n)
    }

    /** The (batch, row, column) an output position belongs to. */
    function Cell(idx: nat): (cell: (nat, nat, nat))
      requires InOutput(idx)
      ensures cell.0 < batches && cell.1 < m && cell.2 < n
      ensures OutIdx(cell.0, cell.1, cell.2) == idx
    {
      var rel := idx - outOffset;
      Unflatten(rel, batches, m, n);
      (rel / (m * n), (rel % (m * n)) / n, (rel % (m * n)) % n)
    }

    /** `Cell` inverts `OutIdx`. */
    lemma CellOfOutIdx(b: nat, r: nat, c: nat)
      requires b < batches && r < m && c < n
      ensures InOutput(OutIdx(b, r, c)) && Cell(OutIdx(b, r, c)) == (b, r, c)
    {
      var idx := OutIdx(b, r, c);
      MulMono(b + 1, batches, m * n);
      var cell := Cell(idx);
      FlatBound(r, c, m, n);
      FlatBound(cell.1, cell.2, m, n);
      FlatUnique(b, r * n + c, cell.0, cell.1 * n + cell.2, m * n);
      FlatUnique(r, c, cell.1, cell.2, n);
    }

    /** A position inside output matrix `b` belongs to batch `b`. */
    lemma InBatch(idx: nat, b: nat)
      requires b < batches && OutBase(b) <= idx < OutBase(b) + m * n
      ensures InOutput(idx) && Cell(idx).0 == b
    {
      MulMono(b + 1, batches, m * n);
      var w := idx - OutBase(b);
      DivModOf(b, w, m * n);
    }

    /** The grid id (row tile, column tile, batch) of the work-item whose tile holds `idx`. */
    function Owner(idx: nat): (id: (nat, nat, nat))
      requires Valid() && InOutput(idx)
      ensures id.2 < batches
    {
      var cell := Cell(idx);
      assert cell.0 < batches;
      (cell.1 / rowTile, cell.2 / colTile, cell.0)
    }

    /** Work-item `id` is responsible for output position `idx`. */
    predicate Owns(idx: nat, id: (nat, nat, nat))
      requires Valid()
    {
      InOutput(idx) && Owner(idx) == id
    }

    /** The value the whole launch leaves at output position `idx`: beta * o[idx] plus the dot product. */
    function Expected(lhs: seq<int>, rhs: seq<int>, o: seq<int>, idx: nat): int
      requires InputsFit(|lhs|, |rhs|) && InOutput(idx) && idx < |o|
    {
      var cell := Cell(idx);
      beta * o[idx] + Dot(lhs, rhs, cell.0, cell.1, cell.2, k)
    }

    /** The output buffer after work-item `id` ran on buffer contents `o`. */
    function ItemUpdate(lhs: seq<int>, rhs: seq<int>, o: seq<int>, id: (nat, nat, nat)): (r: seq<int>)
      requires Valid() && InputsFit(|lhs|, |rhs|) && OutputFits(|o|)
      ensures |r| == |o|
    {
      seq(|o|, idx requires 0 <= idx < |o| =>
        if Owns(idx, id) then Expected(lhs, rhs, o, idx) else o[idx])
    }

    /** The output buffer after the work-items `ids` ran one after another, first to last, on contents `o`. */
    function ApplyAll(lhs: seq<int>, rhs: seq<int>, o: seq<int>, ids: seq<(nat, nat, nat)>): (r: seq<int>)
      requires Valid() && InputsFit(|lhs|, |rhs|) && OutputFits(|o|)
      ensures |r| == |o|
      decreases |ids|
    {
      if ids == [] then o
      else ItemUpdate(lhs, rhs, ApplyAll(lhs, rhs, o, ids[..|ids| - 1]), ids[|ids| - 1])
    }

    /** `lb` is the RowTile-by-AccTile tile of op(lhs) of batch `b` at (row, acc), zero outside. */
    ghost predicate LhsTile(lhs: seq<int>, b: nat, row: nat, acc: nat, lb: Block) {
      && LhsFits(|lhs|) && b < batches && IsBlock(lb, rowTile, accTile)
      && forall i, q :: 0 <= i < rowTile && 0 <= q < accTile ==>
           lb[i][q] == if row + i < m && acc + q < k then LhsAt(lhs, b, row + i, acc + q) else 0
    }

    /** `rb` is the AccTile-by-ColTile tile of op(rhs) of batch `b` at (acc, col), zero outside. */
    ghost predicate RhsTile(rhs: seq<int>, b: nat, acc: nat, col: nat, rb: Block) {
      && RhsFits(|rhs|) && b < batches && IsBlock(rb, accTile, colTile)
      && forall q, j :: 0 <= q < accTile && 0 <= j < colTile ==>
           rb[q][j] == if acc + q < k && col + j < n then RhsAt(rhs, b, acc + q, col + j) else 0
    }

    /** Work-item `id` runs before grid point (i0, i1, i2) in row-major order of the grid. */
    predicate Before(id: (nat, nat, nat), i0: nat, i1: nat, i2: nat) {
      id.0 < i0 || (id.0 == i0 && (id.1 < i1 || (id.1 == i1 && id.2 < i2)))
    }

    /** The output buffer once every work-item before (i0, i1, i2) has run on initial contents `o`. */
    function Partial(lhs: seq<int>, rhs: seq<int>, o: seq<int>, i0: nat, i1: nat, i2: nat): (r: seq<int>)
      requires Valid() && InputsFit(|lhs|, |rhs|) && OutputFits(|o|)
      ensures |r| == |o|
    {
      seq(|o|, idx requires 0 <= idx < |o| =>
        if InOutput(idx) && Before(Owner(idx), i0, i1, i2) then Expected(lhs, rhs, o, idx) else o[idx])
    }

    /**
     * The whole matmul: every element of every output matrix becomes
     * beta * out + (op(lhs) * op(rhs)) of its batch; the rest of the buffer is untouched.
     */
    function MatmulResult(lhs: seq<int>, rhs: seq<int>, o: seq<int>): (r: seq<int>)
      requires InputsFit(|lhs|, |rhs|) && OutputFits(|o|)
      ensures |r| == |o|
    {
      seq(|o|, idx requires 0 <= idx < |o| => if InOutput(idx) then Expected(lhs, rhs, o, idx) else o[idx])
    }

    /**
     * The tile of work-item (id0, id1, id2) — rows from `row`, columns from
     * `col` — holds beta times the matching cells of `o` plus the first
     * `acc` (at most k) terms of each dot product.
     */
    ghost predicate Accumulated(lhs: seq<int>, rhs: seq<int>, o: seq<int>, b: nat,
                                row: nat, col: nat, blk: Block, acc: nat)
    {
      && InputsFit(|lhs|, |rhs|) && b < batches && OutBase(b) + m * n <= |o|
      && IsBlock(blk, rowTile, colTile)
      && forall i, j :: 0 <= i < rowTile && 0 <= j < colTile && row + i < m && col + j < n ==>
           blk[i][j] == beta * o[OutIdx(b, row + i, col + j)] + Dot(lhs, rhs, b, row + i, col + j, Min(acc, k))
    }
  }

  /** On the exact path a tile that starts inside a dimension ends inside it. */
  lemma ExactTileInBounds(d: nat, T: nat, t: nat)
    requires T > 0 && d % T == 0 && t * T < d
    ensures t * T + T <= d
  {
    var q := d / T;
    assert d == q * T;
    if q < t + 1 {
      MulMono(q, t, T);
      assert false;
    }
    MulMono(t + 1, q, T);
  }

  /**
   * The tile `out_block` starts as: zero when beta == 0, otherwise beta times
   * the output tile (zero outside the matrix).
   */
  lemma SeedAccumulated(kern: MatmulKernel, lhs: seq<int>, rhs: seq<int>, o: seq<int>, b: nat,
                        row: nat, col: nat, blk: Block)
    requires kern.Valid() && kern.InputsFit(|lhs|, |rhs|) && b < kern.batches
    requires kern.OutBase(b) + kern.m * kern.n <= |o|
    requires IsBlock(blk, kern.rowTile, kern.colTile)
    requires forall i, j :: 0 <= i < kern.rowTile && 0 <= j < kern.colTile ==>
      blk[i][j] == if kern.beta == 0 then 0
                   else kern.beta * if row + i < kern.m && col + j < kern.n
                                    then MatrixAt(o, kern.OutBase(b), row + i, col + j, kern.m, kern.n, false)
                                    else 0
    ensures kern.Accumulated(lhs, rhs, o, b, row, col, blk, 0)
  {
    forall i, j | 0 <= i < kern.rowTile && 0 <= j < kern.colTile && row + i < kern.m && col + j < kern.n
      ensures blk[i][j] == kern.beta * o[kern.OutIdx(b, row + i, col + j)]
                           + kern.Dot(lhs, rhs, b, row + i, col + j, Min(0, kern.k))
    {
      assert MatrixAt(o, kern.OutBase(b), row + i, col + j, kern.m, kern.n, false) == o[kern.OutIdx(b, row + i, col + j)];
    }
  }

  /** Loaded tiles give the next `len` terms of every in-range dot product (zero past k). */
  lemma {:induction false} AccStep(kern: MatmulKernel, lhs: seq<int>, rhs: seq<int>, b: nat, r: nat, c: nat,
                                   lb: Block, rb: Block, i: nat, j: nat, acc: nat, len: nat)
    requires kern.Valid() && kern.InputsFit(|lhs|, |rhs|) && b < kern.batches && r < kern.m && c < kern.n
    requires acc < kern.k && len <= kern.accTile
    requires i < |lb| && |lb[i]| == kern.accTile
    requires |rb| == kern.accTile && forall q :: 0 <= q < kern.accTile ==> j < |rb[q]|
    requires forall q :: 0 <= q < kern.accTile ==>
      lb[i][q] == if acc + q < kern.k then kern.LhsAt(lhs, b, r, acc + q) else 0
    requires forall q :: 0 <= q < kern.accTile ==>
      rb[q][j] == if acc + q < kern.k then kern.RhsAt(rhs, b, acc + q, c) else 0
    ensures RowColDot(lb, rb, i, j, len) ==
      kern.Dot(lhs, rhs, b, r, c, Min(acc + len, kern.k)) - kern.Dot(lhs, rhs, b, r, c, acc)
  {
    if len > 0 {
      AccStep(kern, lhs, rhs, b, r, c, lb, rb, i, j, acc, len - 1);
    }
  }

  /** One k-step: adding the product of the next lhs and rhs tiles advances `Accumulated` by AccTile. */
  lemma KStep(kern: MatmulKernel, lhs: seq<int>, rhs: seq<int>, o: seq<int>, b: nat, row: nat, col: nat,
              blk: Block, acc: nat, lb: Block, rb: Block, next: Block)
    requires kern.Valid() && kern.Accumulated(lhs, rhs, o, b, row, col, blk, acc) && acc < kern.k
    requires kern.LhsTile(lhs, b, row, acc, lb) && kern.RhsTile(rhs, b, acc, col, rb)
    requires IsBlock(next, kern.rowTile, kern.colTile)
    requires forall i, j :: 0 <= i < kern.rowTile && 0 <= j < kern.colTile ==>
      next[i][j] == blk[i][j] + RowColDot(lb, rb, i, j, kern.accTile)
    ensures kern.Accumulated(lhs, rhs, o, b, row, col, next, acc + kern.accTile)
  {
    forall i, j | 0 <= i < kern.rowTile && 0 <= j < kern.colTile && row + i < kern.m && col + j < kern.n
      ensures next[i][j] == kern.beta * o[kern.OutIdx(b, row + i, col + j)]
                            + kern.Dot(lhs, rhs, b, row + i, col + j, Min(acc + kern.accTile, kern.k))
    {
      CellStep(kern, lhs, rhs, b, row + i, col + j, lb, rb, i, j, acc,
               kern.beta * o[kern.OutIdx(b, row + i, col + j)], blk[i][j], next[i][j]);
    }
  }

  /** `KStep` for one cell (i, j) of the tile, whose matrix position is (r, c). */
  lemma CellStep(kern: MatmulKernel, lhs: seq<int>, rhs: seq<int>, b: nat, r: nat, c: nat,
                 lb: Block, rb: Block, i: nat, j: nat, acc: nat, seed: int, before: int, after: int)
    requires kern.Valid() && kern.InputsFit(|lhs|, |rhs|) && b < kern.batches && r < kern.m && c < kern.n
    requires acc < kern.k
    requires i < |lb| && |lb[i]| == kern.accTile
    requires |rb| == kern.accTile && forall q :: 0 <= q < kern.accTile ==> j < |rb[q]|
    requires forall q :: 0 <= q < kern.accTile ==>
      lb[i][q] == if acc + q < kern.k then kern.LhsAt(lhs, b, r, acc + q) else 0
    requires forall q :: 0 <= q < kern.accTile ==>
      rb[q][j] == if acc + q < kern.k then kern.RhsAt(rhs, b, acc + q, c) else 0
    requires before == seed + kern.Dot(lhs, rhs, b, r, c, Min(acc, kern.k))
    requires after == before + RowColDot(lb, rb, i, j, kern.accTile)
    ensures after == seed + kern.Dot(lhs, rhs, b, r, c, Min(acc + kern.accTile, kern.k))
  {
    AccStep(kern, lhs, rhs, b, r, c, lb, rb, i, j, acc, kern.accTile);
  }

  /** A work-item whose tile origin lies outside the matrix owns no output position. */
  lemma NoOwnedCells(kern: MatmulKernel, lhs: seq<int>, rhs: seq<int>, o: seq<int>, id: (nat, nat, nat))
    requires kern.Valid() && kern.InputsFit(|lhs|, |rhs|) && kern.OutputFits(|o|)
    requires id.0 * kern.rowTile >= kern.m || id.1 * kern.colTile >= kern.n
    ensures kern.ItemUpdate(lhs, rhs, o, id) == o
  {
    forall idx | 0 <= idx < |o| && kern.Owns(idx, id)
      ensures false
    {
      var cell := kern.Cell(idx);
      TileOf(cell.1, id.0, kern.rowTile);
      TileOf(cell.2, id.1, kern.colTile);
    }
  }

  /** Storing a fully accumulated tile produces exactly `ItemUpdate`. */
  lemma StoreGivesItem(kern: MatmulKernel, lhs: seq<int>, rhs: seq<int>, o: seq<int>, s: seq<int>,
                       id: (nat, nat, nat), blk: Block, acc: nat)
    requires kern.Valid() && kern.OutputFits(|o|)
    requires kern.Accumulated(lhs, rhs, o, id.2, id.0 * kern.rowTile, id.1 * kern.colTile, blk, acc)
    requires acc >= kern.k
    requires BlockStored(s, o, blk, kern.OutBase(id.2), id.0 * kern.rowTile, id.1 * kern.colTile,
                         kern.m, kern.n, kern.rowTile, kern.colTile)
    ensures s == kern.ItemUpdate(lhs, rhs, o, id)
  {
    var row, col, b := id.0 * kern.rowTile, id.1 * kern.colTile, id.2;
    forall idx | 0 <= idx < |o|
      ensures s[idx] == kern.ItemUpdate(lhs, rhs, o, id)[idx]
    {
      if kern.OutBase(b) <= idx < kern.OutBase(b) + kern.m * kern.n {
        kern.InBatch(idx, b);
        var cell := kern.Cell(idx);
        TileOf(cell.1, id.0, kern.rowTile);
        TileOf(cell.2, id.1, kern.colTile);
        if kern.Owns(idx, id) {
          assert s[idx] == blk[cell.1 - row][cell.2 - col];
        }
      } else if kern.InOutput(idx) {
        assert !kern.Owns(idx, id);
      }
    }
  }

  /**
   * Lines seeding `out_block`: zero when beta == 0 (the output is not read),
   * otherwise beta times the untransposed output tile at (row, col) of batch `b`.
   */
  method SeedTile(kern: MatmulKernel, lhs: seq<int>, rhs: seq<int>, o: seq<int>, b: nat,
                  row: nat, col: nat, checkBounds: bool) returns (blk: Block)
    requires kern.Valid() && kern.InputsFit(|lhs|, |rhs|) && kern.OutputFits(|o|) && b < kern.batches
    requires !checkBounds ==> row + kern.rowTile <= kern.m && col + kern.colTile <= kern.n
    ensures kern.Accumulated(lhs, rhs, o, b, row, col, blk, 0)
  {
    kern.BaseFits(b, |lhs|, |rhs|, |o|);
    blk := ZeroBlock(kern.rowTile, kern.colTile);
    if kern.beta != 0 {
      blk := Load(o, kern.OutBase(b), row, col, kern.m, kern.n, false, checkBounds, kern.rowTile, kern.colTile);
      blk := Scale(blk, kern.beta, kern.rowTile, kern.colTile);
    }
    SeedAccumulated(kern, lhs, rhs, o, b, row, col, blk);
  }

  /**
   * The `acc_idx` loop: visits acc = 0, AccTile, 2 * AccTile, ... while
   * acc < k, adding the product of the lhs tile at (row, acc) and the rhs tile
   * at (acc, col) each time, so every k index is added exactly once.
   */
  method AccumulateTile(kern: MatmulKernel, lhs: seq<int>, rhs: seq<int>, ghost o: seq<int>, b: nat,
                        row: nat, col: nat, checkBounds: bool, seed: Block) returns (blk: Block)
    requires kern.Valid() && kern.Accumulated(lhs, rhs, o, b, row, col, seed, 0)
    requires !checkBounds ==> kern.TilesDivide() && row + kern.rowTile <= kern.m && col + kern.colTile <= kern.n
    ensures kern.Accumulated(lhs, rhs, o, b, row, col, blk, kern.k)
  {
    kern.BaseFits(b, |lhs|, |rhs|, |o|);
    blk := seed;
    var acc := 0;
    ghost var steps := 0;
    while acc < kern.k
      invariant acc == steps * kern.accTile
      invariant kern.Accumulated(lhs, rhs, o, b, row, col, blk, acc)
      invariant acc >= kern.k ==> Min(acc, kern.k) == kern.k
    {
      if !checkBounds {
        ExactTileInBounds(kern.k, kern.accTile, steps);
      }
      var next := AccumulateStep(kern, lhs, rhs, o, b, row, col, checkBounds, blk, acc);
      blk := next;
      MulSucc(steps, kern.accTile);
      acc := acc + kern.accTile;
      steps := steps + 1;
    }
  }

  /** One pass of the `acc_idx` loop body: load both tiles at `acc` and multiply-accumulate. */
  method AccumulateStep(kern: MatmulKernel, lhs: seq<int>, rhs: seq<int>, ghost o: seq<int>, b: nat,
                        row: nat, col: nat, checkBounds: bool, blk: Block, acc: nat) returns (next: Block)
    requires kern.Valid() && kern.Accumulated(lhs, rhs, o, b, row, col, blk, acc) && acc < kern.k
    requires !checkBounds ==> row + kern.rowTile <= kern.m && acc + kern.accTile <= kern.k && col + kern.colTile <= kern.n
    ensures kern.Accumulated(lhs, rhs, o, b, row, col, next, acc + kern.accTile)
  {
    kern.BaseFits(b, |lhs|, |rhs|, |o|);
    var lhsBlock := Load(lhs, kern.LhsBase(b), row, acc, kern.m, kern.k, kern.transposeLhs, checkBounds,
                         kern.rowTile, kern.accTile);
    var rhsBlock := Load(rhs, kern.RhsBase(b), acc, col, kern.k, kern.n, kern.transposeRhs, checkBounds,
                         kern.accTile, kern.colTile);
    next := MmAcc(lhsBlock, rhsBlock, blk, kern.rowTile, kern.accTile, kern.colTile);
    KStep(kern, lhs, rhs, o, b, row, col, blk, acc, lhsBlock, rhsBlock, next);
  }

  /**
   * `MatmulKernel::operator()(item)` for the work-item with grid id
   * (id0, id1, id2): the output becomes `ItemUpdate` of its old contents.
   * `checkBounds` selects the bounds-checked tile loads and stores; without it
   * every dimension must be a multiple of its tile.
   */
  method ApplyItem(kern: MatmulKernel, lhs: seq<int>, rhs: seq<int>, out: array<int>, checkBounds: bool,
                   id0: nat, id1: nat, id2: nat)
    requires kern.Valid() && kern.InputsFit(|lhs|, |rhs|) && kern.OutputFits(out.Length)
    requires id2 < kern.batches
    requires !checkBounds ==> kern.TilesDivide()
    modifies out
    ensures out[..] == kern.ItemUpdate(lhs, rhs, old(out[..]), (id0, id1, id2))
  {
    var row := id0 * kern.rowTile;
    var col := id1 * kern.colTile;
    var batch := id2;
    if row < kern.m && col < kern.n {
      var lhsBase := kern.LhsBase(batch);
      var rhsBase := kern.RhsBase(batch);
      var outBase := kern.OutBase(batch);
      kern.BaseFits(batch, |lhs|, |rhs|, out.Length);
      if !checkBounds {
        ExactTileInBounds(kern.m, kern.rowTile, id0);
        ExactTileInBounds(kern.n, kern.colTile, id1);
      }
      ghost var o := out[..];
      var block := SeedTile(kern, lhs, rhs, out[..], batch, row, col, checkBounds);
      block := AccumulateTile(kern, lhs, rhs, o, batch, row, col, checkBounds, block);
      StoreBlock(block, out, outBase, row, col, kern.m, kern.n, checkBounds, kern.rowTile, kern.colTile);
      StoreGivesItem(kern, lhs, rhs, o, out[..], (id0, id1, id2), block, kern.k);
    } else {
      NoOwnedCells(kern, lhs, rhs, out[..], (id0, id1, id2));
    }
  }

  /**
   * `MatmulResult` says what the launch computes, cell by cell: element
   * (r, c) of output matrix b becomes beta times its old value plus the sum
   * over p < k of op(lhs)[r][p] * op(rhs)[p][c]; elements outside the output
   * matrices are unchanged.
   */
  lemma MatmulResultAt(kern: MatmulKernel, lhs: seq<int>, rhs: seq<int>, o: seq<int>, b: nat, r: nat, c: nat)
    requires kern.InputsFit(|lhs|, |rhs|) && kern.OutputFits(|o|)
    requires b < kern.batches && r < kern.m && c < kern.n
    ensures kern.OutIdx(b, r, c) < |o|
    ensures kern.MatmulResult(lhs, rhs, o)[kern.OutIdx(b, r, c)]
            == kern.beta * o[kern.OutIdx(b, r, c)] + kern.Dot(lhs, rhs, b, r, c, kern.k)
  {
    kern.CellOfOutIdx(b, r, c);
    kern.BaseFits(b, |lhs|, |rhs|, |o|);
  }

  /**
   * Work-items own disjoint parts of the output and each reads only the part
   * it owns, so two distinct work-items give the same result in either order.
   */
  lemma ItemsCommute(kern: MatmulKernel, lhs: seq<int>, rhs: seq<int>, o: seq<int>,
                     id: (nat, nat, nat), id': (nat, nat, nat))
    requires kern.Valid() && kern.InputsFit(|lhs|, |rhs|) && kern.OutputFits(|o|) && id != id'
    ensures kern.ItemUpdate(lhs, rhs, kern.ItemUpdate(lhs, rhs, o, id), id')
         == kern.ItemUpdate(lhs, rhs, kern.ItemUpdate(lhs, rhs, o, id'), id)
  {
    var a := kern.ItemUpdate(lhs, rhs, o, id);
    var a' := kern.ItemUpdate(lhs, rhs, o, id');
    var x := kern.ItemUpdate(lhs, rhs, a, id');
    var y := kern.ItemUpdate(lhs, rhs, a', id);
    forall idx | 0 <= idx < |o|
      ensures x[idx] == y[idx]
    {
      if kern.Owns(idx, id) {
        assert a'[idx] == o[idx];
      } else if kern.Owns(idx, id') {
        assert a[idx] == o[idx];
      }
    }
  }

  /** No work-item occurs twice in `ids`. */
  predicate NoDuplicates(ids: seq<(nat, nat, nat)>) {
    forall i, j :: 0 <= i < j < |ids| ==> ids[i] != ids[j]
  }

  /**
   * Running distinct work-items in any order: an output element owned by one
   * of them ends as beta times its ORIGINAL value plus its dot product, and
   * every other element keeps its value. The order of `ids` does not appear.
   */
  lemma {:induction false} ApplyAllAt(kern: MatmulKernel, lhs: seq<int>, rhs: seq<int>, o: seq<int>,
                                      ids: seq<(nat, nat, nat)>, idx: nat)
    requires kern.Valid() && kern.InputsFit(|lhs|, |rhs|) && kern.OutputFits(|o|)
    requires NoDuplicates(ids) && idx < |o|
    ensures kern.ApplyAll(lhs, rhs, o, ids)[idx]
         == if kern.InOutput(idx) && kern.Owner(idx) in ids then kern.Expected(lhs, rhs, o, idx) else o[idx]
    decreases |ids|
  {
    if ids != [] {
      var pre, last := ids[..|ids| - 1], ids[|ids| - 1];
      assert ids == pre + [last];
      assert NoDuplicates(pre) by {
        forall i, j | 0 <= i < j < |pre| ensures pre[i] != pre[j] {
          assert pre[i] == ids[i] && pre[j] == ids[j];
        }
      }
      ApplyAllAt(kern, lhs, rhs, o, pre, idx);
      var p := kern.ApplyAll(lhs, rhs, o, pre);
      if kern.Owns(idx, last) {
        assert kern.Owner(idx) !in pre by {
          forall i | 0 <= i < |pre| ensures pre[i] != last {
            assert pre[i] == ids[i];
          }
        }
        assert p[idx] == o[idx];
      }
    }
  }

  /** With beta == 0 the value a work-item writes does not depend on the old output. */
  lemma BetaZeroIgnoresOutput(kern: MatmulKernel, lhs: seq<int>, rhs: seq<int>, o: seq<int>, o': seq<int>,
                              id: (nat, nat, nat), idx: nat)
    requires kern.Valid() && kern.InputsFit(|lhs|, |rhs|) && kern.OutputFits(|o|) && |o'| == |o|
    requires kern.beta == 0 && idx < |o| && kern.Owns(idx, id)
    ensures kern.ItemUpdate(lhs, rhs, o, id)[idx] == kern.ItemUpdate(lhs, rhs, o', id)[idx]
  {
  }

  /** Running work-item (i0, i1, i2) after all earlier ones extends `Partial` by that item. */
  lemma GridStep(kern: MatmulKernel, lhs: seq<int>, rhs: seq<int>, o: seq<int>, i0: nat, i1: nat, i2: nat)
    requires kern.Valid() && kern.InputsFit(|lhs|, |rhs|) && kern.OutputFits(|o|)
    ensures kern.ItemUpdate(lhs, rhs, kern.Partial(lhs, rhs, o, i0, i1, i2), (i0, i1, i2))
         == kern.Partial(lhs, rhs, o, i0, i1, i2 + 1)
  {
    var p := kern.Partial(lhs, rhs, o, i0, i1, i2);
    var q := kern.Partial(lhs, rhs, o, i0, i1, i2 + 1);
    var u := kern.ItemUpdate(lhs, rhs, p, (i0, i1, i2));
    forall idx | 0 <= idx < |o|
      ensures u[idx] == q[idx]
    {
      if kern.Owns(idx, (i0, i1, i2)) {
        assert p[idx] == o[idx];
      }
    }
  }
}
