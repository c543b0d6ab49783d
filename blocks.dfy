/**
 * Register tiles and the four tile operations the matmul kernel is built from:
 * load a tile (optionally transposed), scale it, multiply-accumulate two tiles
 * into a third, and store a tile. Their bodies are not part of this model;
 * each is given the meaning its name and call sites imply. A bounds-checked
 * load reads zero for positions outside the matrix and a bounds-checked store
 * skips them; the unchecked forms require the whole tile to lie inside.
 */
module MatmulBlocks {
  import opened Arith

  /** A rows-by-cols tile, row by row. */
  type Block = seq<seq<int>>

  predicate IsBlock(blk: Block, rows: nat, cols: nat) {
    |blk| == rows && forall i :: 0 <= i < rows ==> |blk[i]| == cols
  }

  /**
   * Row-major position of element (r, c) of a rows-by-cols matrix stored from
   * `base`; it lies inside the matrix's storage.
   */
  function Flat(base: nat, r: nat, c: nat, rows: nat, cols: nat): (idx: nat)
    requires r < rows && c < cols
    ensures base <= idx < base + rows * cols
  {
    FlatBound(r, c, rows, cols);
    base + r * cols + c
  }

  /**
   * Position of the logical element (r, c) of a rows-by-cols matrix stored
   * from `base`: row-major, or column-major when the matrix is stored
   * transposed. It lies inside the matrix's storage.
   */
  function ElemIndex(base: nat, r: nat, c: nat, rows: nat, cols: nat, transposed: bool): (idx: nat)
    requires r < rows && c < cols
    ensures base <= idx < base + rows * cols
  {
    if transposed then Flat(base, c, r, cols, rows) else Flat(base, r, c, rows, cols)
  }

  /** The logical element (r, c) of the matrix stored in `buf` from `base`. */
  function MatrixAt(buf: seq<int>, base: nat, r: nat, c: nat, rows: nat, cols: nat, transposed: bool): int
    requires r < rows && c < cols && base + rows * cols <= |buf|
  {
    buf[ElemIndex(base, r, c, rows, cols, transposed)]
  }

  /**
   * `load<R, C, Transpose>(ptr, row, col, rows, cols)`: the R-by-C tile of the
   * logical matrix whose top-left corner is (row, col). Positions outside the
   * matrix read as zero; without bounds checks the tile must lie inside, and
   * then it holds exactly the same values.
   */
  method Load(buf: seq<int>, base: nat, row: nat, col: nat, rows: nat, cols: nat,
              transposed: bool, checkBounds: bool, R: nat, C: nat) returns (blk: Block)
    requires base + rows * cols <= |buf|
    requires !checkBounds ==> row + R <= rows && col + C <= cols
    ensures IsBlock(blk, R, C)
    ensures forall i, j :: 0 <= i < R && 0 <= j < C ==>
      blk[i][j] == if row + i < rows && col + j < cols
                   then MatrixAt(buf, base, row + i, col + j, rows, cols, transposed)
                   else 0
  {
    blk := seq(R, i requires 0 <= i < R =>
      seq(C, j requires 0 <= j < C =>
        if !checkBounds || (row + i < rows && col + j < cols)
        then MatrixAt(buf, base, row + i, col + j, rows, cols, transposed)
        else 0));
  }

  /** The all-zero tile a fresh `VectorBlock` holds. */
  method ZeroBlock(R: nat, C: nat) returns (blk: Block)
    ensures IsBlock(blk, R, C)
    ensures forall i, j :: 0 <= i < R && 0 <= j < C ==> blk[i][j] == 0
  {
    blk := seq(R, i => seq(C, j => 0));
  }

  /** `scalar_multiply(blk, s)`: every element times `s`. */
  method Scale(blk: Block, s: int, R: nat, C: nat) returns (r: Block)
    requires IsBlock(blk, R, C)
    ensures IsBlock(r, R, C)
    ensures forall i, j :: 0 <= i < R && 0 <= j < C ==> r[i][j] == s * blk[i][j]
  {
    r := seq(R, i requires 0 <= i < R => seq(C, j requires 0 <= j < C => s * blk[i][j]));
  }

  /** Sum over q < len of a[i][q] * b[q][j]: one entry of a tile product, truncated. */
  function RowColDot(a: Block, b: Block, i: nat, j: nat, len: nat): int
    requires i < |a| && len <= |a[i]| && len <= |b|
    requires forall q :: 0 <= q < len ==> j < |b[q]|
  {
    if len == 0 then 0 else RowColDot(a, b, i, j, len - 1) + a[i][len - 1] * b[len - 1][j]
  }

  /** `block_mmacc(a, b, acc)`: acc plus the R-by-K times K-by-C tile product. */
  method MmAcc(a: Block, b: Block, acc: Block, R: nat, K: nat, C: nat) returns (r: Block)
    requires IsBlock(a, R, K) && IsBlock(b, K, C) && IsBlock(acc, R, C)
    ensures IsBlock(r, R, C)
    ensures forall i, j :: 0 <= i < R && 0 <= j < C ==> r[i][j] == acc[i][j] + RowColDot(a, b, i, j, K)
  {
    r := seq(R, i requires 0 <= i < R => seq(C, j requires 0 <= j < C => acc[i][j] + RowColDot(a, b, i, j, K)));
  }

  /** `s` is `o` with `v[..count]` written from `start`. */
  ghost predicate RowCopied(s: seq<int>, o: seq<int>, v: seq<int>, start: nat, count: nat)
    requires count <= |v|
  {
    && KeptOutside(s, o, start, start + count)
    && start + count <= |s|
    && forall j :: 0 <= j < count ==> s[start + j] == v[j]
  }

  /** Writes the first `count` elements of `v` into `out` from `start`; nothing else changes. */
  method StoreRow(v: seq<int>, out: array<int>, start: nat, count: nat)
    requires count <= |v| && start + count <= out.Length
    modifies out
    ensures RowCopied(out[..], old(out[..]), v, start, count)
  {
    var j := 0;
    while j < count
      invariant 0 <= j <= count
      invariant RowCopied(out[..], old(out[..]), v, start, j)
    {
      out[start + j] := v[j];
      j := j + 1;
    }
  }

  /** The in-matrix cells of the first `i` rows of the tile hold the tile's values in `s`. */
  ghost predicate RowsWritten(s: seq<int>, blk: Block, base: nat, row: nat, col: nat,
                              rows: nat, cols: nat, C: nat, i: nat)
    requires |blk| >= i && forall i' :: 0 <= i' < i ==> |blk[i']| == C
  {
    && base + rows * cols <= |s|
    && forall i', j :: 0 <= i' < i && 0 <= j < C && row + i' < rows && col + j < cols ==>
         s[Flat(base, row + i', col + j, rows, cols)] == blk[i'][j]
  }

  /** Every matrix cell outside the first `i` rows of the tile has the same value in `s` and `o`. */
  ghost predicate CellsKept(s: seq<int>, o: seq<int>, base: nat, row: nat, col: nat,
                            rows: nat, cols: nat, C: nat, i: nat)
  {
    && base + rows * cols <= |s| && |s| == |o|
    && forall r, c :: 0 <= r < rows && 0 <= c < cols && !(row <= r < row + i && col <= c < col + C) ==>
         s[Flat(base, r, c, rows, cols)] == o[Flat(base, r, c, rows, cols)]
  }

  /** Every element outside `[lo, hi)` has the same value in `s` and `o`. */
  ghost predicate KeptOutside(s: seq<int>, o: seq<int>, lo: nat, hi: nat) {
    |s| == |o| && forall idx :: 0 <= idx < |s| && !(lo <= idx < hi) ==> s[idx] == o[idx]
  }

  /**
   * `s` is `o` after storing the R-by-C tile `blk` with its corner at (row, col)
   * of the rows-by-cols row-major matrix held from `base`: every in-matrix
   * position of the tile holds the tile's value, every other matrix cell and
   * every element outside the matrix keeps its value.
   */
  ghost predicate BlockStored(s: seq<int>, o: seq<int>, blk: Block, base: nat, row: nat, col: nat,
                              rows: nat, cols: nat, R: nat, C: nat)
    requires IsBlock(blk, R, C)
  {
    && RowsWritten(s, blk, base, row, col, rows, cols, C, R)
    && CellsKept(s, o, base, row, col, rows, cols, C, R)
    && KeptOutside(s, o, base, base + rows * cols)
  }

  /**
   * `store_block(blk, ptr, row, col, ...)`: writes the tile into the rows-by-cols
   * row-major matrix stored in `out` from `base`, with its corner at (row, col).
   * Every in-matrix position of the tile gets the tile's value; every other
   * element of `out` keeps its value.
   */
  method StoreBlock(blk: Block, out: array<int>, base: nat, row: nat, col: nat,
                    rows: nat, cols: nat, checkBounds: bool, R: nat, C: nat)
    requires IsBlock(blk, R, C)
    requires base + rows * cols <= out.Length
    requires !checkBounds ==> row + R <= rows && col + C <= cols
    modifies out
    ensures BlockStored(out[..], old(out[..]), blk, base, row, col, rows, cols, R, C)
  {
    ghost var o := out[..];
    var count := if col >= cols then 0 else if col + C <= cols then C else cols - col;
    var i := 0;
    while i < R
      invariant 0 <= i <= R
      invariant RowsWritten(out[..], blk, base, row, col, rows, cols, C, i)
      invariant CellsKept(out[..], o, base, row, col, rows, cols, C, i)
      invariant KeptOutside(out[..], o, base, base + rows * cols)
    {
      if row + i < rows && col < cols {
        StoreTileRow(blk, out, base, row, col, rows, cols, C, i, count, o);
      }
      i := i + 1;
    }
  }

  /** One step of `StoreBlock`: stores the in-matrix part of tile row `i`. */
  method StoreTileRow(blk: Block, out: array<int>, base: nat, row: nat, col: nat,
                      rows: nat, cols: nat, C: nat, i: nat, count: nat, ghost o: seq<int>)
    requires |blk| > i && forall i' :: 0 <= i' < |blk| ==> |blk[i']| == C
    requires row + i < rows && col < cols
    requires count == if col + C <= cols then C else cols - col
    requires RowsWritten(out[..], blk, base, row, col, rows, cols, C, i)
    requires CellsKept(out[..], o, base, row, col, rows, cols, C, i)
    requires KeptOutside(out[..], o, base, base + rows * cols)
    modifies out
    ensures RowsWritten(out[..], blk, base, row, col, rows, cols, C, i + 1)
    ensures CellsKept(out[..], o, base, row, col, rows, cols, C, i + 1)
    ensures KeptOutside(out[..], o, base, base + rows * cols)
  {
    var rowStart := Flat(base, row + i, col, rows, cols);
    RowInMatrix(base, row + i, col, rows, cols, count);
    ghost var before := out[..];
    StoreRow(blk[i], out, rowStart, count);
    WrittenStep(before, out[..], blk, base, row, col, rows, cols, C, i, rowStart, count);
    KeptStep(before, out[..], o, base, row, col, rows, cols, C, i, rowStart, count);
    OutsideStep(before, out[..], o, base, row + i, col, rows, cols, rowStart, count);
  }

  /** A run of `count` cells from (r, col), `col + count <= cols`, lies inside the matrix. */
  lemma RowInMatrix(base: nat, r: nat, col: nat, rows: nat, cols: nat, count: nat)
    requires r < rows && col < cols && col + count <= cols
    ensures Flat(base, r, col, rows, cols) + count <= base + rows * cols
  {
    MulMono(r + 1, rows, cols);
  }

  /**
   * Writing `count` consecutive elements from (r, col) of a row-major matrix,
   * `col + count <= cols`, leaves every other row alone.
   */
  lemma RowOnlyTouchesItsRow(before: seq<int>, after: seq<int>, base: nat, r: nat, col: nat,
                             rows: nat, cols: nat, rowStart: nat, count: nat)
    requires r < rows && col < cols && rowStart == Flat(base, r, col, rows, cols) && col + count <= cols
    requires KeptOutside(after, before, rowStart, rowStart + count)
    requires base + rows * cols <= |after|
    ensures forall r', c :: 0 <= r' < rows && 0 <= c < cols && r' != r ==>
      after[Flat(base, r', c, rows, cols)] == before[Flat(base, r', c, rows, cols)]
  {
    forall r', c | 0 <= r' < rows && 0 <= c < cols && r' != r
      ensures after[Flat(base, r', c, rows, cols)] == before[Flat(base, r', c, rows, cols)]
    {
      var idx := Flat(base, r', c, rows, cols);
      if rowStart <= idx < rowStart + count {
        var t := idx - rowStart;
        assert Flat(base, r, col + t, rows, cols) == idx;
        FlatUnique(r, col + t, r', c, cols);
      }
    }
  }

  /** Storing tile row `i` adds that row's cells to `RowsWritten`. */
  lemma WrittenStep(before: seq<int>, after: seq<int>, blk: Block, base: nat, row: nat, col: nat,
                    rows: nat, cols: nat, C: nat, i: nat, rowStart: nat, count: nat)
    requires |blk| > i && forall i' :: 0 <= i' <= i ==> |blk[i']| == C
    requires RowsWritten(before, blk, base, row, col, rows, cols, C, i)
    requires row + i < rows && col < cols && rowStart == Flat(base, row + i, col, rows, cols)
    requires count == if col + C <= cols then C else cols - col
    requires RowCopied(after, before, blk[i], rowStart, count)
    ensures RowsWritten(after, blk, base, row, col, rows, cols, C, i + 1)
  {
    RowOnlyTouchesItsRow(before, after, base, row + i, col, rows, cols, rowStart, count);
    forall i', j | 0 <= i' < i + 1 && 0 <= j < C && row + i' < rows && col + j < cols
      ensures after[Flat(base, row + i', col + j, rows, cols)] == blk[i'][j]
    {
      if i' == i {
        assert Flat(base, row + i, col + j, rows, cols) == rowStart + j;
      } else {
        assert after[Flat(base, row + i', col + j, rows, cols)] == before[Flat(base, row + i', col + j, rows, cols)];
      }
    }
  }

  /** Storing tile row `i` keeps every cell outside the tile's first `i + 1` rows. */
  lemma KeptStep(before: seq<int>, after: seq<int>, o: seq<int>, base: nat, row: nat, col: nat,
                 rows: nat, cols: nat, C: nat, i: nat, rowStart: nat, count: nat)
    requires CellsKept(before, o, base, row, col, rows, cols, C, i)
    requires row + i < rows && col < cols && rowStart == Flat(base, row + i, col, rows, cols)
    requires count == if col + C <= cols then C else cols - col
    requires KeptOutside(after, before, rowStart, rowStart + count)
    ensures CellsKept(after, o, base, row, col, rows, cols, C, i + 1)
  {
    RowOnlyTouchesItsRow(before, after, base, row + i, col, rows, cols, rowStart, count);
    forall r, c | 0 <= r < rows && 0 <= c < cols && !(row <= r < row + i + 1 && col <= c < col + C)
      ensures after[Flat(base, r, c, rows, cols)] == o[Flat(base, r, c, rows, cols)]
    {
      if r == row + i {
        assert !(rowStart <= Flat(base, r, c, rows, cols) < rowStart + count);
      }
    }
  }

  /** Storing a row of the matrix keeps everything outside the matrix. */
  lemma OutsideStep(before: seq<int>, after: seq<int>, o: seq<int>, base: nat, r: nat, col: nat,
                    rows: nat, cols: nat, rowStart: nat, count: nat)
    requires r < rows && col < cols && rowStart == Flat(base, r, col, rows, cols) && col + count <= cols
    requires KeptOutside(before, o, base, base + rows * cols)
    requires KeptOutside(after, before, rowStart, rowStart + count)
    ensures KeptOutside(after, o, base, base + rows * cols)
  {
    RowInMatrix(base, r, col, rows, cols, count);
  }
}
