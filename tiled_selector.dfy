/**
 * The tiled-convolution selector: it chooses the tiled algorithm exactly for
 * square windows with square strides whose (window, stride) pair is one of the
 * five the tiled kernels are instantiated for, and rejects everything else.
 */
module TiledSelector {
  import opened Conv2D

  /** The (window, stride) pairs the tiled kernels support. */
  const TiledConfigs: set<(nat, nat)> := {(1, 1), (1, 2), (3, 1), (3, 2), (5, 1)}

  /** Square window and square stride. */
  predicate IsSquare(p: Conv2DParams) {
    p.windowRows == p.windowCols && p.strideRows == p.strideCols
  }

  /**
   * `TiledSelector::select`. Total: every parameter set gets `Tiled` or
   * `NotSupported`, and `Tiled` exactly for the square allow-listed shapes.
   */
  function Select(p: Conv2DParams): (a: Algorithm)
    ensures a == Tiled || a == NotSupported
    ensures a == Tiled <==> IsSquare(p) && (p.windowRows, p.strideRows) in TiledConfigs
  {
    if p.windowRows != p.windowCols || p.strideRows != p.strideCols then
      NotSupported
    else if p.windowRows == 1 && p.strideRows == 2 then
      Tiled
    else if p.windowRows == 1 && p.strideRows == 1 then
      Tiled
    else if p.windowRows == 3 && p.strideRows == 2 then
      Tiled
    else if p.windowRows == 3 && p.strideRows == 1 then
      Tiled
    else if p.windowRows == 5 && p.strideRows == 1 then
      Tiled
    else
      NotSupported
  }

  /** A non-square window or stride is rejected whatever the other fields hold. */
  lemma NonSquareRejected(p: Conv2DParams)
    requires p.windowRows != p.windowCols || p.strideRows != p.strideCols
    ensures Select(p) == NotSupported
  {
  }

  /** Every square shape outside the allow-list is rejected. */
  lemma UnlistedSquareRejected(p: Conv2DParams)
    requires IsSquare(p)
    requires (p.windowRows, p.strideRows) !in TiledConfigs
    ensures Select(p) == NotSupported
  {
  }

  /** The choice reads only the window and stride fields. */
  lemma SelectReadsOnlyWindowAndStride(p: Conv2DParams, q: Conv2DParams)
    requires p.windowRows == q.windowRows && p.windowCols == q.windowCols
    requires p.strideRows == q.strideRows && p.strideCols == q.strideCols
    ensures Select(p) == Select(q)
  {
  }
}
