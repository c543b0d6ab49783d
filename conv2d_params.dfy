/**
 * Convolution descriptors shared by the selector and the filter transform:
 * the shape parameters of one 2D convolution, the algorithm tags a selector
 * can return, and the three convolution directions.
 */
module Conv2D {

  /** The shape of one convolution. Dimensions are counts, so naturals. */
  datatype Conv2DParams = Conv2DParams(
    channels: nat,
    features: nat,
    batch: nat,
    inRows: nat,
    inCols: nat,
    windowRows: nat,
    windowCols: nat,
    strideRows: nat,
    strideCols: nat,
    outRows: nat,
    outCols: nat,
    padRows: nat,
    padCols: nat,
    dilationRows: nat,
    dilationCols: nat)

  /** The algorithm a selector chooses for a convolution, or `NotSupported`. */
  datatype Algorithm = Direct | Tiled | Im2col | Winograd | NotSupported

  /** The direction of a convolution. */
  datatype ConvType = Forward | InputBackprop | FilterBackprop
}
