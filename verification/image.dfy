/**
 * The parts of an image header the framework functions look at. Pixel data is not
 * modelled: an image is identified by the address of its origin pixel, and the
 * layout of its pixels by its sizes, strides and tensor stride.
 */
module Images {
  import opened DataTypes

  /**
   * The tensor shape of each pixel: `elements` values are stored per pixel, forming a
   * `rows` x `cols` matrix. Only vectors and column-major matrices store their elements
   * in normal order; other shapes (diagonal, symmetric, triangular, row-major) need a
   * look-up table with one entry per matrix element to be expanded to a full matrix.
   */
  datatype Tensor = Tensor(elements: nat, rows: nat, cols: nat, normalOrder: bool)
  {
    predicate IsScalar() { elements == 1 }
    predicate Valid() { 1 <= elements <= rows * cols }
  }

  /** The tensor of a scalar image. */
  const ScalarTensor: Tensor := Tensor(1, 1, 1, true)

  /** Every size is at least 1, as for any forged image. */
  predicate AllPositive(sizes: seq<nat>) {
    forall d :: 0 <= d < |sizes| ==> sizes[d] >= 1
  }

  datatype Image = Image(
    forged: bool,
    sizes: seq<nat>,
    strides: seq<int>,
    tensor: Tensor,
    tensorStride: int,
    dataType: DataType,
    origin: nat,
    pixelSize: seq<real>,
    colorSpace: string)
  {
    /** A forged image has one stride per dimension. */
    predicate WellFormed() { forged ==> |sizes| == |strides| }
  }
}
