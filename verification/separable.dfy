/**
 * The separable framework driver: it validates the per-dimension parameters, decides
 * the order in which dimensions are filtered, and runs one pass per dimension. Each
 * pass reads from the input, intermediate or output image, optionally stages every
 * image line in a line buffer (type conversion, tensor expansion, border extension),
 * calls the line filter, and optionally copies the result back.
 *
 * Pixel data is not modelled. The copy into a buffer, the border extension, the line
 * filter and the copy back are recorded as events, so the model states what is copied
 * where and in which order. The line iterator contributes only its number of lines.
 */
module Separable {
  import opened Errors
  import opened DataTypes
  import opened Images
  import opened Sorting

  datatype SeparableOption =
    | AsScalarImage          // fold the tensor into a spatial dimension
    | ExpandTensorInBuffer   // expand a non-normal tensor into a full matrix
    | UseInputBuffer         // always stage input lines
    | UseOutputBuffer        // always stage output lines
    | UseOutputBorder        // the output buffer has the same border as the input buffer
    | DontResizeOutput       // keep the sizes of an existing output image

  /** How a line buffer is extended past the ends of the image line. */
  datatype BoundaryCondition =
    | SymmetricMirror | AsymmetricMirror | Periodic | AsymmetricPeriodic
    | AddZeros | AddMaxValue | AddMinValue
    | ZeroOrderExtrapolate | FirstOrderExtrapolate | SecondOrderExtrapolate | ThirdOrderExtrapolate

  const DefaultBoundaryCondition: BoundaryCondition := SymmetricMirror

  // ---------------------------------------------------------------------------------
  // Parameter validation
  // ---------------------------------------------------------------------------------

  /** A per-dimension parameter array may have no entry, one entry, or one per dimension. */
  predicate LengthAccepted(len: nat, n: nat) {
    len == 0 || len == 1 || len == n
  }

  /**
   * Broadcasts a per-dimension parameter to `n` dimensions: no entry gives the default
   * everywhere, one entry is repeated, `n` entries are kept.
   */
  function ArrayUseParameter<T>(a: seq<T>, n: nat, defaultValue: T): (r: Result<seq<T>>)
    ensures r.Success? <==> LengthAccepted(|a|, n)
    ensures r.Failure? ==> r.error == ArrayParameterWrongLength
    ensures r.Success? ==> |r.value| == n
    ensures r.Success? && |a| == n ==> r.value == a
    ensures r.Success? && |a| == 0 ==> forall i :: 0 <= i < n ==> r.value[i] == defaultValue
    ensures r.Success? && |a| == 1 ==> forall i :: 0 <= i < n ==> r.value[i] == a[0]
  {
    if |a| == 0 then Success(seq(n, _ => defaultValue))
    else if |a| == 1 then Success(seq(n, _ => a[0]))
    else if |a| == n then Success(a)
    else Failure(ArrayParameterWrongLength)
  }

  /** An empty `process` array means that every dimension is processed. */
  function DefaultProcess(process: seq<bool>, n: nat): (p: seq<bool>)
    ensures |process| == 0 ==> |p| == n && forall d :: 0 <= d < n ==> p[d]
    ensures |process| != 0 ==> p == process
  {
    if |process| == 0 then seq(n, _ => true) else process
  }

  /** A non-empty `process` array of the right length that selects no dimension. */
  predicate NothingToProcess(process: seq<bool>, n: nat) {
    |process| != 0 && |process| == n && true !in process
  }

  /** The `process` array lets the driver go on. */
  predicate ProcessAccepted(process: seq<bool>, n: nat) {
    |process| == 0 || (|process| == n && true in process)
  }

  /** Every dimension that is not processed has the same size in input and output. */
  predicate UnprocessedSizesMatch(process: seq<bool>, inSizes: seq<nat>, outSizes: seq<nat>)
    requires |process| == |inSizes| == |outSizes|
  {
    forall ii :: 0 <= ii < |process| && !process[ii] ==> inSizes[ii] == outSizes[ii]
  }

  /** The dimension-by-dimension check of an output whose sizes are kept. */
  method CheckUnprocessedSizes(process: seq<bool>, inSizes: seq<nat>, outSizes: seq<nat>)
    returns (r: Result<()>)
    requires |process| == |inSizes| == |outSizes|
    ensures r.Success? <==> UnprocessedSizesMatch(process, inSizes, outSizes)
    ensures r.Failure? ==> r.error == OutputSizeMismatch
  {
    for ii := 0 to |process|
      invariant forall k :: 0 <= k < ii && !process[k] ==> inSizes[k] == outSizes[k]
    {
      if !process[ii] && inSizes[ii] != outSizes[ii] {
        return Failure(OutputSizeMismatch);
      }
    }
    return Success(());
  }

  /** All parameter checks pass. */
  predicate Accepted(n: nat, process: seq<bool>, border: seq<nat>, boundary: seq<BoundaryCondition>,
                     opts: set<SeparableOption>, outSizes: seq<nat>, inSizes: seq<nat>)
    requires |inSizes| == n
  {
    ProcessAccepted(process, n) && LengthAccepted(|border|, n) && LengthAccepted(|boundary|, n)
    && (DontResizeOutput in opts ==>
          |outSizes| == n && UnprocessedSizesMatch(DefaultProcess(process, n), inSizes, outSizes))
  }

  // ---------------------------------------------------------------------------------
  // Folding the tensor into a spatial dimension
  // ---------------------------------------------------------------------------------

  /** The image with its tensor turned into a new spatial dimension at index `at`. */
  function TensorToSpatial(img: Image, at: nat): (r: Image)
    requires at <= |img.sizes| && at <= |img.strides|
    ensures |r.sizes| == |img.sizes| + 1 && |r.strides| == |img.strides| + 1
    ensures r.sizes[at] == img.tensor.elements && r.strides[at] == img.tensorStride
    ensures forall d :: 0 <= d < at ==> r.sizes[d] == img.sizes[d] && r.strides[d] == img.strides[d]
    ensures forall d :: at <= d < |img.sizes| ==> r.sizes[d + 1] == img.sizes[d]
    ensures forall d :: at <= d < |img.strides| ==> r.strides[d + 1] == img.strides[d]
    ensures r.tensor == ScalarTensor && r.origin == img.origin && r.dataType == img.dataType
  {
    img.(sizes := img.sizes[..at] + [img.tensor.elements] + img.sizes[at..],
         strides := img.strides[..at] + [img.tensorStride] + img.strides[at..],
         tensor := ScalarTensor, tensorStride := 1)
  }

  /** The input image and the per-dimension parameters after folding. */
  datatype Folded = Folded(image: Image, process: seq<bool>, border: seq<nat>, boundary: seq<BoundaryCondition>)

  /**
   * The fold as written: the tensor becomes dimension 0 and `process` gets a leading
   * `false`, but `border` and `boundary` keep their old indexing.
   */
  function FoldAsWritten(img: Image, process: seq<bool>, border: seq<nat>, boundary: seq<BoundaryCondition>)
    : (f: Folded)
    requires |img.sizes| == |img.strides| == |process|
    ensures f.image == TensorToSpatial(img, 0)
    ensures |f.process| == |process| + 1 && !f.process[0]
    ensures forall d :: 0 <= d < |process| ==> f.process[d + 1] == process[d]
    ensures f.border == border && f.boundary == boundary
  {
    Folded(TensorToSpatial(img, 0), [false] + process, border, boundary)
  }

  /**
   * The fold as used by this model: the tensor becomes a new last dimension that is
   * never processed, so every processed dimension keeps its index, its size, its stride,
   * its border and its boundary condition.
   */
  function Fold(img: Image, process: seq<bool>, border: seq<nat>, boundary: seq<BoundaryCondition>)
    : (f: Folded)
    requires |img.sizes| == |img.strides| == |process| == |border| == |boundary|
    ensures var n := |process|;
      |f.process| == |f.border| == |f.boundary| == |f.image.sizes| == |f.image.strides| == n + 1
      && !f.process[n] && f.image.sizes[n] == img.tensor.elements && f.image.tensor == ScalarTensor
    ensures forall d :: 0 <= d < |f.process| && f.process[d] ==> d < |process| && process[d]
    ensures forall d :: 0 <= d < |process| ==>
      f.process[d] == process[d] && f.border[d] == border[d] && f.boundary[d] == boundary[d]
      && f.image.sizes[d] == img.sizes[d] && f.image.strides[d] == img.strides[d]
  {
    Folded(TensorToSpatial(img, |img.sizes|), process + [false], border + [0], boundary + [DefaultBoundaryCondition])
  }

  /**
   * With the fold as written, the dimension that was `d - 1` is now dimension `d` and is
   * processed as before, but it is given the border and the boundary condition of the old
   * dimension `d`; and when the last dimension is processed, its new index is one past the
   * end of the border and boundary arrays.
   */
  lemma FoldAsWrittenMisindexesBorder(img: Image, process: seq<bool>, border: seq<nat>, boundary: seq<BoundaryCondition>)
    requires |img.sizes| == |img.strides| == |process| == |border| == |boundary| >= 1
    ensures var f := FoldAsWritten(img, process, border, boundary);
      var n := |process|;
      |f.process| == n + 1 && |f.border| == n && |f.boundary| == n
      && (forall d :: 1 <= d < n ==>
            f.process[d] == process[d - 1] && f.image.sizes[d] == img.sizes[d - 1]
            && f.border[d] == border[d] && f.boundary[d] == boundary[d])
      && (process[n - 1] ==> f.process[n])
  {
  }

  /** A 10x10 image of 3-vectors with borders [2, 1], folded as this model does it, keeps every border with its dimension. */
  lemma FoldKeepsBorder()
    ensures var img := Image(true, [10, 10], [3, 30], Tensor(3, 3, 1, true), 1, SFloat, 0, [], "");
      var f := Fold(img, [true, true], [2, 1], [SymmetricMirror, SymmetricMirror]);
      f.process == [true, true, false] && f.border[..2] == [2, 1] && f.image.sizes == [10, 10, 3]
  {
  }

  // ---------------------------------------------------------------------------------
  // Processing order
  // ---------------------------------------------------------------------------------

  /** Strides as sort keys. */
  function StrideKeys(strides: seq<int>): (k: seq<real>)
    ensures |k| == |strides| && forall d :: 0 <= d < |strides| ==> k[d] == strides[d] as real
  {
    seq(|strides|, d requires 0 <= d < |strides| => strides[d] as real)
  }

  /** The factor by which each dimension grows from input to output, as sort keys. */
  function GrowKeys(inSizes: seq<nat>, outSizes: seq<nat>): (k: seq<real>)
    requires |inSizes| == |outSizes| && AllPositive(inSizes)
    ensures |k| == |inSizes|
    ensures forall d :: 0 <= d < |inSizes| ==> k[d] == (outSizes[d] as real) / (inSizes[d] as real)
  {
    seq(|inSizes|, d requires 0 <= d < |inSizes| => (outSizes[d] as real) / (inSizes[d] as real))
  }

  /** Comparing grow factors is comparing the cross products of the sizes. */
  lemma GrowByCrossMultiplication(inSizes: seq<nat>, outSizes: seq<nat>, a: nat, b: nat)
    requires |inSizes| == |outSizes| && AllPositive(inSizes) && a < |inSizes| && b < |inSizes|
    ensures var g := GrowKeys(inSizes, outSizes);
      (g[a] < g[b] <==> outSizes[a] * inSizes[b] < outSizes[b] * inSizes[a])
      && (g[a] == g[b] <==> outSizes[a] * inSizes[b] == outSizes[b] * inSizes[a])
  {
    var g := GrowKeys(inSizes, outSizes);
    var ia, ib := inSizes[a] as real, inSizes[b] as real;
    var oa, ob := outSizes[a] as real, outSizes[b] as real;
    assert g[a] * ia == oa && g[b] * ib == ob;
    var prod := ia * ib;
    assert prod > 0.0;
    assert g[a] * prod == oa * ib;
    assert g[b] * prod == ob * ia;
    assert (outSizes[a] * inSizes[b]) as real == oa * ib;
    assert (outSizes[b] * inSizes[a]) as real == ob * ia;
    if g[a] < g[b] {
      assert g[a] * prod < g[b] * prod;
    } else if g[b] < g[a] {
      assert g[b] * prod < g[a] * prod;
    }
  }

  /**
   * The order in which the passes process dimensions `a` and `b`: when sorting by
   * growth, the dimension that grows least (shrinks most) goes first; then the one with
   * the smaller stride; then the lower index.
   */
  predicate Precedes(a: nat, b: nat, strides: seq<int>, inSizes: seq<nat>, outSizes: seq<nat>, byGrow: bool)
    requires a < |strides| && b < |strides| && a < |inSizes| && b < |inSizes| && a < |outSizes| && b < |outSizes|
  {
    var growA, growB := outSizes[a] * inSizes[b], outSizes[b] * inSizes[a];
    if byGrow && growA != growB then growA < growB
    else if strides[a] != strides[b] then strides[a] < strides[b]
    else a < b
  }

  /** Sorted by stride, ties in increasing index order. */
  predicate StrideOrdered(s: seq<nat>, strides: seq<int>)
    requires forall k :: 0 <= k < |s| ==> s[k] < |strides|
  {
    forall i, j :: 0 <= i < j < |s| ==>
      strides[s[i]] < strides[s[j]] || (strides[s[i]] == strides[s[j]] && s[i] < s[j])
  }

  lemma StrideSortOrders(r: seq<nat>, s: seq<nat>, strides: seq<int>)
    requires forall k :: 0 <= k < |s| ==> s[k] < |strides|
    requires forall i, j :: 0 <= i < j < |s| ==> s[i] < s[j]
    requires HasKeys(r, StrideKeys(strides)) && StablySorted(r, s, StrideKeys(strides))
    ensures StrideOrdered(r, strides)
  {
    var key := StrideKeys(strides);
    forall i, j | 0 <= i < j < |r|
      ensures strides[r[i]] < strides[r[j]] || (strides[r[i]] == strides[r[j]] && r[i] < r[j])
    {
      if key[r[i]] == key[r[j]] {
        var a, b :| 0 <= a < b < |s| && s[a] == r[i] && s[b] == r[j];
      }
    }
  }

  lemma GrowSortOrders(r: seq<nat>, s: seq<nat>, strides: seq<int>, inSizes: seq<nat>, outSizes: seq<nat>)
    requires |strides| == |inSizes| == |outSizes| && AllPositive(inSizes)
    requires forall k :: 0 <= k < |s| ==> s[k] < |strides|
    requires StrideOrdered(s, strides)
    requires HasKeys(r, GrowKeys(inSizes, outSizes)) && StablySorted(r, s, GrowKeys(inSizes, outSizes))
    ensures forall i, j :: 0 <= i < j < |r| ==> Precedes(r[i], r[j], strides, inSizes, outSizes, true)
  {
    var key := GrowKeys(inSizes, outSizes);
    forall i, j | 0 <= i < j < |r|
      ensures Precedes(r[i], r[j], strides, inSizes, outSizes, true)
    {
      GrowByCrossMultiplication(inSizes, outSizes, r[i], r[j]);
      if key[r[i]] == key[r[j]] {
        var a, b :| 0 <= a < b < |s| && s[a] == r[i] && s[b] == r[j];
      }
    }
  }

  /** The processed dimensions in increasing order. */
  method ProcessedDimensions(process: seq<bool>) returns (dims: seq<nat>)
    ensures forall d: nat :: d in dims <==> d < |process| && process[d]
    ensures forall k :: 0 <= k < |dims| ==> dims[k] < |process|
    ensures forall i, j :: 0 <= i < j < |dims| ==> dims[i] < dims[j]
  {
    dims := [];
    for ii := 0 to |process|
      invariant forall d: nat :: d in dims <==> d < ii && process[d]
      invariant forall k :: 0 <= k < |dims| ==> dims[k] < ii
      invariant forall i, j :: 0 <= i < j < |dims| ==> dims[i] < dims[j]
    {
      if process[ii] {
        dims := dims + [ii];
      }
    }
  }

  lemma StrideOrderedPrecedes(s: seq<nat>, strides: seq<int>, inSizes: seq<nat>, outSizes: seq<nat>)
    requires |strides| == |inSizes| == |outSizes|
    requires forall k :: 0 <= k < |s| ==> s[k] < |strides|
    requires StrideOrdered(s, strides)
    ensures forall i, j :: 0 <= i < j < |s| ==> Precedes(s[i], s[j], strides, inSizes, outSizes, false)
  {
  }

  /**
   * The list of processed dimensions, sorted by stride and then, when `byGrow`, by
   * growth; both sorts are stable.
   */
  method ProcessingOrder(process: seq<bool>, strides: seq<int>, inSizes: seq<nat>, outSizes: seq<nat>, byGrow: bool)
    returns (order: seq<nat>)
    requires |strides| == |process| == |inSizes| == |outSizes| && AllPositive(inSizes)
    ensures forall d: nat :: d in order <==> d < |process| && process[d]
    ensures forall k :: 0 <= k < |order| ==> order[k] < |process|
    ensures Distinct(order)
    ensures forall i, j :: 0 <= i < j < |order| ==>
      Precedes(order[i], order[j], strides, inSizes, outSizes, byGrow)
  {
    var byIndex := ProcessedDimensions(process);
    var strideKeys := StrideKeys(strides);
    var byStride := SortIndices(byIndex, strideKeys);
    SortIndicesIsStable(byIndex, strideKeys);
    StrideSortOrders(byStride, byIndex, strides);
    SortedIsDistinct(byStride, byIndex, strideKeys);
    assert forall d :: d in byStride <==> d in multiset(byIndex);
    if byGrow {
      var growKeys := GrowKeys(inSizes, outSizes);
      order := SortIndices(byStride, growKeys);
      SortIndicesIsStable(byStride, growKeys);
      GrowSortOrders(order, byStride, strides, inSizes, outSizes);
      SortedIsDistinct(order, byStride, growKeys);
      assert forall d :: d in order <==> d in multiset(byStride);
    } else {
      order := byStride;
      StrideOrderedPrecedes(order, strides, inSizes, outSizes);
    }
  }

  // ---------------------------------------------------------------------------------
  // The plan of one pass
  // ---------------------------------------------------------------------------------

  datatype Role = InputImage | IntermediateImage | OutputImage

  /** Everything the passes share. */
  datatype Setup = Setup(
    input: Image,               // the (possibly folded) input
    output: Image,              // the (possibly folded) reforged output
    intermediate: Image,        // the output's shape in the buffer type
    useIntermediate: bool,
    process: seq<bool>,
    border: seq<nat>,
    boundary: seq<BoundaryCondition>,
    opts: set<SeparableOption>,
    bufferType: DataType,
    lookUpTable: nat,           // the number of entries of the tensor look-up table, 0 if none
    order: seq<nat>)

  predicate SetupOk(s: Setup) {
    var n := |s.process|;
    |s.input.sizes| == n && |s.input.strides| == n
    && |s.output.sizes| == n && |s.output.strides| == n
    && |s.intermediate.sizes| == n && |s.intermediate.strides| == n
    && |s.border| == n && |s.boundary| == n
    && AllPositive(s.input.sizes) && AllPositive(s.output.sizes) && AllPositive(s.intermediate.sizes)
    && forall k :: 0 <= k < |s.order| ==> s.order[k] < n
  }

  /** The first pass reads the input; later ones the intermediate image if there is one, else the output. */
  function InRole(s: Setup, rep: nat): Role {
    if rep == 0 then InputImage else if s.useIntermediate then IntermediateImage else OutputImage
  }

  /** The last pass writes the output; earlier ones the intermediate image if there is one, else the output. */
  function OutRole(s: Setup, rep: nat): Role {
    if rep + 1 == |s.order| then OutputImage else if s.useIntermediate then IntermediateImage else OutputImage
  }

  function ImageOf(s: Setup, role: Role): (img: Image)
    ensures SetupOk(s) ==>
      |img.sizes| == |img.strides| == |s.process| && AllPositive(img.sizes)
  {
    match role
    case InputImage => s.input
    case IntermediateImage => s.intermediate
    case OutputImage => s.output
  }

  /** Each pass reads what the pass before it wrote; the first reads the input, the last writes the output. */
  lemma PassesChain(s: Setup)
    ensures |s.order| > 0 ==> InRole(s, 0) == InputImage && OutRole(s, |s.order| - 1) == OutputImage
    ensures forall rep :: 0 < rep < |s.order| ==> InRole(s, rep) == OutRole(s, rep - 1)
    ensures forall rep :: 0 <= rep < |s.order| ==>
      (InRole(s, rep) == IntermediateImage || OutRole(s, rep) == IntermediateImage) ==> s.useIntermediate
  {
  }

  /** Where a line buffer's pixels are: in the pass's own storage, or in the image itself. */
  datatype Location = InStorage(offset: nat) | AtImageLine

  /** The description of an input or output line handed to the line filter (strides in samples). */
  datatype LineBuffer = LineBuffer(
    length: nat, border: nat, tensorLength: nat, tensorStride: int, stride: int, location: Location)

  datatype Pass = Pass(
    rep: nat,
    processingDim: nat,
    inRole: Role,
    outRole: Role,
    inLength: nat,
    inBorder: nat,
    outLength: nat,
    outBorder: nat,
    lookUpTable: nat,
    inUseBuffer: bool,
    outUseBuffer: bool,
    inBuffer: LineBuffer,
    outBuffer: LineBuffer,
    inStorage: nat,           // bytes of input-buffer storage (0 when no buffer is used)
    outStorage: nat,          // bytes of output-buffer storage (0 when no buffer is used)
    boundary: BoundaryCondition,
    lines: nat)

  /** The byte offset of a buffer's first pixel as written: past the border even for a stride-0 buffer. */
  function BufferOffsetAsWritten(stride: int, border: nat, pixelBytes: nat): (off: nat)
    ensures off == border * pixelBytes
  {
    border * pixelBytes
  }

  /** The byte offset of a buffer's first pixel: past the border, except for a one-pixel stride-0 buffer. */
  function BufferOffset(stride: int, border: nat, pixelBytes: nat): (off: nat)
    ensures stride != 0 ==> off == border * pixelBytes
    ensures stride == 0 ==> off == 0
  {
    if stride == 0 then 0 else border * pixelBytes
  }

  /**
   * With the offset as written, a stride-0 input buffer with a border points past its
   * one-pixel storage, and the pixel copied into it lies wholly outside the storage.
   */
  lemma StrideZeroBufferAsWrittenOverruns(border: nat, pixelBytes: nat)
    requires border >= 1 && pixelBytes >= 1
    ensures BufferOffsetAsWritten(0, border, pixelBytes) >= pixelBytes
  {
    assert border * pixelBytes == pixelBytes + (border - 1) * pixelBytes;
  }

  /** The product of the sizes of every dimension but `pd`: the number of image lines along `pd`. */
  function LinesAlong(sizes: seq<nat>, pd: nat): (n: nat)
    ensures AllPositive(sizes) ==> n >= 1
  {
    if sizes == [] then 1
    else
      var last := |sizes| - 1;
      var rest := LinesAlong(sizes[..last], pd);
      if last == pd then rest
      else
        assert AllPositive(sizes) ==> AllPositive(sizes[..last]) && sizes[last] >= 1;
        rest * sizes[last]
  }

  /** A line buffer and the bytes of storage the pass allocates for it. */
  datatype Staging = Staging(buffer: LineBuffer, storage: nat)

  /**
   * The input line of a pass: staged in a buffer of the buffer type (with room for the
   * border, or for one pixel when the image stride is 0), or read in place.
   */
  function InputStaging(inImage: Image, pd: nat, inLength: nat, inBorder: nat, lut: nat, sizeOf: nat, use: bool)
    : (st: Staging)
    requires pd < |inImage.strides|
    ensures use ==> st.buffer.location.InStorage? && st.buffer.tensorStride == 1
    ensures use && lut > 0 ==> st.buffer.tensorLength == lut
    ensures use && lut == 0 ==> st.buffer.tensorLength == inImage.tensor.elements
    ensures use && inImage.strides[pd] == 0 ==> st.buffer.stride == 0
    ensures use && inImage.strides[pd] != 0 ==> st.buffer.stride == st.buffer.tensorLength
    ensures !use ==> st.storage == 0 && st.buffer.location == AtImageLine && st.buffer.stride == inImage.strides[pd]
    ensures st.buffer.length == inLength && st.buffer.border == inBorder
  {
    if use then
      var tensorLength := if lut == 0 then inImage.tensor.elements else lut;
      var pixelBytes := sizeOf * tensorLength;
      var stride := if inImage.strides[pd] == 0 then 0 else tensorLength;
      var storage := if stride == 0 then pixelBytes else (inLength + 2 * inBorder) * pixelBytes;
      Staging(LineBuffer(inLength, inBorder, tensorLength, 1, stride,
                         InStorage(BufferOffset(stride, inBorder, pixelBytes))), storage)
    else
      Staging(LineBuffer(inLength, inBorder, inImage.tensor.elements, inImage.tensorStride, inImage.strides[pd],
                         AtImageLine), 0)
  }

  /** The output line of a pass: staged in a buffer of the buffer type, or written in place. */
  function OutputStaging(outImage: Image, pd: nat, outLength: nat, outBorder: nat, sizeOf: nat, use: bool)
    : (st: Staging)
    requires pd < |outImage.strides|
    ensures st.buffer.tensorLength == outImage.tensor.elements
    ensures use ==> st.buffer.location.InStorage? && st.buffer.stride == outImage.tensor.elements
    ensures !use ==> st.storage == 0 && st.buffer.location == AtImageLine && st.buffer.stride == outImage.strides[pd]
    ensures st.buffer.length == outLength && st.buffer.border == outBorder
  {
    var tensorLength := outImage.tensor.elements;
    if use then
      var pixelBytes := sizeOf * tensorLength;
      Staging(LineBuffer(outLength, outBorder, tensorLength, 1, tensorLength, InStorage(outBorder * pixelBytes)),
              (outLength + 2 * outBorder) * pixelBytes)
    else
      Staging(LineBuffer(outLength, outBorder, tensorLength, outImage.tensorStride, outImage.strides[pd], AtImageLine), 0)
  }

  /** The pass `rep` of a setup, with the look-up table `lut` (non-zero only in the first pass). */
  function PlanPass(s: Setup, rep: nat, lut: nat): (p: Pass)
    requires SetupOk(s) && rep < |s.order|
    ensures p.rep == rep && p.processingDim == s.order[rep] && p.lookUpTable == lut
    ensures p.inRole == InRole(s, rep) && p.outRole == OutRole(s, rep)
    ensures p.lines >= 1
  {
    var pd := s.order[rep];
    var inImage, outImage := ImageOf(s, InRole(s, rep)), ImageOf(s, OutRole(s, rep));
    var inBorder := s.border[pd];
    var outBorder := if UseOutputBorder in s.opts then inBorder else 0;
    var outUseBuffer := outImage.dataType != s.bufferType || outBorder > 0 || UseOutputBuffer in s.opts;
    var inUseBuffer := inImage.dataType != s.bufferType || lut > 0 || inBorder > 0 || UseInputBuffer in s.opts
                       || (!outUseBuffer && inImage.origin == outImage.origin);
    var inStaging := InputStaging(inImage, pd, s.input.sizes[pd], inBorder, lut, SizeOf(s.bufferType), inUseBuffer);
    var outStaging := OutputStaging(outImage, pd, s.output.sizes[pd], outBorder, SizeOf(s.bufferType), outUseBuffer);
    Pass(rep, pd, InRole(s, rep), OutRole(s, rep), s.input.sizes[pd], inBorder, s.output.sizes[pd], outBorder, lut,
         inUseBuffer, outUseBuffer, inStaging.buffer, outStaging.buffer, inStaging.storage, outStaging.storage,
         s.boundary[pd], LinesAlong(inImage.sizes, pd))
  }

  /**
   * When a pass would read and write the same pixels, it stages at least one side in a
   * buffer; in particular every pass after the first that works in place on the output.
   */
  lemma AliasedPassUsesBuffer(s: Setup, rep: nat, lut: nat)
    requires SetupOk(s) && rep < |s.order|
    ensures var p := PlanPass(s, rep, lut);
      ImageOf(s, p.inRole).origin == ImageOf(s, p.outRole).origin ==> p.inUseBuffer || p.outUseBuffer
    ensures var p := PlanPass(s, rep, lut);
      rep > 0 && !s.useIntermediate ==> p.inRole == p.outRole == OutputImage && (p.inUseBuffer || p.outUseBuffer)
  {
  }

  /**
   * A pass between two distinct images of the buffer type, with no border, no tensor
   * look-up table and neither buffer option, stages nothing: the line filter reads and
   * writes the image lines in place, with the images' own strides, and no storage is
   * allocated.
   */
  lemma DirectPassStagesNothing(s: Setup, rep: nat, lut: nat)
    requires SetupOk(s) && rep < |s.order|
    requires lut == 0 && s.border[s.order[rep]] == 0
    requires UseInputBuffer !in s.opts && UseOutputBuffer !in s.opts
    requires ImageOf(s, InRole(s, rep)).dataType == s.bufferType
    requires ImageOf(s, OutRole(s, rep)).dataType == s.bufferType
    requires ImageOf(s, InRole(s, rep)).origin != ImageOf(s, OutRole(s, rep)).origin
    ensures var p := PlanPass(s, rep, lut);
      var pd := s.order[rep];
      !p.inUseBuffer && !p.outUseBuffer && p.inStorage == 0 && p.outStorage == 0
      && p.inBuffer.location == AtImageLine && p.inBuffer.stride == ImageOf(s, p.inRole).strides[pd]
      && p.outBuffer.location == AtImageLine && p.outBuffer.stride == ImageOf(s, p.outRole).strides[pd]
  {
  }

  /**
   * With `UseOutputBorder` and a border, the output line is staged in a buffer with room
   * for the input's border on both sides, and the line starts past the left one; without
   * the option the output buffer has no border and its storage holds just the line.
   */
  lemma OutputBorderFitsStorage(s: Setup, rep: nat, lut: nat)
    requires SetupOk(s) && rep < |s.order|
    ensures var p := PlanPass(s, rep, lut);
      var px := SizeOf(s.bufferType) * p.outBuffer.tensorLength;
      UseOutputBorder in s.opts && s.border[p.processingDim] > 0 ==>
        p.outUseBuffer && p.outBuffer.border == p.inBorder == s.border[p.processingDim]
        && p.outBuffer.location == InStorage(p.inBorder * px)
        && p.outStorage == (p.outLength + 2 * p.inBorder) * px
    ensures var p := PlanPass(s, rep, lut);
      var px := SizeOf(s.bufferType) * p.outBuffer.tensorLength;
      UseOutputBorder !in s.opts ==>
        p.outBuffer.border == 0 && (p.outUseBuffer ==> p.outStorage == p.outLength * px)
  {
  }

  /** A tensor look-up table forces an input buffer whose pixels hold one value per table entry. */
  lemma LookUpTableSetsTensorLength(s: Setup, rep: nat, lut: nat)
    requires SetupOk(s) && rep < |s.order| && lut > 0
    ensures var p := PlanPass(s, rep, lut);
      p.inUseBuffer && p.inBuffer.tensorLength == lut
  {
  }

  /**
   * Every byte a pass touches in its buffers lies in the storage it allocates: for a
   * buffer with a stride, the border on both sides and the line itself; for a stride-0
   * input buffer, the one pixel copied into it.
   */
  lemma BuffersFitStorage(s: Setup, rep: nat, lut: nat)
    requires SetupOk(s) && rep < |s.order|
    ensures var p := PlanPass(s, rep, lut);
      var px := SizeOf(s.bufferType) * p.inBuffer.tensorLength;
      p.inUseBuffer ==>
        (p.inBuffer.location.InStorage?
         && (p.inBuffer.stride == 0 ==> p.inBuffer.location.offset + px <= p.inStorage)
         && (p.inBuffer.stride != 0 ==>
               (p.inBorder * px <= p.inBuffer.location.offset
                && p.inBuffer.location.offset + (p.inLength + p.inBorder) * px <= p.inStorage)))
    ensures var p := PlanPass(s, rep, lut);
      var px := SizeOf(s.bufferType) * p.outBuffer.tensorLength;
      p.outUseBuffer ==>
        (p.outBuffer.location.InStorage?
         && p.outBorder * px <= p.outBuffer.location.offset
         && p.outBuffer.location.offset + (p.outLength + p.outBorder) * px <= p.outStorage)
  {
    var p := PlanPass(s, rep, lut);
    var inPx := SizeOf(s.bufferType) * p.inBuffer.tensorLength;
    if p.inUseBuffer && p.inBuffer.stride != 0 {
      DistributeStorage(p.inLength, p.inBorder, inPx);
    }
    var outPx := SizeOf(s.bufferType) * p.outBuffer.tensorLength;
    if p.outUseBuffer {
      DistributeStorage(p.outLength, p.outBorder, outPx);
    }
  }

  lemma DistributeStorage(length: nat, border: nat, px: nat)
    ensures (length + 2 * border) * px == border * px + (length + border) * px
  {
  }

  // ---------------------------------------------------------------------------------
  // The line loop
  // ---------------------------------------------------------------------------------

  /** What the driver does to one image line, in order. */
  datatype Event =
    | CopyIn(rep: nat, line: nat, from: Role, pixels: nat, tensorLength: nat, lookUpTable: nat)
    | ExpandBorder(rep: nat, line: nat, border: nat, condition: BoundaryCondition)
    | FilterLine(rep: nat, line: nat)
    | CopyOut(rep: nat, line: nat, to: Role, pixels: nat, tensorLength: nat)

  /**
   * One line: copy it into the input buffer (a single pixel when its stride is 0) and
   * extend the border, filter, copy the output buffer back.
   */
  function LineEvents(p: Pass, line: nat): (e: seq<Event>)
    ensures FilterLine(p.rep, line) in e
  {
    (if p.inUseBuffer
     then [CopyIn(p.rep, line, p.inRole, if p.inBuffer.stride == 0 then 1 else p.inLength,
                  p.inBuffer.tensorLength, p.lookUpTable)]
     else [])
    + (if p.inUseBuffer && p.inBorder > 0 && p.inBuffer.stride != 0
       then [ExpandBorder(p.rep, line, p.inBorder, p.boundary)]
       else [])
    + [FilterLine(p.rep, line)]
    + (if p.outUseBuffer then [CopyOut(p.rep, line, p.outRole, p.outLength, p.outBuffer.tensorLength)] else [])
  }

  /**
   * A line is filtered exactly once: before that its input is copied in (first, and only
   * when the input is buffered) and its border extended; after that only the copy-out
   * follows, and only when the output is buffered. Every event is about this pass and line.
   */
  lemma LineEventsInOrder(p: Pass, line: nat)
    ensures var e := LineEvents(p, line);
      var f := |e| - (if p.outUseBuffer then 2 else 1);
      0 <= f < |e| && e[f] == FilterLine(p.rep, line)
      && (forall j :: 0 <= j < |e| ==> e[j].rep == p.rep && e[j].line == line)
      && (forall j :: 0 <= j < f ==> (e[j].CopyIn? <==> j == 0) && (e[j].CopyIn? || e[j].ExpandBorder?))
      && (forall j :: f < j < |e| ==> e[j].CopyOut?)
      && (p.inUseBuffer <==> e[0].CopyIn?)
      && (p.outUseBuffer <==> e[|e| - 1].CopyOut?)
  {
    var e := LineEvents(p, line);
    var copyIn := if p.inUseBuffer
                  then [CopyIn(p.rep, line, p.inRole, if p.inBuffer.stride == 0 then 1 else p.inLength,
                               p.inBuffer.tensorLength, p.lookUpTable)]
                  else [];
    var expand := if p.inUseBuffer && p.inBorder > 0 && p.inBuffer.stride != 0
                  then [ExpandBorder(p.rep, line, p.inBorder, p.boundary)]
                  else [];
    var copyOut := if p.outUseBuffer then [CopyOut(p.rep, line, p.outRole, p.outLength, p.outBuffer.tensorLength)] else [];
    assert e == copyIn + expand + [FilterLine(p.rep, line)] + copyOut;
  }

  /** The events of the first `n` lines of a pass. */
  function PassEvents(p: Pass, n: nat): seq<Event> {
    if n == 0 then [] else PassEvents(p, n - 1) + LineEvents(p, n - 1)
  }

  /** The events of a sequence of passes. */
  function AllEvents(passes: seq<Pass>): seq<Event> {
    if passes == [] then []
    else
      var last := passes[|passes| - 1];
      AllEvents(passes[..|passes| - 1]) + PassEvents(last, last.lines)
  }

  /** Every line of a pass produces the same number of events. */
  lemma LineEventsSameLength(p: Pass, a: nat, b: nat)
    ensures |LineEvents(p, a)| == |LineEvents(p, b)|
  {
  }

  /** A pass has as many events as lines times the events of one line. */
  lemma {:induction false} PassEventsLength(p: Pass, n: nat)
    ensures |PassEvents(p, n)| == n * |LineEvents(p, 0)|
  {
    if n > 0 {
      PassEventsLength(p, n - 1);
      LineEventsSameLength(p, 0, n - 1);
    }
  }

  /** The events of the first lines of a pass begin the events of the whole pass. */
  lemma {:induction false} PassEventsPrefix(p: Pass, k: nat, n: nat)
    requires k <= n
    ensures PassEvents(p, k) <= PassEvents(p, n)
  {
    if k < n {
      PassEventsPrefix(p, k, n - 1);
    }
  }

  /**
   * The events of a pass come line by line: the events of line `k` form the `k`-th block
   * of equal length, so no line is interleaved with another.
   */
  lemma SliceOfPrefix<T>(all: seq<T>, before: seq<T>, line: seq<T>)
    requires before + line <= all
    ensures all[|before| .. |before| + |line|] == line
  {
    assert all[..|before| + |line|] == before + line;
  }

  lemma PassEventsByLine(p: Pass, k: nat, n: nat)
    requires k < n
    ensures var m := |LineEvents(p, 0)|;
      k * m + m <= |PassEvents(p, n)| && PassEvents(p, n)[k * m .. k * m + m] == LineEvents(p, k)
  {
    PassEventsPrefix(p, k + 1, n);
    PassEventsLength(p, k);
    LineEventsSameLength(p, 0, k);
    SliceOfPrefix(PassEvents(p, n), PassEvents(p, k), LineEvents(p, k));
  }

  /** The line loop of one pass: every line is visited once, in iterator order. */
  method RunPass(p: Pass) returns (events: seq<Event>)
    requires p.lines >= 1
    ensures events == PassEvents(p, p.lines)
  {
    events := [];
    var line := 0;
    while true
      invariant line < p.lines && events == PassEvents(p, line)
      decreases p.lines - line
    {
      var inBuffered := p.inUseBuffer;
      if inBuffered {
        var copied := if p.inBuffer.stride == 0 then 1 else p.inLength;
        events := events + [CopyIn(p.rep, line, p.inRole, copied, p.inBuffer.tensorLength, p.lookUpTable)];
        if p.inBorder > 0 && p.inBuffer.stride != 0 {
          events := events + [ExpandBorder(p.rep, line, p.inBorder, p.boundary)];
        }
      }
      events := events + [FilterLine(p.rep, line)];
      if p.outUseBuffer {
        events := events + [CopyOut(p.rep, line, p.outRole, p.outLength, p.outBuffer.tensorLength)];
      }
      assert events == PassEvents(p, line) + LineEvents(p, line);
      line := line + 1;
      if line == p.lines {
        return;
      }
    }
  }

  // ---------------------------------------------------------------------------------
  // The driver
  // ---------------------------------------------------------------------------------

  /** The strides, tensor stride and origin the output gets when it is (re)forged. */
  datatype Layout = Layout(strides: seq<int>, tensorStride: int, origin: nat)

  datatype Outcome =
    | NoOp(image: Image)                                                       // the output is the input
    | Ran(image: Image, setup: Setup, passes: seq<Pass>, events: seq<Event>)   // the output after all passes

  /** The tensor is folded into a spatial dimension. */
  predicate Folds(cIn: Image, opts: set<SeparableOption>) {
    AsScalarImage in opts && !cIn.tensor.IsScalar()
  }

  /** The number of look-up table entries: one per matrix element when a non-normal tensor is expanded. */
  function LookUpTableLength(cIn: Image, opts: set<SeparableOption>): (n: nat)
    ensures n > 0 ==> AsScalarImage !in opts && ExpandTensorInBuffer in opts && !cIn.tensor.normalOrder
    ensures cIn.tensor.Valid() && AsScalarImage !in opts && ExpandTensorInBuffer in opts && !cIn.tensor.normalOrder
            ==> n == cIn.tensor.rows * cIn.tensor.cols >= cIn.tensor.elements
  {
    if AsScalarImage !in opts && ExpandTensorInBuffer in opts && !cIn.tensor.normalOrder
    then cIn.tensor.rows * cIn.tensor.cols else 0
  }

  /** The output sizes: the existing output's when it may not be resized, else the input's. */
  function OutputSizes(inSizes: seq<nat>, cOutSizes: seq<nat>, opts: set<SeparableOption>): seq<nat> {
    if DontResizeOutput in opts then cOutSizes else inSizes
  }

  /** The validated parameters, or nothing to do. */
  datatype Plan =
    | NothingToDo
    | Proceed(process: seq<bool>, border: seq<nat>, boundary: seq<BoundaryCondition>, outSizes: seq<nat>)

  /**
   * The verdict on the parameters, in the order the driver checks them: an error, nothing
   * to do (`false`), or go on (`true`).
   */
  function Verdict(inSizes: seq<nat>, cOutSizes: seq<nat>, process: seq<bool>, border: seq<nat>,
                   boundaryConditions: seq<BoundaryCondition>, opts: set<SeparableOption>): (v: Result<bool>)
    ensures var n := |inSizes|;
      |process| != 0 && |process| != n ==> v == Failure(ArrayParameterWrongLength)
    ensures v == Success(false) <==> NothingToProcess(process, |inSizes|)
    ensures var n := |inSizes|;
      ProcessAccepted(process, n) && !(LengthAccepted(|border|, n) && LengthAccepted(|boundaryConditions|, n))
      ==> v == Failure(ArrayParameterWrongLength)
    ensures var n := |inSizes|;
      ProcessAccepted(process, n) && LengthAccepted(|border|, n) && LengthAccepted(|boundaryConditions|, n)
      && DontResizeOutput in opts && |cOutSizes| != n
      ==> v == Failure(DimensionalitiesDontMatch)
    ensures var n := |inSizes|;
      ProcessAccepted(process, n) && LengthAccepted(|border|, n) && LengthAccepted(|boundaryConditions|, n)
      && DontResizeOutput in opts && |cOutSizes| == n
      && !UnprocessedSizesMatch(DefaultProcess(process, n), inSizes, cOutSizes)
      ==> v == Failure(OutputSizeMismatch)
    ensures v == Success(true) <==> Accepted(|inSizes|, process, border, boundaryConditions, opts, cOutSizes, inSizes)
  {
    var n := |inSizes|;
    if |process| != 0 && |process| != n then Failure(ArrayParameterWrongLength)
    else if |process| != 0 && true !in process then Success(false)
    else if !LengthAccepted(|border|, n) || !LengthAccepted(|boundaryConditions|, n) then Failure(ArrayParameterWrongLength)
    else if DontResizeOutput in opts && |cOutSizes| != n then Failure(DimensionalitiesDontMatch)
    else if DontResizeOutput in opts && !UnprocessedSizesMatch(DefaultProcess(process, n), inSizes, cOutSizes)
    then Failure(OutputSizeMismatch)
    else Success(true)
  }

  /** The parameter checks, in the order the driver makes them. */
  method CheckParameters(inSizes: seq<nat>, cOutSizes: seq<nat>, process: seq<bool>, border: seq<nat>,
                         boundaryConditions: seq<BoundaryCondition>, opts: set<SeparableOption>)
    returns (r: Result<Plan>)
    ensures var v := Verdict(inSizes, cOutSizes, process, border, boundaryConditions, opts);
      (v.Failure? ==> r == Failure(v.error))
      && (v == Success(false) ==> r == Success(NothingToDo))
      && (v == Success(true) ==> r == Success(AcceptedPlan(inSizes, cOutSizes, process, border, boundaryConditions, opts)))
  {
    var nDims := |inSizes|;
    var proc := process;
    if |proc| == 0 {
      proc := seq(nDims, _ => true);
    } else {
      if |proc| != nDims {
        return Failure(ArrayParameterWrongLength);
      }
      if true !in proc {
        return Success(NothingToDo);
      }
    }
    assert proc == DefaultProcess(process, nDims);
    var borderR := ArrayUseParameter(border, nDims, 0);
    if borderR.Failure? {
      return Failure(borderR.error);
    }
    var boundaryR := ArrayUseParameter(boundaryConditions, nDims, DefaultBoundaryCondition);
    if boundaryR.Failure? {
      return Failure(boundaryR.error);
    }
    var outSizes := inSizes;
    if DontResizeOutput in opts {
      outSizes := cOutSizes;
      if |outSizes| != nDims {
        return Failure(DimensionalitiesDontMatch);
      }
      var checked := CheckUnprocessedSizes(proc, inSizes, outSizes);
      if checked.Failure? {
        return Failure(checked.error);
      }
    }
    return Success(Proceed(proc, borderR.value, boundaryR.value, outSizes));
  }

  /** The plan made from accepted arguments. */
  function AcceptedPlan(inSizes: seq<nat>, cOutSizes: seq<nat>, process: seq<bool>, border: seq<nat>,
                        boundaryConditions: seq<BoundaryCondition>, opts: set<SeparableOption>): (plan: Plan)
    requires Accepted(|inSizes|, process, border, boundaryConditions, opts, cOutSizes, inSizes)
    ensures plan.Proceed? && |plan.process| == |plan.border| == |plan.boundary| == |plan.outSizes| == |inSizes|
  {
    var n := |inSizes|;
    Proceed(DefaultProcess(process, n), ArrayUseParameter(border, n, 0).value,
            ArrayUseParameter(boundaryConditions, n, DefaultBoundaryCondition).value,
            OutputSizes(inSizes, cOutSizes, opts))
  }

  /** The plan is one that `CheckParameters` accepts for an input with `n` dimensions of positive size. */
  predicate PlanFits(plan: Plan, n: nat) {
    plan.Proceed? && |plan.process| == |plan.border| == |plan.boundary| == |plan.outSizes| == n
    && AllPositive(plan.outSizes)
  }

  /** The input and per-dimension parameters once the tensor is folded, if it is. */
  function FoldedInput(cIn: Image, plan: Plan, opts: set<SeparableOption>): (f: Folded)
    requires cIn.forged && cIn.WellFormed() && AllPositive(cIn.sizes) && cIn.tensor.Valid()
    requires PlanFits(plan, |cIn.sizes|)
    ensures var n := |cIn.sizes|;
      |f.process| == |f.border| == |f.boundary| == |f.image.sizes| == |f.image.strides|
      == (if Folds(cIn, opts) then n + 1 else n)
    ensures Folds(cIn, opts) ==> !f.process[|cIn.sizes|] && f.image.sizes[|cIn.sizes|] == cIn.tensor.elements
    ensures forall d :: 0 <= d < |cIn.sizes| ==>
      f.process[d] == plan.process[d] && f.border[d] == plan.border[d] && f.boundary[d] == plan.boundary[d]
      && f.image.sizes[d] == cIn.sizes[d] && f.image.strides[d] == cIn.strides[d]
    ensures AllPositive(f.image.sizes) && f.image.origin == cIn.origin
  {
    if Folds(cIn, opts) then Fold(cIn, plan.process, plan.border, plan.boundary)
    else Folded(cIn, plan.process, plan.border, plan.boundary)
  }

  /** The tensor shape of the output: a full matrix when the input tensor is expanded. */
  function OutputTensor(cIn: Image, opts: set<SeparableOption>): (t: Tensor)
    requires cIn.tensor.Valid()
    ensures t.Valid() && t.rows == cIn.tensor.rows && t.cols == cIn.tensor.cols
    ensures LookUpTableLength(cIn, opts) == 0 ==> t == cIn.tensor
    ensures LookUpTableLength(cIn, opts) > 0 ==> t.elements == t.rows * t.cols && t.normalOrder
  {
    var lut := LookUpTableLength(cIn, opts);
    if lut > 0 then Tensor(lut, cIn.tensor.rows, cIn.tensor.cols, true) else cIn.tensor
  }

  /** The output header after reforging. */
  function ReforgedOutput(cOut: Image, outSizes: seq<nat>, tensor: Tensor, outImageType: DataType, reforged: Layout)
    : Image
  {
    Image(true, outSizes, reforged.strides, tensor, reforged.tensorStride, outImageType,
          reforged.origin, cOut.pixelSize, cOut.colorSpace)
  }

  /** The working copy of the output header: the reforged output, folded like the input. */
  function WorkingOutput(cIn: Image, cOut: Image, plan: Plan, outImageType: DataType,
                         opts: set<SeparableOption>, reforged: Layout): (out: Image)
    requires cIn.forged && cIn.WellFormed() && AllPositive(cIn.sizes) && cIn.tensor.Valid()
    requires PlanFits(plan, |cIn.sizes|) && |reforged.strides| == |cIn.sizes|
    ensures var n := |cIn.sizes|;
      |out.sizes| == |out.strides| == (if Folds(cIn, opts) then n + 1 else n)
    ensures forall d :: 0 <= d < |cIn.sizes| ==> out.sizes[d] == plan.outSizes[d]
    ensures AllPositive(out.sizes) && out.dataType == outImageType && out.origin == reforged.origin
  {
    var reforgedOut := ReforgedOutput(cOut, plan.outSizes, OutputTensor(cIn, opts), outImageType, reforged);
    if Folds(cIn, opts) then TensorToSpatial(reforgedOut, |reforgedOut.sizes|) else reforgedOut
  }

  /**
   * The setup of a run: every dimension of the input keeps its index, size, stride,
   * border and boundary condition, and is processed as the plan says; a folded tensor
   * is one more dimension, never processed; the intermediate image exists exactly when
   * the output type is not the buffer type; the order lists every processed dimension
   * once, by `Precedes`.
   */
  ghost predicate SetUpFrom(s: Setup, cIn: Image, plan: Plan, opts: set<SeparableOption>,
                      bufferType: DataType, outImageType: DataType)
    requires plan.Proceed? && |plan.process| == |plan.border| == |plan.boundary| == |plan.outSizes| == |cIn.sizes|
    requires |cIn.strides| == |cIn.sizes|
  {
    var n := |cIn.sizes|;
    SetupOk(s) && s.opts == opts && s.bufferType == bufferType
    && |s.process| == (if Folds(cIn, opts) then n + 1 else n)
    && (Folds(cIn, opts) ==> !s.process[n] && s.input.sizes[n] == cIn.tensor.elements)
    && (forall d :: 0 <= d < n ==>
          s.process[d] == plan.process[d] && s.border[d] == plan.border[d] && s.boundary[d] == plan.boundary[d]
          && s.input.sizes[d] == cIn.sizes[d] && s.input.strides[d] == cIn.strides[d]
          && s.output.sizes[d] == plan.outSizes[d])
    && s.output.dataType == outImageType
    && s.useIntermediate == (outImageType != bufferType)
    && s.intermediate.dataType == bufferType && s.intermediate.sizes == s.output.sizes
    && s.lookUpTable == LookUpTableLength(cIn, opts)
    && (forall d: nat :: d in s.order <==> d < |s.process| && s.process[d])
    && Distinct(s.order)
    && (forall i, j :: 0 <= i < j < |s.order| ==>
          Precedes(s.order[i], s.order[j], s.input.strides, s.input.sizes, s.output.sizes, DontResizeOutput in opts))
  }

  /**
   * Everything before the passes: tensor folding or expansion, the reforged output, the
   * intermediate image and the processing order.
   */
  method Prepare(cIn: Image, cOut: Image, plan: Plan, bufferType: DataType, outImageType: DataType,
                 opts: set<SeparableOption>, reforged: Layout, intermediateOrigin: nat)
    returns (s: Setup)
    requires cIn.forged && cIn.WellFormed() && AllPositive(cIn.sizes) && cIn.tensor.Valid()
    requires PlanFits(plan, |cIn.sizes|) && |reforged.strides| == |cIn.sizes|
    ensures SetupOk(s) && s.opts == opts && s.bufferType == bufferType
    ensures var f := FoldedInput(cIn, plan, opts);
      s.input == f.image && s.process == f.process && s.border == f.border && s.boundary == f.boundary
    ensures s.output == WorkingOutput(cIn, cOut, plan, outImageType, opts, reforged)
    ensures s.useIntermediate == (outImageType != bufferType)
    ensures s.intermediate == s.output.(dataType := bufferType, origin := intermediateOrigin)
    ensures s.lookUpTable == LookUpTableLength(cIn, opts)
    ensures forall d: nat :: d in s.order <==> d < |s.process| && s.process[d]
    ensures Distinct(s.order)
    ensures forall i, j :: 0 <= i < j < |s.order| ==>
      Precedes(s.order[i], s.order[j], s.input.strides, s.input.sizes, s.output.sizes, DontResizeOutput in opts)
    ensures SetUpFrom(s, cIn, plan, opts, bufferType, outImageType)
  {
    var folded := FoldedInput(cIn, plan, opts);
    var input := folded.image;
    var lookUpTable := LookUpTableLength(cIn, opts);
    var output := WorkingOutput(cIn, cOut, plan, outImageType, opts, reforged);

    var order := ProcessingOrder(folded.process, input.strides, input.sizes, output.sizes, DontResizeOutput in opts);
    var useIntermediate := output.dataType != bufferType;
    var intermediate := output.(dataType := bufferType, origin := intermediateOrigin);
    s := Setup(input, output, intermediate, useIntermediate, folded.process, folded.border, folded.boundary,
               opts, bufferType, lookUpTable, order);
  }

  /** The look-up table is used by the first pass only: later passes read a full tensor. */
  function TableForPass(s: Setup, rep: nat): (lut: nat)
    ensures rep > 0 ==> lut == 0
  {
    if rep == 0 then s.lookUpTable else 0
  }

  lemma AllEventsAppend(passes: seq<Pass>, p: Pass)
    ensures AllEvents(passes + [p]) == AllEvents(passes) + PassEvents(p, p.lines)
  {
    assert (passes + [p])[..|passes|] == passes;
  }

  /** `passes` are the first passes of `s`, each planned for its dimension. */
  predicate PassesPlanned(s: Setup, passes: seq<Pass>)
    requires SetupOk(s) && |passes| <= |s.order|
  {
    forall rep :: 0 <= rep < |passes| ==> passes[rep] == PlanPass(s, rep, TableForPass(s, rep))
  }

  lemma PassesPlannedAppend(s: Setup, passes: seq<Pass>)
    requires SetupOk(s) && |passes| < |s.order| && PassesPlanned(s, passes)
    ensures PassesPlanned(s, passes + [PlanPass(s, |passes|, TableForPass(s, |passes|))])
  {
  }

  /** One pass per processed dimension, in order. */
  method RunPasses(s: Setup) returns (passes: seq<Pass>, events: seq<Event>)
    requires SetupOk(s)
    ensures |passes| == |s.order|
    ensures PassesPlanned(s, passes)
    ensures events == AllEvents(passes)
  {
    passes, events := [], [];
    var lookUpTable := s.lookUpTable;
    for rep := 0 to |s.order|
      invariant |passes| == rep && events == AllEvents(passes)
      invariant lookUpTable == TableForPass(s, rep)
      invariant PassesPlanned(s, passes)
    {
      var p := PlanPass(s, rep, lookUpTable);
      var passEvents := RunPass(p);
      AllEventsAppend(passes, p);
      PassesPlannedAppend(s, passes);
      passes := passes + [p];
      events := events + passEvents;
      lookUpTable := 0;
    }
  }

  /** One planned pass per dimension in the order, and the events of each pass in turn. */
  predicate PassesRun(s: Setup, passes: seq<Pass>, events: seq<Event>) {
    SetupOk(s) && |passes| == |s.order| && PassesPlanned(s, passes) && events == AllEvents(passes)
  }

  /**
   * The image the driver returns: the reforged output with the output sizes and type,
   * a full matrix tensor when the input tensor was expanded (which drops the color
   * space), and the input's pixel size.
   */
  predicate ProducedImage(img: Image, cIn: Image, cOut: Image, opts: set<SeparableOption>,
                          outImageType: DataType, reforged: Layout) {
    var lut := LookUpTableLength(cIn, opts);
    img.forged && img.sizes == OutputSizes(cIn.sizes, cOut.sizes, opts) && img.dataType == outImageType
    && img.strides == reforged.strides && img.origin == reforged.origin
    && img.tensor == (if lut > 0 then Tensor(lut, cIn.tensor.rows, cIn.tensor.cols, true) else cIn.tensor)
    && img.pixelSize == cIn.pixelSize
    && img.colorSpace == (if lut > 0 then "" else cIn.colorSpace)
  }

  /**
   * The whole driver: validation, folding, order, and one pass per processed dimension.
   * `reforged` is where the output ends up after reforging and `intermediateOrigin` where
   * the intermediate image is allocated; memory allocation is not modelled.
   */
  method Separable(cIn: Image, cOut: Image, bufferType: DataType, outImageType: DataType,
                   process: seq<bool>, border: seq<nat>, boundaryConditions: seq<BoundaryCondition>,
                   opts: set<SeparableOption>, reforged: Layout, intermediateOrigin: nat)
    returns (r: Result<Outcome>)
    requires cIn.forged && cIn.WellFormed() && AllPositive(cIn.sizes) && cIn.tensor.Valid()
    requires DontResizeOutput in opts ==> AllPositive(cOut.sizes)
    requires |reforged.strides| == |cIn.sizes|
    // the error conditions, in the order the source checks them
    ensures var v := Verdict(cIn.sizes, cOut.sizes, process, border, boundaryConditions, opts);
      (v.Failure? ==> r == Failure(v.error))
      && (v == Success(false) ==> r == Success(NoOp(cIn)))
      && (v == Success(true) ==> r.Success? && r.value.Ran?)
    // what a run sets up, does and produces
    ensures r.Success? && r.value.Ran? ==>
      Accepted(|cIn.sizes|, process, border, boundaryConditions, opts, cOut.sizes, cIn.sizes)
      && SetUpFrom(r.value.setup, cIn, AcceptedPlan(cIn.sizes, cOut.sizes, process, border, boundaryConditions, opts),
                   opts, bufferType, outImageType)
      && PassesRun(r.value.setup, r.value.passes, r.value.events)
      && ProducedImage(r.value.image, cIn, cOut, opts, outImageType, reforged)
  {
    var checked := CheckParameters(cIn.sizes, cOut.sizes, process, border, boundaryConditions, opts);
    if checked.Failure? {
      return Failure(checked.error);
    }
    var plan := checked.value;
    if plan.NothingToDo? {
      return Success(NoOp(cIn));
    }
    var s := Prepare(cIn, cOut, plan, bufferType, outImageType, opts, reforged, intermediateOrigin);
    var passes, events := RunPasses(s);
    var lookUpTable := LookUpTableLength(cIn, opts);
    var image := ReforgedOutput(cOut, plan.outSizes, OutputTensor(cIn, opts), outImageType, reforged)
                   .(pixelSize := cIn.pixelSize, colorSpace := if lookUpTable > 0 then "" else cIn.colorSpace);
    return Success(Ran(image, s, passes, events));
  }
}
