# DIPlib processing framework, box filter and discrete drawing — a Dafny model

This project models the index and shape bookkeeping at the heart of DIPlib's image
processing framework, and a few line-level kernels built on it:

- **Framework** (`framework.dfy`): singleton expansion of image sizes and tensor-element
  counts, the optimal-processing-dimension heuristic (with its `SMALL_IMAGE = 63` cutoff),
  and the block splitter that advances mixed-radix start coordinates line by line while
  skipping the processing dimension.
- **Separable** (`separable.dfy`, with `sorting.dfy`): the separable framework driver as a
  planning-and-execution machine over image headers. It covers validation and defaulting of
  `process`, `border` and boundary conditions; the `DontResizeOutput` checks; tensor
  folding; the dimension order (stride sort, then grow-ratio sort); pass roles (input,
  intermediate, output); the buffer decision including the aliasing safety net; buffer
  sizing and offsets; and the per-line loop. Copying into a buffer, border extension, the
  line filter and the copy back are recorded as events, so the model says what is copied
  where and in which order.
- **Uniform** (`uniform.dfy`): the rectangular uniform (box) filter — per-dimension
  process/size/border setup, the sliding running-sum line filter over an array of samples,
  and the `Uniform` entry point's validation and dispatch.
- **Draw** (`draw.dfy`): Cohen–Sutherland outcodes and the accept/reject structure of line
  clipping, the clamped span fill and blended line writes, the polygon edge order and
  active-edge vertex tests, the active-edge removal loop, and the argument validation of
  `DrawLine`, `DrawLines`, `DrawPolygon2D` and `GetGridType`.
- **DataTypes** (`datatypes.dfy`): the thirteen pixel data types and the class tables of
  the overload macros; any type outside a class throws `DATA_TYPE_NOT_SUPPORTED`.
- `errors.dfy` and `image.dfy` hold the error codes and the image header (sizes, strides,
  tensor shape, data type, origin identity, pixel size, color space).

Two details of the dimension order follow the code exactly: the grow-ratio sort is applied
only WITH `Separable_DontResizeOutput` (`src/library/framework_separable.cpp:132`), and the
stride sort uses the signed stride values, not their magnitudes
(`src/library/framework_separable.cpp:129`).

The model folds a tensor image to the LAST dimension, where the code folds it to index 0
(`src/library/framework_separable.cpp:83-84` and `:112`); see "## Findings". So on a folded
run the `processingDim` of every pass in the model is the original index of the dimension,
one less than the index the code hands to the line filter.

## Model

| member | source | states |
|---|---|---|
| Framework.PadWithOnes | src/library/framework.cpp:35-37 | the padded size has length max(old length, n), keeps every old entry and is 1 at every added dimension |
| Framework.SingletonExpandedSize | src/library/framework.cpp:31-47 | succeeds iff every shared dimension is broadcast-compatible (equal, or one is 1), else SIZES_DONT_MATCH; the result has length max of both, both inputs expand to it, each entry comes from one input, entries past size2 are unchanged, and for positive sizes it is the element-wise max |
| Framework.CompatibleStep | src/library/framework.cpp:54-57 | folding one more compatible input keeps all inputs seen so far pairwise compatible |
| Framework.IncompatibleStep | src/library/framework.cpp:54-57 | one incompatible dimension against the running size makes the whole input list incompatible, so throwing is correct |
| Framework.FromSomeStep | src/library/framework.cpp:54-57 | every entry of the running size still comes from some input after another expansion step |
| Framework.SingletonExpandedSizes | src/library/framework.cpp:50-71 | succeeds iff all input sizes are pairwise compatible, else SIZES_DONT_MATCH; on success every input expands to the result and each result entry is taken from some input |
| Framework.SingletonExpandedTensorElements | src/library/framework.cpp:73-88 | succeeds iff all tensor-element counts are pairwise compatible, else SIZES_DONT_MATCH; the result is one of the counts, every count is 1 or the result, and the result is 1 iff all counts are 1 |
| Framework.OptimalProcessingDimInternal | src/library/framework.cpp:93-114 | the chosen dimension is a valid index (0 with no dimensions); it has a non-zero stride whenever one exists; among non-zero-stride dimensions it is one of the longest (sizes above 63 tie) and, among the long ones, has the smallest absolute stride |
| Framework.OptimalProcessingDim | src/library/framework.cpp:120-125 | fails with IMAGE_NOT_FORGED exactly on an unforged image, else returns a dimension with the heuristic's guarantees |
| Framework.OptimalProcessingDimForKernel | src/library/framework.cpp:129-143 | IMAGE_NOT_FORGED, then ARRAY_PARAMETER_WRONG_LENGTH on a kernel of the wrong rank; otherwise the heuristic runs on sizes with every unit-kernel dimension set to 1, so a usable dimension with a non-unit kernel is always preferred |
| Framework.PositionBound | src/library/framework.cpp:152-154 | the mixed-radix position of an in-domain coordinate (processing dimension skipped) is below the product of the sizes it ranges over |
| Framework.PositionUpdate | src/library/framework.cpp:161-183 | changing one coordinate changes the position by the difference times that dimension's weight |
| Framework.PositionOfZero | src/library/framework.cpp:154 | the all-zero start coordinate has position 0 |
| Framework.RewindFirst | src/library/framework.cpp:162-167 | rewinding the fastest dimension to 0 and carrying one line is the same position as moving forward by the remaining `n` pixels |
| Framework.ForwardFirst | src/library/framework.cpp:168-172 | moving the fastest coordinate forward by `remaining` advances the position by exactly that amount |
| Framework.CountUp | src/library/framework.cpp:174-176 | incrementing a slower coordinate advances the position by that dimension's weight |
| Framework.Carry | src/library/framework.cpp:177-182 | resetting a coordinate that reached its size and carrying to the next dimension keeps the position |
| Framework.WalkLines | src/library/framework.cpp:160-185 | one pass of the inner loop keeps the coordinate in the domain and conserves position + remaining, up to at most one wrap-around of the whole image, and strictly decreases `remaining` unless it reaches 0 |
| Framework.AdvanceStart | src/library/framework.cpp:155-185 | advancing a start coordinate by nPixelsPerBlock yields an in-domain coordinate at position (old + n) mod span |
| Framework.SplitImageEvenlyForProcessing | src/library/framework.cpp:145-188 | exactly nBlocks coordinate arrays, the first all zeros, all inside the image; each is the previous one advanced by nPixelsPerBlock pixels in dimension-0-fastest order skipping the processing dimension, i.e. block i starts at position i*nPixelsPerBlock mod span |
| Framework.NextBlockStart | src/library/framework.cpp:155-159 | the closed-form start of block i is the start of block i-1 advanced by nPixelsPerBlock, modulo the span |
| Sorting.InsertionPoint | src/library/framework_separable.cpp:129 | the insertion point puts the new index after every index with a key not larger and before every index with a larger key |
| Sorting.Insert | src/library/framework_separable.cpp:129 | inserting adds exactly the one index at the given place and shifts the rest |
| Sorting.SortIndices | src/library/framework_separable.cpp:129 | the sorted index list is a permutation of the input list |
| Sorting.InsertKeepsStable | src/library/framework_separable.cpp:129 | one insertion step keeps the list sorted by key, with ties in input order |
| Sorting.SortIndicesStep | src/library/framework_separable.cpp:129 | the sort of a list is the sort of its prefix with the last index inserted |
| Sorting.SortIndicesIsStable | src/library/framework_separable.cpp:129 | the index sort is stable: ascending keys, equal keys in input order |
| Sorting.SortedIsDistinct | src/library/framework_separable.cpp:129 | sorting a list without duplicates gives a list without duplicates |
| Separable.ArrayUseParameter | src/library/framework_separable.cpp:49-50 | a per-dimension array is accepted iff it has 0, 1 or n entries, else ARRAY_PARAMETER_WRONG_LENGTH; the result has n entries: the default, the single value replicated, or the array itself |
| Separable.DefaultProcess | src/library/framework_separable.cpp:37-39 | an empty `process` becomes all-true of length nDims; a non-empty one is kept |
| Separable.CheckUnprocessedSizes | src/library/framework_separable.cpp:66-68 | succeeds iff every dimension not processed has equal input and output size, else the output-size error |
| Separable.TensorToSpatial | src/library/framework_separable.cpp:83 | folding the tensor at index `at` inserts a dimension of size tensor-elements and stride tensor-stride there and shifts the later dimensions by one; the image becomes scalar |
| Separable.FoldAsWritten | src/library/framework_separable.cpp:81-88 | the fold as written: the tensor becomes dimension 0, `process` gets a leading false, border and boundary conditions keep their old indexing |
| Separable.FoldAsWrittenMisindexesBorder | src/library/framework_separable.cpp:81-88 | for every image, after the fold as written the old dimension d-1 sits at index d and is processed as before but gets the border and boundary condition of old dimension d; when the last dimension is processed its new index is one past the end of the border and boundary arrays |
| Separable.Fold | src/library/framework_separable.cpp:81-88 | the tensor becomes a new LAST dimension (the code puts it at index 0) that is never processed, and every original dimension keeps its index, size, stride, border and boundary condition; so the model's processing dimensions are the code's minus one on folded runs |
| Separable.FoldKeepsBorder | src/library/framework_separable.cpp:81-88 | for a 10x10 image of 3-vectors with process [true, true] and borders [2, 1], the fold keeps the processed flags and the borders with their dimensions and appends the tensor dimension of size 3 |
| Separable.GrowKeys | src/library/framework_separable.cpp:133-136 | the grow key of a dimension is its output size divided by its input size |
| Separable.GrowByCrossMultiplication | src/library/framework_separable.cpp:135 | comparing two grow ratios is the same as comparing out_a*in_b with out_b*in_a |
| Separable.StrideSortOrders | src/library/framework_separable.cpp:128-129 | stably sorting the ascending dimension list by stride orders it by stride, with ties by dimension index |
| Separable.GrowSortOrders | src/library/framework_separable.cpp:130-138 | stably re-sorting a stride-ordered list by grow ratio orders it by grow ratio, then stride, then index |
| Separable.ProcessedDimensions | src/library/framework_separable.cpp:119-127 | the list holds exactly the processed dimensions, in ascending order |
| Separable.StrideOrderedPrecedes | src/library/framework_separable.cpp:128-129 | a stride-ordered list is in processing order when there is no grow sort |
| Separable.ProcessingOrder | src/library/framework_separable.cpp:116-138 | `order` is a duplicate-free permutation of exactly the processed dimensions, sorted by stride and, with DontResizeOutput, first by grow ratio |
| Separable.ImageOf | src/library/framework_separable.cpp:181-183 | the image a pass role names has one size and one stride per (folded) dimension, all sizes positive |
| Separable.PassesChain | src/library/framework_separable.cpp:178-183 | pass 0 reads the input, the last pass writes the output, each pass reads what the previous one wrote, and the intermediate image is used only when it exists |
| Separable.BufferOffsetAsWritten | src/library/framework_separable.cpp:228 | the input buffer pointer sits border*pixel bytes into its storage, whatever the stride |
| Separable.StrideZeroBufferAsWrittenOverruns | src/library/framework_separable.cpp:218-228 | with stride 0 and a border, that pointer lies at or past the end of the one-pixel storage |
| Separable.BufferOffset | src/library/framework_separable.cpp:218-228 | the buffer pointer sits border*pixel bytes in for a strided buffer and at the start of a one-pixel stride-0 buffer |
| Separable.LinesAlong | src/library/framework_separable.cpp:255 | an image with positive sizes has at least one line along any dimension |
| Separable.InputStaging | src/library/framework_separable.cpp:208-235 | a staged input line has unit tensor stride, tensor length from the look-up table or the image, stride 0 for a stride-0 image line, else tensor length; an unstaged one points at the image line with the image's stride and uses no storage |
| Separable.OutputStaging | src/library/framework_separable.cpp:236-252 | a staged output line has stride tensor-elements and lives in storage; an unstaged one points at the image line with the image's stride |
| Separable.PlanPass | src/library/framework_separable.cpp:193-252 | pass `rep` filters dimension order[rep] between the roles PassesChain names, with the given look-up table, over at least one line |
| Separable.AliasedPassUsesBuffer | src/library/framework_separable.cpp:202-205 | a pass whose input and output share an origin uses at least one buffer; in particular every in-place pass after the first does |
| Separable.DirectPassStagesNothing | src/library/framework_separable.cpp:200-252 | a pass between two distinct images of the buffer type with no border, no look-up table and neither buffer option uses no buffer and allocates no storage: the filter works on the image lines with the images' own strides |
| Separable.OutputBorderFitsStorage | src/library/framework_separable.cpp:197-247 | under UseOutputBorder with a border, the output is buffered, its border equals the input border, the line starts that many pixels into the storage and the storage holds the line plus both borders; without the option the output buffer has no border and its storage holds just the line |
| Separable.LookUpTableSetsTensorLength | src/library/framework_separable.cpp:200-216 | a non-empty look-up table forces an input buffer whose tensor length is the table's length |
| Separable.BuffersFitStorage | src/library/framework_separable.cpp:218-244 | every staged line, its border margins included, lies inside the storage allocated for it (one pixel when the stride is 0, else (length + 2*border) pixels) |
| Separable.LineEvents | src/library/framework_separable.cpp:257-311 | the events of a line include its filtering |
| Separable.LineEventsInOrder | src/library/framework_separable.cpp:257-311 | a line is filtered exactly once; before that come only the copy-in (first, and present iff the input is buffered) and the border extension, after it only the copy-out (present iff the output is buffered); every event names this pass and line |
| Separable.LineEventsSameLength | src/library/framework_separable.cpp:257-311 | every line of a pass produces the same number of events |
| Separable.PassEventsLength | src/library/framework_separable.cpp:257-311 | a pass over n lines produces n times the events of one line |
| Separable.PassEventsPrefix | src/library/framework_separable.cpp:257-311 | the events of the first k lines are a prefix of those of all lines |
| Separable.PassEventsByLine | src/library/framework_separable.cpp:257-311 | the events of line k sit in their own slice of the pass's events, in line order |
| Separable.RunPass | src/library/framework_separable.cpp:254-311 | the line loop produces exactly the events of every line in order |
| Separable.LookUpTableLength | src/library/framework_separable.cpp:90-91 | a look-up table exists only under ExpandTensorInBuffer without AsScalarImage for a non-normal tensor, and then has rows*cols entries |
| Separable.Verdict | src/library/framework_separable.cpp:37-68 | the validation in source order: wrong-length process, nothing to process (returns early), wrong-length border or boundary, wrong output rank, mismatched unprocessed size; success iff all parameters are accepted |
| Separable.CheckParameters | src/library/framework_separable.cpp:37-71 | the checks return exactly the verdict's error, the no-op, or the accepted plan |
| Separable.AcceptedPlan | src/library/framework_separable.cpp:37-71 | an accepted plan has one process flag, border, boundary condition and output size per dimension |
| Separable.FoldedInput | src/library/framework_separable.cpp:79-88 | the working input has one extra never-processed dimension of size tensor-elements exactly when folding, and keeps every original dimension's parameters |
| Separable.OutputTensor | src/library/framework_separable.cpp:79-94 | the output tensor is the input's, or the full rows x cols matrix in normal order when a look-up table is used |
| Separable.WorkingOutput | src/library/framework_separable.cpp:97-114 | the working output has the planned output sizes, the output data type and the reforged origin, folded like the input |
| Separable.Prepare | src/library/framework_separable.cpp:53-164 | the set-up has the folded input, the working output, an intermediate image of the buffer type exactly when the output type differs, the look-up table, and the processing order |
| Separable.TableForPass | src/library/framework_separable.cpp:313-314 | only the first pass uses the look-up table |
| Separable.AllEventsAppend | src/library/framework_separable.cpp:177-315 | the events of one more pass follow those of the passes before it |
| Separable.PassesPlannedAppend | src/library/framework_separable.cpp:177-315 | planning one more pass extends the planned pass list |
| Separable.RunPasses | src/library/framework_separable.cpp:177-315 | one planned pass per processed dimension, in order, and all their events in order |
| Separable.Separable | src/library/framework_separable.cpp:22-321 | fails with the verdict's error; a no-op returns the input image; otherwise it runs, with the set-up, passes and events above, producing an image with the output sizes, output type, reforged layout, output tensor, the input's pixel size, and the input's color space unless a look-up table was used |
| Uniform.WindowEnd | src/linear/uniform.cpp:44-45 | the window from -(fs/2) to (fs+1)/2 (exclusive) around a sample holds exactly fs samples |
| Uniform.BorderCoversWindow | src/linear/uniform.cpp:44-45 | every window of a line of `length` samples lies within the border of fs/2 samples on each side |
| Uniform.WindowSlides | src/linear/uniform.cpp:51-55 | the sum over window k+1 is the sum over window k minus its first sample plus the sample past its end |
| Uniform.ConstantWindowMean | src/linear/uniform.cpp:43-50 | the mean of a window of equal samples is that sample |
| Uniform.StrideZeroMean | src/linear/uniform.cpp:44-50 | on a stride-0 line every window mean is the one sample the line holds |
| Uniform.InitialSumAsWritten | src/linear/uniform.cpp:44-49 | the initial loop as written sums the first window for a non-zero stride, but runs zero times and leaves 0 for stride 0 |
| Uniform.InitialSum | src/linear/uniform.cpp:44-49 | the initial loop sums exactly the first window, reading only inside the margin |
| Uniform.SlideStep | src/linear/uniform.cpp:51-55 | one slide step moves both window ends by one sample and updates the sum by the samples left and entered, all inside the margin |
| Uniform.SlideWindow | src/linear/uniform.cpp:50-58 | writes exactly `length` outputs at out + k*outStride, output k being norm times the running sum after k slides, reading only inside the margin and leaving every other element unchanged |
| Uniform.RunningSums | src/linear/uniform.cpp:51-55 | a running sum that starts from the first sum and changes by the sample entered minus the sample left at each slide equals the first sum plus the difference between window k's sum and window 0's |
| Uniform.SlidOutputIsMean | src/linear/uniform.cpp:50-58 | when the sliding starts from the first window's sum, output k is the mean of window k |
| Uniform.SlidOutputStrideZero | src/linear/uniform.cpp:44-58 | on a stride-0 line, sliding from a first sum of 0 writes 0 at every output, since every window sums the same |
| Uniform.FilterAsWritten | src/linear/uniform.cpp:36-58 | the line filter as written: every output is its window mean for a non-zero input stride, but 0 for stride 0 |
| Uniform.Filter | src/linear/uniform.cpp:36-58 | output k is the mean of input samples k-fs/2 .. k+(fs+1)/2-1, every read lies inside the margin, and only the `length` output samples change |
| Uniform.UnitWindowIsSample | src/linear/uniform.cpp:43-50 | a window of size 1 copies the line |
| Uniform.RectangularParameters | src/linear/uniform.cpp:70-80 | a dimension is processed iff filterSize > 1 and the image size > 1; then size = filterSize and border = filterSize/2, otherwise size 1 and border 0 |
| Uniform.ProcessedWindowsFitBorder | src/linear/uniform.cpp:44-78 | for every processed dimension the window of every sample lies within the border set for it |
| Uniform.BoxVerdict | src/linear/uniform.cpp:82-95 | the only error the box path's framework call can raise is ARRAY_PARAMETER_WRONG_LENGTH |
| Uniform.RectangularVerdict | src/linear/uniform.cpp:85-95 | the framework's validation of the box filter's parameters is: no-op when no dimension is filtered, else success iff the boundary array length is accepted |
| Uniform.Uniform | src/linear/uniform.cpp:158-174 | IMAGE_NOT_FORGED, then KERNEL_NOT_BINARY; a non-rectangular kernel takes the pixel-table path; a rectangular one runs the separable framework with the flex type, the set-up of RectangularParameters and exactly the filtered dimensions processed, or returns the input unchanged when none is |
| DataTypes.Switch | include/diplib/overload.h:99-104 | a switch over a list of case labels succeeds iff the type is one of them, and throws DATA_TYPE_NOT_SUPPORTED otherwise |
| DataTypes.Dispatch | include/diplib/overload.h:99-172 | a macro class dispatch succeeds iff the type is a member of the class, else DATA_TYPE_NOT_SUPPORTED |
| DataTypes.IntegerIsUIntOrSInt | include/diplib/overload.h:129-135 | INTEGER = UINT ∪ SINT and INT_OR_BIN = BIN ∪ INTEGER |
| DataTypes.UnsignedAndSigned | include/diplib/overload.h:137-144 | UNSIGNED = BIN ∪ UINT and SIGNED = SINT ∪ FLOAT ∪ COMPLEX |
| DataTypes.RealClasses | include/diplib/overload.h:146-156 | REAL = INTEGER ∪ FLOAT, SIGNEDREAL = SINT ∪ FLOAT, NONCOMPLEX = BIN ∪ REAL |
| DataTypes.FlexClasses | include/diplib/overload.h:158-164 | FLEX = FLOAT ∪ COMPLEX and FLEXBIN = BIN ∪ FLEX |
| DataTypes.AllCases | include/diplib/overload.h:170-172 | ALL expands to the thirteen case labels in declaration order |
| DataTypes.AllCoversEveryType | include/diplib/overload.h:170-172 | every data type is in ALL, so an ALL dispatch never throws |
| DataTypes.NonBinaryIsAllButBinary | include/diplib/overload.h:166-168 | NONBINARY holds every type except BIN |
| DataTypes.SignednessPartition | include/diplib/overload.h:137-144 | SIGNED and UNSIGNED are disjoint and together form ALL |
| DataTypes.NonComplexIsAllButComplex | include/diplib/overload.h:154-156 | NONCOMPLEX is ALL without COMPLEX |
| DataTypes.FlexBinIsAllButInteger | include/diplib/overload.h:162-164 | FLEXBIN is ALL without INTEGER |
| DataTypes.StepsUpHasNoDuplicates | include/diplib/overload.h:106-172 | case lists in strictly increasing type order have no repeated case label |
| DataTypes.ExpansionsInDeclarationOrder | include/diplib/overload.h:106-172 | every class macro expands to its case labels in increasing type order |
| DataTypes.ClassSize | include/diplib/overload.h:106-172 | no class macro repeats a case label, so each has as many cases as member types |
| DataTypes.AllHasThirteen | include/diplib/overload.h:170-172 | ALL has thirteen member types |
| Draw.Outcode | src/generation/draw_discrete.cpp:53-73 | LEFT/RIGHT/TOP/BOTTOM are set iff the point lies beyond that side, never both of a pair, and the code is INSIDE iff 0 <= x <= br.x and 0 <= y <= br.y |
| Draw.ClipDecision | src/generation/draw_discrete.cpp:84-117 | accept iff both outcodes are INSIDE, reject iff they share a bit, otherwise move an outside endpoint: p0 when its code is the larger one, else p1 |
| Draw.ClipEdge | src/generation/draw_discrete.cpp:97-109 | the edge chosen for intersection is one the outside endpoint lies beyond |
| Draw.AcceptedLineInside | src/generation/draw_discrete.cpp:85-88 | every point of an accepted segment lies in the image domain |
| Draw.RejectedLineOutside | src/generation/draw_discrete.cpp:89-92 | no point of a rejected segment lies in the image domain |
| Draw.ClampedSpanIsIntersection | src/generation/draw_discrete.cpp:253-259 | the clamped span is the intersection of start..end with the line; it is empty when start > length-1 or end < 0 |
| Draw.FillLine | src/generation/draw_discrete.cpp:243-266 | every tensor element of every pixel in the clamped span is set to the value, and every other pixel is unchanged |
| Draw.DrawOneLine | src/generation/draw_discrete.cpp:132-147 | each tensor element of each pixel becomes the old value blended with the value once per visit of that pixel; unvisited pixels are unchanged |
| Draw.AssignDrawsValue | src/generation/draw_discrete.cpp:199 | with the assign blend, a visited pixel holds the value and an unvisited one is unchanged |
| Draw.DistinctLineVisitsOnce | src/generation/draw_discrete.cpp:140-146 | with distinct offsets each pixel is visited once if it is on the line and never otherwise |
| Draw.EdgeBeforeIsStrictOrder | src/generation/draw_discrete.cpp:323-325 | the edge order by yMin then x is irreflexive, asymmetric and transitive; two edges are unordered iff they share yMin and x |
| Draw.VertexTestsSymmetric | src/generation/draw_discrete.cpp:349-358 | the I-vertex and V-vertex tests are symmetric in their two edges |
| Draw.VertexKinds | src/generation/draw_discrete.cpp:349-358 | two active edges that both end at y form exactly one of an I and a V vertex; otherwise they form neither |
| Draw.RemoveInactive | src/generation/draw_discrete.cpp:451-457 | the removal loop leaves exactly the edges with yMax >= y, in their original order |
| Draw.StillActiveKeepsExactlyTheLiveEdges | src/generation/draw_discrete.cpp:451-457 | the remaining edges are a subsequence of the active list, keep every live edge with its multiplicity, and drop every edge with yMax < y |
| Draw.BlendOf | src/generation/draw_discrete.cpp:198-204 | "assign" and "add" are the only blend modes; anything else is an invalid flag |
| Draw.DrawLineCheck | src/generation/draw_discrete.cpp:190-204 | IMAGE_NOT_FORGED, dimensionality < 2, tensor mismatch for a non-scalar value, wrong-length start or end, an endpoint outside the image (COORDINATES_OUT_OF_RANGE), an unknown blend (INVALID_FLAG), in that order; success iff the image and value fit, start and end lie inside the image and the blend is valid |
| Draw.PointsVerdict | src/generation/draw_discrete.cpp:217-220 | a bad point yields only ARRAY_PARAMETER_WRONG_LENGTH or COORDINATES_OUT_OF_RANGE |
| Draw.PointsVerdictFindsFirstBadPoint | src/generation/draw_discrete.cpp:217-220 | the points pass iff every point lies inside the image, and otherwise the error is that of the first bad point |
| Draw.DrawLinesAccepts | src/generation/draw_discrete.cpp:213-227 | DrawLines accepts iff the image is forged and at least 2-D, the value fits, there are at least 2 points, all inside the image, and the blend is valid |
| Draw.DrawLines | src/generation/draw_discrete.cpp:207-228 | the checking loop over the points returns exactly the verdict of DrawLinesAccepts |
| Draw.PolygonModeOf | src/generation/draw_discrete.cpp:472-480 | "filled", "open" and "closed" are the only modes; anything else is an invalid flag |
| Draw.DrawPolygon2DCheck | src/generation/draw_discrete.cpp:469-501 | IMAGE_NOT_FORGED, not 2-D, tensor mismatch, invalid mode, too few vertices (ARRAY_PARAMETER_WRONG_LENGTH), in that order, then the ALL dispatch; success iff all pass, that is with at least 2 vertices for an open polygon and 3 otherwise |
| Draw.GetGridType | src/generation/draw_discrete.cpp:659-673 | any name that is not a grid type is an invalid flag |
| Draw.GridTypeRoundTrip | src/generation/draw_discrete.cpp:657-673 | the four grid names map to their grid types and back, and no other name is accepted |

## Left out

- Pixel values are modelled as `real` (box filter) or as values of any type (drawing); float and complex rounding, saturation and type conversion are not modelled.
- `CopyBuffer`, `ExpandBuffer`, the line filter call and `GenericJointImageIterator` are uninterpreted: the separable driver records them as events, and the iterator contributes only its number of lines.
- `ReForge`, `Strip`, `IsOverlappingView` and `QuickCopy` are not modelled; the reforged output layout and the intermediate image's origin are parameters of `Separable.Separable`.
- `ArrayUseParameter`, `BoundaryArrayUseParameter`, `sortIndices` and `Tensor::LookUpTable` are called but not part of this model. They are modelled by their documented behaviour: 0, 1 or n entries accepted; a stable sort; one entry per matrix element.
- The separable options are modelled as a set; `opts == Separable_X` is taken as membership of X.
- Thread set-up (`SetNumberOfThreads(1)`) and the threading TODOs are left out.
- `DataType::SuggestFlex` and `Kernel::Sizes` are not part of this model: the flex type and the filter sizes are parameters of `Uniform.Uniform`. `StringArrayToBoundaryConditionArray` is not modelled; boundary conditions arrive already converted.
- `PixelTableUniform` is left out; `Uniform.Uniform` records only that this path was taken.
- Uniform.Filter: requires an output stride other than 0 for lines longer than one sample, because the outputs of such a line all land on one element.
- The intersection arithmetic of `ClipLineToImageDomain`, the loop that repeats it until accept or reject, and `VerticesToUnsignedArrays` (floating point and `std::round`) are left out. The model covers the outcodes and the accept/reject/move decision of each round.
- Draw.DrawOneLine: `BresenhamLineIterator` is not part of this model; the pixel offsets it yields are a parameter, and the blend (including `saturated_add`) is a parameter function.
- Pixel memory in `Draw.FillLine` and `Draw.DrawOneLine` is a 2-D array (pixel x tensor element); the pixel and tensor strides that place it in memory are not modelled.
- `start < out.Sizes()` compares coordinate arrays element by element; `dimension_array.h` is not part of this model, and the model takes the comparison as "same length and every coordinate below its size".
- The string constants `S::ASSIGN`, `S::ADD`, `S::FILLED`, `S::OPEN`, `S::CLOSED`, `S::RECTANGULAR`, `S::HEXAGONAL`, `S::BCC` and `S::FCC` are taken to be their lower-case names.
- Polygon edge construction (rounding of vertices, slopes, edges along scan lines), the "bad shape" check, the sort of the edge list and the scan loop of `DrawFilledPolygon` (including `ActiveEdge::operator++`) are left out; the model covers the edge order, the vertex tests and the removal loop. The drawing in `DrawPolygonInternal` and `DrawLinesInternal` is left out beyond `DrawOneLine`.
- The other drawing functions in `draw_discrete.cpp` (boxes, ellipsoids, diamonds, random grids) are outside the modelled core.

## Findings

| source | as written | input that shows it | evidently intended | confidence | as-written member | corrected member |
|---|---|---|---|---|---|---|
| src/library/framework_separable.cpp:81-88 | folding the tensor into dimension 0 shifts `process` by one but leaves `border` and `boundaryConditions` unshifted, so the old dimension d-1, now at index d, is filtered with the border and boundary condition of old dimension d, and when the last dimension is processed its index is past the end of both arrays; the box filter is hit the same way, because `RectangularUniformLineFilter` reads `sizes_[params.dimension]` (src/linear/uniform.cpp:42) and `Uniform` always asks for `Separable_AsScalarImage` (src/linear/uniform.cpp:94), so it uses the next dimension's filter size and reads past the size array in the last dimension | a 10x10 image of 3-vectors, process [true, true], border [2, 1], AsScalarImage; in general any non-scalar image whose last dimension is processed | each dimension keeps its own border, boundary condition and filter size after folding | not executed | Separable.FoldAsWrittenMisindexesBorder | Separable.Fold |
| src/linear/uniform.cpp:44-49 | with input stride 0, `left == right`, so the loop summing the first window runs zero times and every output is 0 | a singleton-expanded (stride-0) input dimension of size > 1 filtered with fs >= 2 | every output equals the line's one repeated sample, the mean of a constant window | not executed | Uniform.FilterAsWritten | Uniform.StrideZeroMean |
| src/library/framework_separable.cpp:218-228 | a stride-0 input buffer gets storage for one pixel, but its pointer is still placed `border` pixels in, past the end of that storage | a stride-0 input dimension with border >= 1 | the pointer of a one-pixel buffer is at the start of its storage | not executed | Separable.StrideZeroBufferAsWrittenOverruns | Separable.BuffersFitStorage |
