# Image processing on a dense N-dimensional array, modelled in Dafny

This project models the core of a small C++ image-processing library. It
has two layers.

- **The array layer.** `Mat<E>` is a dense row-major N-dimensional array.
  Its cursors do partial, bounds-checked indexing. On top of it sit a 2-D
  view of channel 0 and an integral image (a 2-D prefix-sum table).
- **The algorithms.** Images are `height × width × channels` arrays:
  - mirrored-border convolution, plus an older buffer-based filter with an
    "unchecked" variant that skips the border;
  - separable Sobel gradients and their clamped magnitude;
  - the four Canny passes: non-maximum suppression, double threshold,
    one in-place hysteresis sweep, and border clearing;
  - Harris corner scoring from a 4 × 4 structure-tensor window;
  - grey-scale conversion and Gaussian smoothing;
  - the signed rectangles of Gaussian second-derivative box filters.

Smaller pieces are modelled too:

- the compass-direction algebra;
- the 8-neighbour iterator;
- row-major pixel and nested-array traversal;
- interleaved-channel pixel addressing;
- square-matrix generation.

Each source file is one module:

| module | source | file |
|---|---|---|
| `Mats` | mat.hpp, mat_accessor.hpp | mat.dfy |
| `MatViews` | mat_view_2d.hpp | mat_view_2d.dfy |
| `IntegralImages` | integral_image.hpp | integral_image.dfy |
| `Convolution` | convolute.hpp | convolute.dfy |
| `Filters` | filters.hpp | filters.dfy |
| `Sobel` | sobel.cpp | sobel.dfy |
| `Canny` | canny.cpp | canny.dfy |
| `Harris` | harris.cpp | harris.dfy |
| `Grayscale` | grayscale.cpp | grayscale.dfy |
| `BoxFilters` | box_filters.hpp | box_filters.dfy |
| `Gaussian` | gaussian.cpp | gaussian.dfy |
| `Utility` | utility.hpp | utility.dfy |
| `Neighbours` | neighbours.hpp | neighbours.dfy |
| `Matrices` | matrix.hpp | matrix.dfy |
| `Pixels` | pixels.hpp | pixels.dfy |
| `Flatten` | flatten.hpp | flatten.dfy |
| `ImageTraversal` | image_traverser.hpp | image_traverser.dfy |

`Wrappers` (wrappers.dfy) holds the `Result`, `Option` and `Outcome` types.
`Grids` (grids.dfy) holds index arithmetic for 2-D and 3-D row-major grids.

## How the model is built

- **Failures are values.** The library is modelled as built with debug
  checks on, so every failure is a result value:
  - a thrown `std::out_of_range` becomes `OutOfRange`;
  - a failed `assert` becomes `AssertionFailure`;
  - `ASSERT_NOT_REACHED` becomes `LogicError`.

  A caller can meet any of these. Undefined behaviour is a `requires`
  instead: unchecked `vector::operator[]` and raw row pointers.
- **`Mat<E>` is a class.** Its dimensions, strides and size are fixed at
  construction. Its element list is a `seq` field that the methods
  reassign. `Valid()` ties the bookkeeping to the dimensions.
  `WellFormed()` also ties the list's length to the size, because the
  element-list constructor does not check the length.
- **Numbers.**
  - `uint8_t` images are `Mat<int>`.
  - `double` is `real`.
  - `std::round` is defined (halves away from zero).
  - `hypot`, `atan2` and `sqrt` are function parameters that the model does
    not interpret.
  - Element conversions are parameters too: `T(e)`, the truncating
    `double → uint8_t` store, and the template's `+`.
  - `unsigned` and `size_t` wrap-around is written out where the source
    relies on it: loop bounds `height - 1` on empty axes, the `size_t`
    offsets of `getOffset`, and `size - 9` in the box layouts.
- **Loops.** Every loop of the source is a method with its invariants,
  proved against a specification function. Lemmas then prove what the
  library promises about that function.
- **Windows as written.** Two windows differ from textbook Canny and
  Harris. The model keeps both as the source has them.
  - The hysteresis sweep of `removeIsolatedWeakPixels` (canny.cpp:79-80)
    looks only at the 2 × 2 block ending at the pixel itself. The pixel is
    weak (128) at that moment, so only its up-left, up and left
    neighbours can turn it on (`Canny.HysteresisDecides`). Textbook
    hysteresis looks at all eight neighbours.
  - `harris` sums the 4 × 4 window of rows y − 2 … y + 1 and columns
    x − 2 … x + 1 (harris.cpp:20-21), which is not centred on the pixel.
    It then divides each sum by 25, the cell count of a 5 × 5 window
    (harris.cpp:29-32; `Harris.Score`).

## Model

| member | source | states |
|---|---|---|
| `Mats.StridesShape` | mat.hpp:114-116 | The last stride is 1 and every other stride is the next stride times the next dimension. |
| `Mats.ComputeSize` | mat.hpp:110-113 | The constructor's size loop yields the product of the dimensions. |
| `Mats.ComputeStrides` | mat.hpp:114-116 | The back-to-front scan yields the row-major strides. |
| `Mats.Mat.FromElements` | mat.hpp:104-117 | Keeps the dimensions and copies the list as given, whatever its length. The shape bookkeeping is valid. |
| `Mats.Mat.Zeros` | mat.hpp:98-102 | Yields a well-formed array of `size()` zeros. |
| `Mats.Mat.Generate` | mat.hpp:119-126 | Yields a well-formed array whose element i is generator(i). |
| `Mats.Mat.Size` | mat.hpp:221-224 | `size()` is the product of the dimensions. |
| `Mats.Mat.Dimensions` | mat.hpp:201-204 | `dimensions()` is the rank. On a valid Mat it is at least 1 and equals the number of strides. |
| `Mats.Mat.Dimension` | mat.hpp:226-229 | `dimension(i)` times stride i is stride i − 1, or the whole size for axis 0. So it counts the axis-i steps in one step of the axis before. |
| `Mats.Mat.Index` | mat.hpp:82-88 | First-axis indexing raises out_of_range exactly when the index is above `dimension(0)`. Index == dimension(0) gets through and yields a cursor on axis 0 holding that index. |
| `Mats.OffsetPastFirstAxis` | mat.hpp:84-86 | A full chain whose first index is at least `dimension(0)` lands at or past the element count. |
| `Mats.Mat.SetAt` | mat.hpp:146-149 | The flat set replaces element i and nothing else. |
| `Mats.Mat.At` | mat.hpp:141-144 | The flat read `operator()(index)` returns one of the matrix's elements. |
| `Mats.FlatReadAtOffset` | mat.hpp:141-144 | On a well-formed matrix, an in-range full index reads the same element as the flat read at its row-major offset, and that offset lies inside the element vector. |
| `Mats.Mat.BraceRead` | mat.hpp:128-139 | The brace read fails its assertion unless one index per axis is given. It then reads position Σ dims[k]·i_k, as written. |
| `Mats.Mat.BraceReadRowMajor` | mat.hpp:128-139 | The corrected brace read agrees with cursor indexing on in-range indices and raises out_of_range otherwise. |
| `Mats.BraceOffsetMisplacesElement` | mat.hpp:135 | On a 2 × 2 array, index (0, 1) is read from position 2 rather than the row-major position 1. |
| `Mats.Mat.AssignList` | mat.hpp:151-161 | Assigning a list of the wrong length fails the assertion and changes nothing. Otherwise the elements become the list. |
| `Mats.Mat.AddAssignList` | mat.hpp:174-184 | `+=` from a list of the wrong length fails and changes nothing. Otherwise element i becomes element i plus list[i]. |
| `Mats.Mat.AddAssign` | mat.hpp:163-172 | Mismatched dimensions fail the assertion and change nothing. Otherwise the array is added elementwise in place, keeping its length. |
| `Mats.Mat.Plus` | mat.hpp:186-199 | Mismatched dimensions fail. Otherwise the result is a new array with these dimensions and element i = a[i] + b[i]. |
| `Mats.Mat.Minus` | mat.hpp:206-219 | Mismatched dimensions fail. Otherwise the result is a new array with these dimensions and element i = a[i] − b[i]. |
| `Mats.Mat.Combine` | mat.hpp:187-198 | The shared body of `+` and `−`: mismatched leading dimensions fail the assertion. Otherwise a fresh Mat with these dimensions has element i = op(a[i], b[i]) for every i below `size()`. |
| `Mats.Mat.Clone` | mat.hpp:65-72 | The clone is a fresh array with the same dimensions holding the cast of each element. |
| `Mats.Cursor.IndexFurther` | mat_accessor.hpp:44-52 | `cursor[i]` raises out_of_range exactly when i is at least the next axis's size. Otherwise it yields a cursor on the next axis holding i. |
| `Mats.Cursor.Position` | mat_accessor.hpp:65-69 | An access fails the last-axis assertion exactly when the cursor is not on the last axis. The only other failure is out_of_range. A position found lies inside the element storage. |
| `Mats.Cursor.Read` | mat_accessor.hpp:65-69 | Reading yields the element at the cursor's position, or that position's error. |
| `Mats.Cursor.Write` | mat_accessor.hpp:71-77 | Assigning through a full-rank cursor changes exactly that element. Otherwise it fails and changes nothing. |
| `Mats.ChaseFull` | mat_accessor.hpp:44-69 | A chain to the last axis reaches offset Σ i_k·stride_k. It raises out_of_range exactly when an index exceeds its axis or the offset is past the elements. |
| `Mats.LocateFull` | mat_accessor.hpp:49-51 | On a well-formed array, a full index chain reads the row-major offset when every index is in range, and raises out_of_range otherwise. |
| `Mats.ChasePartial` | mat_accessor.hpp:65-67 | An in-range chain that stops before the last axis fails the last-axis assertion. |
| `Mats.OffsetBelowProduct` | mat_accessor.hpp:49-51 | An in-range chain lands inside the element storage. |
| `Mats.Put` | mat_accessor.hpp:71-77 | Writing through an index chain changes only the located element, or fails with the chain's error and changes nothing. |
| `MatViews.ViewShape` | mat_view_2d.hpp:54-65 | The view reports rank 2, the underlying size (channels included), and height and width equal to the first two dimensions. |
| `MatViews.ViewReadsChannelZero` | mat_view_2d.hpp:57-62 | `view[y][x]` reads `mat[y][x][0]`. |
| `MatViews.View.Write` | mat_view_2d.hpp:10-12 | Assigning `view[y][x]` writes only `mat[y][x][0]`, or fails and changes nothing. |
| `IntegralImages.PrefixRow` | integral_image.hpp:11-17 | After row y's pass, cell (y, x) holds the sum of channel 0 of row y up to x. Other rows are unchanged. |
| `IntegralImages.AccumulateColumn` | integral_image.hpp:19-25 | After column x's pass, cell (y, x) holds the sum of the rectangle (0..y, 0..x). |
| `IntegralImages.IntegralImage` | integral_image.hpp:9-26 | Fails exactly on a non-empty image with no channel. Otherwise it yields an H × W table whose cell (y, x) is the prefix sum of channel 0 over (0..y, 0..x). |
| `IntegralImages.BlockByCorners` | integral_image.hpp:19-25 | Any block sum is given by four table corners. |
| `IntegralImages.CornerIsTotal` | integral_image.hpp:19-25 | The last cell holds the sum of the whole channel. |
| `Convolution.Mirror` | convolute.hpp:30-32 | `mirror(i, n)` is i inside [0, n−1], 2(n−1)−i above n−1, and −i below 0 when n is positive. |
| `Convolution.MirrorOnAxis` | convolute.hpp:30-32 | A mirrored index lies on the axis when the offset is at most n−1 either way. |
| `Convolution.ReadPixel` | convolute.hpp:42-43 | Reading (a, b, c) yields the sample when it lies in the image, and out_of_range otherwise. |
| `Convolution.Truncate` | convolute.hpp:48 | The `double → uint8_t` store truncates toward zero. |
| `Convolution.KernelTerm` | convolute.hpp:42-45 | One kernel term extends the running row sum by weight × mirrored sample, or fails on an unreadable sample. |
| `Convolution.KernelRow` | convolute.hpp:40-46 | The kx loop adds the 2⌊C/2⌋+1 terms of kernel row ky. |
| `Convolution.WindowSum` | convolute.hpp:36-47 | The window sum is the mirrored convolution sum. It fails exactly when the window is not readable. |
| `Convolution.ConvolvePixel` | convolute.hpp:35-49 | Every channel of (y, x) gets the converted window sum. Other pixels are unchanged. |
| `Convolution.ConvolveRow` | convolute.hpp:34-50 | Row y gets its convolution values. Other rows are unchanged. |
| `Convolution.Convolute` | convolute.hpp:17-53 | Succeeds exactly on empty images and images that mirroring can serve. The output then has the input's shape and cell (y, x, c) is the converted mirrored sum over channel c. |
| `Convolution.KernelOf` | sobel.cpp:7-10 | A kernel literal `{{rows, cols}, {…}}` is a fresh rows × cols grid holding the list in row-major order. |
| `Convolution.ConstantChannel` | convolute.hpp:38-48 | A constant channel convolves to the constant times the kernel's weight sum. |
| `Convolution.UnitKernel` | convolute.hpp:38-48 | The 1 × 1 kernel {1} returns every input value. |
| `Filters.MirroredWindow` | filters.hpp:117-128 | The mirrored window loop computes the mirrored weighted sum. |
| `Filters.DirectWindow` | filters.hpp:169-176 | The unchecked window loop computes the direct weighted sum. |
| `Filters.DirectIsMirrored` | filters.hpp:164-180 | At a pixel the unchecked filter does not skip, the direct sum equals the mirrored sum. |
| `Filters.FilterPixel` | filters.hpp:116-130 | Each image channel of (y, x) in the buffer gets its converted sum. Every other buffer cell is unchanged. |
| `Filters.FilterChannel` | filters.hpp:117-129 | Channel c of (y, x) in the buffer gets the converted window sum: mirrored for `filter`, direct for `filterUnchecked`. No other buffer cell changes. |
| `Filters.FilterToBuffer` | filters.hpp:100-133 | Every (y, x, c) with c below the image's channel count gets the mirrored weighted sum. Extra buffer channels are unchanged. |
| `Filters.Filter` | filters.hpp:135-143 | A fresh image of the input's shape holding the mirrored filter values, whatever the freshly allocated rows held. |
| `Filters.FilterToBufferUnchecked` | filters.hpp:149-181 | Pixels matching the `outOfBound` rule are left untouched. Every other pixel gets the weighted sum. |
| `Filters.FilterUnchecked` | filters.hpp:183-191 | A fresh image of the input's shape. Skipped pixels keep what the freshly allocated rows held; the rest hold the filter value. |
| `Sobel.RowKernel` | convolute.hpp:38-48 | Convolving with a 1 × 3 kernel is the mirrored three-term row sum. |
| `Sobel.ColumnKernel` | convolute.hpp:38-48 | Convolving with a 3 × 1 kernel is the mirrored three-term column sum. |
| `Sobel.Separable` | sobel.cpp:15-18 | A row pass followed by a column pass equals the 3 × 3 mirrored sum of the outer-product kernel. |
| `Sobel.SobelXKernels` | sobel.cpp:7-8 | `bufferX` is convolution with [[1,0,−1],[2,0,−2],[1,0,−1]]. |
| `Sobel.SobelYKernels` | sobel.cpp:9-10 | `bufferY` is convolution with [[−1,−2,−1],[0,0,0],[1,2,1]]. |
| `Sobel.ConstantHasZeroGradients` | sobel.cpp:7-10 | A constant channel has zero gradients in both directions everywhere. |
| `Sobel.Gradient` | sobel.cpp:15-16 | The row and column passes succeed exactly on empty images or images of at least 2 × 2 pixels. The result then has the input's shape and holds the separable sum. |
| `Sobel.SobelXYGradients` | sobel.cpp:5-21 | Succeeds exactly on empty images or at least 2 × 2. Both gradients then have the input's shape and hold the two Sobel sums. |
| `Sobel.Magnitude` | sobel.cpp:33-34 | The magnitude is min(trunc(hypot), 255) and lies in [0, 255]. |
| `Sobel.MagnitudeRow` | sobel.cpp:31-36 | Row y gets the magnitudes of channel 0. Other rows are unchanged. |
| `Sobel.SobelMagnitude` | sobel.cpp:23-38 | An H × W × 1 image of the channel-0 magnitudes, or the gradient step's out_of_range. |
| `Utility.FindDirection` | utility.hpp:16-44 | Each angle sector maps to its compass direction. Exactly ±7π/8 is a logic_error. |
| `Utility.NearCentre` | utility.hpp:16-40 | Angles strictly between −π/8 and π/8 are RIGHT. |
| `Utility.FarLeft` | utility.hpp:29-31 | Angles beyond ±7π/8 are LEFT. |
| `Utility.FindDirectionMirror` | utility.hpp:16-40 | Negating the angle mirrors the direction top to bottom. |
| `Utility.FindDirectionExamples` | test_utility.cpp:4-22 | The library's example angles give the expected directions. |
| `Utility.Opposite` | utility.hpp:46-74 | The opposite direction differs from d and its offset is the negated offset. |
| `Utility.OppositeInvolution` | utility.hpp:46-71 | Taking the opposite twice gives the direction back. |
| `Utility.Orthogonal` | utility.hpp:76-97 | The two orthogonal directions are opposites, and each offset has dot product 0 with d's. |
| `Utility.OrthogonalOfOpposite` | utility.hpp:76-94 | d and its opposite have the same orthogonal pair. |
| `Utility.OffsetsDistinct` | utility.hpp:99-127 | The eight offsets are distinct, nonzero and have components in {−1, 0, 1}. |
| `Utility.Offset` | utility.hpp:99-127 | A top direction steps back one row and a bottom one steps forward one row. A left direction steps back one column and a right one steps forward one column. The other component is 0. |
| `Utility.SizeTSum` | utility.hpp:99-124 | Adding an offset component stored in `size_t` wraps back to the signed sum. |
| `Utility.MapImage` | utility.hpp:133-144 | A fresh image of the same width and height whose pixel (y, x) is f of the input pixel. |
| `Neighbours.Successor` | neighbours.hpp:9-37 | `++` steps TOP_LEFT, TOP, …, LEFT in order, and LEFT stays LEFT. |
| `Neighbours.NeighbourIterator.constructor` | neighbours.hpp:6-7 | A new iterator starts at TOP_LEFT with the given coordinates and end flag. |
| `Neighbours.NeighbourIterator.Increment` | neighbours.hpp:9-37 | `++` advances one direction, or from LEFT sets the end flag and keeps the direction. The coordinates never change. |
| `Neighbours.NeighbourIterator.Cell` | neighbours.hpp:39-42 | Dereferencing yields one of the cells next to (x, y), never (x, y) itself. |
| `Neighbours.EqualsIsEquivalence` | neighbours.hpp:43-49 | Two end iterators are equal, an end and a non-end iterator are not, and equality is an equivalence. |
| `Neighbours.Neighbourhood.Begin` | neighbours.hpp:65 | `begin` is a non-end iterator at TOP_LEFT around (x, y). |
| `Neighbours.Neighbourhood.End` | neighbours.hpp:66 | `end` is an end iterator around (x, y). |
| `Neighbours.Traverse` | neighbours.hpp:9-49 | A range-for visits eight distinct cells next to (x, y), never (x, y) itself. |
| `Canny.GradientAsWrittenFails` | canny.cpp:18-19 | Two-index reads of the rank-3 Sobel output fail the last-axis assertion at every pixel. |
| `Canny.GradientGridsAt` | canny.cpp:16-23 | The gradient grids hold hypot and atan2 of the channel-0 Sobel responses. |
| `Canny.GradientRow` | canny.cpp:17-22 | The x loop of row y either fails with out_of_range on a channel-less non-empty row, or gives every cell of row y the hypot and atan2 of channel 0. Other rows are unchanged. |
| `Canny.GradientGrids` | canny.cpp:13-24 | Two fresh H × W grids hold hypot and atan2 of channel 0 at every pixel. It fails with out_of_range exactly when a non-empty image has no channel. |
| `Canny.FindGradients` | canny.cpp:7-25 | Reading channel 0: two fresh H × W grids of magnitudes and angles, or the Sobel step's out_of_range. |
| `Canny.NmsAt` | canny.cpp:38-51 | Suppression fails with a logic_error exactly when the cell's angle has no direction (±7π/8). A value is at most 255, and a nonzero value means the intensity is above the neighbour along the direction and not below the opposite one. |
| `Canny.SuppressCell` | canny.cpp:35-51 | The loop body at an interior cell reads the intensity and angle, and returns exactly the suppression value `NmsAt` or its logic_error. |
| `Canny.NmsThins` | canny.cpp:38-51 | Of two interior neighbours along their shared direction, at most one survives suppression. |
| `Canny.NmsImageAt` | canny.cpp:31-34 | The suppressed grid holds the NMS value inside and 0 on the border. |
| `Canny.Neighbour` | canny.cpp:44-45 | Reading the neighbour through `size_t` offset sums yields the intensity one step along d. |
| `Canny.ThinEdges` | canny.cpp:27-55 | Fails exactly when a loop bound wraps on an empty axis or an interior angle is ±7π/8. Otherwise it yields a fresh H × W grid equal to the suppressed image. |
| `Canny.ThinEdgesGridUnreadable` | canny.cpp:75 | Three-index reads of the rank-2 suppressed grid never yield a value. |
| `Canny.Classify` | canny.cpp:59-65 | The class is 0, 128 or 255. It is 0 exactly below min, and 255 exactly at or above both thresholds. |
| `Canny.ClassifyMonotone` | canny.cpp:57-67 | A larger value never classifies lower. |
| `Canny.FindStrongAndWeakPixels` | canny.cpp:57-67 | Every element is replaced in order by its class, a value in {0, 128, 255}. |
| `Canny.ClearBorderAt` | canny.cpp:93-105 | Border clearing zeroes channel 0 of rows 0 and H−1 and columns 0 and W−1, and changes nothing else. |
| `Canny.RemoveBoundaryArtifacts` | canny.cpp:93-105 | Fails, unchanged, exactly on images whose first write is out of range. Otherwise it clears the border in place. |
| `Canny.HysteresisSettles` | canny.cpp:73-89 | The sweep changes only interior channel-0 cells holding 128, each to 0 or 255. Afterwards no interior cell is weak. |
| `Canny.HysteresisDecides` | canny.cpp:79-88 | A weak interior pixel ends strong exactly when its up-left, up or left neighbour ends strong. Otherwise it ends 0. |
| `Canny.FinalAfterStep` | canny.cpp:70-90 | The sweep never revisits a cell at or before (y, x) within one row of it, so the final image holds its value from right after step (y, x). |
| `Canny.ShouldBeOff` | canny.cpp:78-87 | The neighbour loops report "off" exactly when none of (y−1, x−1), (y−1, x), (y, x−1), (y, x) is 255. |
| `Canny.RemoveIsolatedWeakPixels` | canny.cpp:69-91 | Fails exactly when a wrapped bound or a missing channel makes the first read out of range. Otherwise the in-place row-major sweep equals the hysteresis function. |
| `Canny.Canny` | canny.cpp:107-116 | Succeeds exactly on images of at least 2 × 2 pixels with a channel and no ±7π/8 angle. It then returns the fresh edge map, a function of the input and thresholds alone. |
| `Canny.EdgesBinary` | canny.cpp:107-116 | Every edge-map value is 0 or 255, and every border value is 0. |
| `Canny.EdgesThresholds` | canny.cpp:57-67 | An interior suppressed value at or above both thresholds is an edge, and every edge had a value of at least min. |
| `Harris.AddProducts` | harris.cpp:25 | `sum += {ix·ix, ix·iy, ix·iy, iy·iy}` adds the four products. |
| `Harris.NewSum` | harris.cpp:12 | `sum` is a fresh 2 × 2 grid of zeros. |
| `Harris.SumRow` | harris.cpp:21-26 | The dx loop adds the four gradient products of columns x − 2 … x + 1 of row dy to `sum`, and keeps it a 2 × 2 grid apart from the gradients. |
| `Harris.TensorSum` | harris.cpp:18-27 | `sum` is reset to zero and ends holding the window sums over rows y − 2 … y + 1 and columns x − 2 … x + 1. |
| `Harris.PixelResponse` | harris.cpp:18-43 | The response computed for pixel (x, y) is that pixel's score from the channel-0 gradients. |
| `Harris.WindowSymmetric` | harris.cpp:25 | The two off-diagonal tensor entries are equal. |
| `Harris.ZeroWindow` | harris.cpp:18-27 | A window of zero gradients sums to the zero tensor. |
| `Harris.DiscriminantNonNegative` | harris.cpp:35-38 | For a symmetric tensor the discriminant is (a−d)² + 4b², never negative. |
| `Harris.ResponseClosedForm` | harris.cpp:34-43 | With an exact square root, trace = a + d, det = ad − bc and R = (ad − bc) − 0.04(a + d)². |
| `Harris.ResponseExpanded` | harris.cpp:38-43 | R in terms of the trace and the square root, whatever the square root is. |
| `Harris.ZeroResponse` | harris.cpp:34-43 | A zero tensor never scores above zero. |
| `Harris.Score` | harris.cpp:29-43 | The score is the response of the summed tensor with every entry divided by 25. |
| `Harris.ScanPixel` | harris.cpp:45-47 | A pixel is appended exactly when its response is above the threshold. |
| `Harris.ScanRow` | harris.cpp:17-48 | The x loop appends the row's corners for 2 ≤ x < W−2, in order. |
| `Harris.Scan` | harris.cpp:12-49 | The y loop yields the corners of every scored row, in row-major order. |
| `Harris.HarrisReports` | harris.cpp:16-47 | (x, y) is reported exactly when it is a corner: inside the scanned range and with a response above the threshold. |
| `Harris.HarrisOrdered` | harris.cpp:16-46 | The reported coordinates are strictly increasing in row-major order, so none repeats. |
| `Harris.ThresholdMonotone` | harris.cpp:45 | A higher threshold reports a subset of the corners. |
| `Harris.FlatHasNoCorners` | harris.cpp:20-47 | Zero gradients yield no corners. |
| `Harris.UniformImageHasNoCorners` | harris.cpp:6-47 | An image whose channel 0 is constant has no corners. |
| `Harris.WindowReadAsWritten` | harris.cpp:22-23 | Two-index reads of the rank-3 gradient images fail the last-axis assertion. |
| `Harris.GradientsChannel0` | harris.cpp:7 | Channel 0 of the Sobel output is what the gradient grids describe. |
| `Harris.Harris` | harris.cpp:6-51 | Succeeds exactly when the Sobel step and every window read can complete, and otherwise raises out_of_range. The result, reading channel 0, is the row-major corner list. |
| `Grayscale.Round` | grayscale.cpp:17 | `std::round` is within one half of its argument, halves away from zero. |
| `Grayscale.ChannelSumBound` | grayscale.cpp:13-16 | On bytes, the sum of n channels lies in [0, 255·n]. |
| `Grayscale.RoundThird` | grayscale.cpp:17 | round(sum / 3.0) is (sum + 1) div 3 for every non-negative sum. |
| `Grayscale.GrayRange` | grayscale.cpp:13-17 | On bytes every grey value is in [0, 255]. A single channel v becomes (v + 1) div 3. |
| `Grayscale.SumChannels` | grayscale.cpp:13-16 | The channel loop sums the first n channels. |
| `Grayscale.GrayRow` | grayscale.cpp:12-18 | Row y gets its grey values. Other rows are unchanged. |
| `Grayscale.ToGray` | grayscale.cpp:5-21 | A fresh H × W × 1 image of grey values over the first min(channels, 3) channels, bytes in, bytes out. |
| `BoxFilters.Box.Transposed` | box_filters.hpp:17-20 | Transposing keeps the weight and swaps the axes of the covered cells. |
| `BoxFilters.Box.Area` | box_filters.hpp:21-23 | The area is below 2^32. It is (x1−x0+1)(y1−y0+1) whenever that product fits in `unsigned`. |
| `BoxFilters.TransposeInvolution` | box_filters.hpp:17-23 | Transposing twice restores the box and keeps weight and area. |
| `BoxFilters.TransposeAll` | box_filters.hpp:49-53 | Transposing a list keeps its length and transposes each box in place. |
| `BoxFilters.BoxFilter.constructor` | box_filters.hpp:55-56 | A new filter has no boxes. |
| `BoxFilters.BoxFilter.AddBox` | box_filters.hpp:32 | `addBox` appends the box, so iteration follows insertion order. |
| `BoxFilters.BoxFilter.Transpose` | box_filters.hpp:49-53 | Every box is transposed, keeping count, order and weights. |
| `BoxFilters.TransposeAllInvolution` | box_filters.hpp:49-53 | Transposing a filter twice restores it. |
| `Gaussian.TapsAreWeights` | gaussian.cpp:11 | The five taps are non-negative and symmetric, and sum to 1. |
| `Gaussian.RowKernelIsRowBlur` | gaussian.cpp:11-12 | Convolution with the 1 × 5 kernel is the mirrored row blur. |
| `Gaussian.ColumnKernelIsColumnBlur` | gaussian.cpp:16-17 | Convolution with the 5 × 1 kernel is the mirrored column blur. |
| `Gaussian.GaussianX` | gaussian.cpp:10-13 | Succeeds on empty images or at least 3 columns, yielding the truncated row blur. |
| `Gaussian.GaussianY` | gaussian.cpp:15-18 | Succeeds on empty images or at least 3 rows, yielding the truncated column blur. |
| `Gaussian.GaussianBlur` | gaussian.cpp:55-63 | The result is the column blur of the input; the X pass is discarded but its failure still ends the call. |
| `Gaussian.BlurOfBytes` | gaussian.cpp:15-17 | Blurring bytes yields bytes. |
| `Gaussian.BlurOfConstant` | gaussian.cpp:15-17 | A constant channel comes out of the column blur unchanged. |
| `Gaussian.MakeXX` | gaussian.cpp:96-126 | Fails the assertion exactly when size is not a multiple of 3. Otherwise it adds the five XX boxes in order. |
| `Gaussian.XXLayout` | gaussian.cpp:105-124 | From size 9 the XX boxes have weights 0, −1, −2, −1, 0 and band widths summing to size. The middle rows are size/3 tall and the boxes tile the square. |
| `Gaussian.XXBelowNine` | gaussian.cpp:105 | For size 6 the unsigned `size − 9` wraps, so the left band ends at column 1431655765, far outside the square. |
| `Gaussian.MakeYY` | gaussian.cpp:128-132 | The YY filter is the XX filter with every box transposed. |
| `Gaussian.YYLayout` | gaussian.cpp:128-131 | The YY boxes keep the XX weights and tile the square with the axes swapped. |
| `Gaussian.MakeXY` | gaussian.cpp:65-94 | Fails the assertion exactly when size is not a multiple of 3. Otherwise it adds the four XY boxes in order. |
| `Gaussian.XYLayout` | gaussian.cpp:75-92 | From size 9 the XY boxes are four disjoint size/3 squares inside the square, weighted 1, 1, −1, −1. A one-cell gap separates them and transposition swaps the negative pair. |
| `Gaussian.XYConcrete` | gaussian.cpp:70-92 | For a multiple of 3 from 9 on, the unsigned corner arithmetic equals the plain one: four size/3 squares at offsets lo and lo + size/3 + 1. |
| `Gaussian.XYSquare` | gaussian.cpp:72-76 | `squareSize` is size/3, and `leftOver` is (size/3 − 1)/2, with no unsigned wrap-around. |
| `Gaussian.XYSquaresExact` | gaussian.cpp:79-92 | When the far corner fits in `unsigned`, no box corner wraps around. |
| `Matrices.FillCols` | matrix.hpp:9-18 | Fills columns col down to 0 of one row from the generator. Nothing else changes. |
| `Matrices.FillRows` | matrix.hpp:20-30 | Fills rows row down to 0 over the first row-count columns. Nothing else changes. |
| `Matrices.GenerateMatrix` | matrix.hpp:32-41 | A size × size matrix whose cell (r, c) is generator(r, c). Size 0 gives the empty matrix. |
| `Pixels.Pixel.Set` | pixels.hpp:42-44 | `set(i, v)` writes only slot CHANNELS·x + i of row y. |
| `Pixels.Pixel.Get` | pixels.hpp:38-40 | `get(i)` reads a value of the pixel's row. |
| `Pixels.GetPastChannels` | pixels.hpp:38-40 | `get` does not check the index against CHANNELS: channel CHANNELS + j is channel j of the pixel to the right. |
| `Pixels.Pixel.Val` | pixels.hpp:24-30 | `val()` reads the pixel's channels in order. |
| `Pixels.Pixel.SetVal` | pixels.hpp:32-36 | `val(values)` writes the pixel's slots and nothing else, so `val()` then returns values. |
| `Pixels.Pixel.Red` | pixels.hpp:56 | Red is channel 0 of the pixel's slot. |
| `Pixels.Pixel.Green` | pixels.hpp:57 | Green is channel 1 of the pixel's slot. |
| `Pixels.Pixel.Blue` | pixels.hpp:58 | Blue is channel 2 of the pixel's slot. |
| `Pixels.Pixel.Alpha` | pixels.hpp:72 | Alpha is channel 3 of the pixel's slot. |
| `Pixels.Pixel.DoubleVal` | pixels.hpp:96 | `DoublePixel::val()` reads `rows[y][x]`. |
| `Pixels.Pixel.SetDoubleVal` | pixels.hpp:98 | `DoublePixel::val(v)` writes only `rows[y][x]`. |
| `Pixels.NamedChannelSlots` | pixels.hpp:56-77 | RGB channels sit at 3x + k and RGBA channels at 4x + k. |
| `Pixels.SlotsDisjoint` | pixels.hpp:38-44 | Pixels at different x in one row use disjoint slots. |
| `Pixels.ValueUpdate` | pixels.hpp:42-44 | Setting one channel changes that channel's value and no other pixel's. |
| `Pixels.SetValValues` | pixels.hpp:32-36 | Setting a pixel's values changes that pixel and no other. |
| `Pixels.Img.At` | pixels.hpp:22 | The pixel at (y, x) reads the image's values at (y, x). |
| `Flatten.Settle` | flatten.hpp:19-23 | The skip loop stops at the next element, or at the end of the last row once the row counter reaches the row count. |
| `Flatten.SettleKeepsPrefix` | flatten.hpp:15-25 | Skipping empty rows passes no element. A finished iterator has every element behind it. |
| `Flatten.PrefixIndex` | flatten.hpp:32-34 | Element c of row r is the element of the flattening with its prefix's length. |
| `Flatten.RowFirstIterator.constructor` | flatten.hpp:12-13 | A new iterator holds the array and column iterator with row counter 0. |
| `Flatten.RowFirstIterator.SkipExhausted` | flatten.hpp:19-23 | The while loop ends where Settle says. |
| `Flatten.RowFirstIterator.Increment` | flatten.hpp:15-25 | `++` is a no-op without an array. Otherwise it moves one element on, past empty rows, and the elements behind grow by the one passed. |
| `Flatten.RowFirstIterator.Deref` | flatten.hpp:32-34 | Dereferencing yields the element of the flattening at the iterator's position. |
| `Flatten.RowFirstIterGenerator.Begin` | flatten.hpp:47-53 | `begin` is null for an empty array and the start of row 0 otherwise. |
| `Flatten.RowFirstIterGenerator.End` | flatten.hpp:55-61 | `end` is null for an empty array and the end of the last row otherwise. |
| `Flatten.EndPos` | flatten.hpp:59-60 | The end position lies past every element: the elements before it are the whole flattening. |
| `Flatten.EqualsAtEnd` | flatten.hpp:27-30 | `==` is reflexive and symmetric, and two iterators without an array are equal. An iterator pointing at an element never equals `end`. |
| `Flatten.RowFirstIterGenerator.SettledBegin` | flatten.hpp:47-53 | A `begin` that skips leading empty rows as `++` does. |
| `Flatten.Traverse` | test_flatten.cpp:28-36 | With a non-empty first row, the range-for yields every element once, row by row, skipping empty rows. |
| `Flatten.Advance` | flatten.hpp:15-34 | One dereference and `++` from a non-end position extend the visited prefix by the next element of the flattened rows. |
| `Flatten.TraverseSettled` | test_flatten.cpp:39-46 | From the settled `begin`, every array is flattened exactly. An empty one gives no iterations. |
| `Flatten.EmptyFirstRow` | flatten.hpp:52 | For [[], [7]], `begin` is not `end` yet points past the end of row 0. |
| `ImageTraversal.PixelIterator.constructor` | image_traverser.hpp:17-21 | A new iterator caches row 0 whenever it has an image. |
| `ImageTraversal.PixelIterator.Deref` | image_traverser.hpp:23-33 | Dereferencing yields the coordinates (x, y), and pixel (x, y) when the cached row is row y. |
| `ImageTraversal.PixelIterator.Increment` | image_traverser.hpp:45-56 | `++` advances x. At the row's end it goes to column 0 of the next row and refetches the cache. Reaching row `height` marks the end. |
| `ImageTraversal.ImageTraverser.Begin` | image_traverser.hpp:73 | `begin` is at (0, 0), not at the end, with row 0 cached. |
| `ImageTraversal.ImageTraverser.End` | image_traverser.hpp:78 | `end` has no image and is marked as the end. |
| `ImageTraversal.EqualsAtEnd` | image_traverser.hpp:35-39 | `==` is reflexive and symmetric, and two end iterators are equal. An iterator over an image equals the null `end` exactly when both are marked as the end. |
| `ImageTraversal.RowsAt` | image_traverser.hpp:45-51 | Pixel (x, y) is visited at position y·width + x. |
| `ImageTraversal.Traverse` | test_image_traverser.cpp:42-48 | A range-for visits width·height pixels in row-major order, each with its coordinates. |

## Left out

- PNG decoding and encoding and the libpng handles are I/O over a foreign
  library: image_file_buffer.cpp, libpng_wrapper.cpp and `img::read` /
  `img::write`. `img::height`, `img::width` and `img::channel` are inlined
  as `dims[0]`, `dims[1]` and `dims[2]`.
- What a freshly constructed image's rows hold is a parameter (`initial`
  of Filters.Filter and Filters.FilterUnchecked), of the image's shape but
  otherwise unconstrained. The vector-backed buffers fill with zeros
  (image_file_buffer.hpp:61, 83). The libpng buffer's rows come from
  `png_malloc` and are never initialised (image_file_buffer.cpp:35-39).
- image.hpp manages the lifetime of libpng row buffers. That is ownership,
  not behaviour. Its rows are modelled as the shared `Pixels.Rows` buffer.
- main.cpp and mat_main.cpp are drivers that print and write files.
  `IntegralImage::getSum` is not part of this model. `normalize` is not part
  of this model either, so gaussianXX, gaussianYY and gaussian2nd (which
  call it) are left out.
- sobel.hpp and harris.hpp are superseded variants built on helpers that are
  not part of this model. mat_view.hpp only forwards calls.
- `hypot`, `atan2` and `sqrt` are parameters that the model does not
  interpret. Doubles are exact reals, so rounding error and NaN are not
  modelled. A NaN angle, which matches no branch of `findDirection`, is
  therefore not covered.
- Only builds with debug checks on are modelled. Under `NDEBUG` the cursor
  range checks and assertions disappear and `findDirection` returns TOP
  instead of throwing.
- MatViews.View.Write: `operator=` of the 2-D view accessor is declared to
  return a reference but has no return statement. In C++, reaching the end
  of such a function is undefined behaviour, so every call is. The model
  keeps only the write its body performs (`mat[y][x][0] = v`) and returns
  nothing.
- Mats.Mat.Size: the 32-bit `unsigned` wrap of the size product is not
  modelled, and neither is the `int` overflow of the stride scan.
- Mats.Mat.Generate: the generator is a pure function, so the ascending
  order of its calls is not observable in the model.
- Matrices.GenerateMatrix: the generator is a pure function, so the
  descending order of its calls (row N−1 first, column N−1 first) is not
  observable in the model.
- Matrices.FillRows: requires at least as many columns as rows. The source
  fills columns up to the row count minus one and only ever builds square
  matrices.
- Canny.ThinEdges: requires that an image with no rows does not have 1 or 2
  columns. There the `size_t` bound `height − 1` wraps to the largest
  `size_t`, which an `unsigned y` never reaches, and the column loop runs no
  iteration, so the row loop never ends (an endless empty loop, which is
  undefined behaviour). The same requirement, for the same endless loop, is
  on Canny.RemoveIsolatedWeakPixels and Canny.Canny.
- Harris.Harris: requires that an image with no rows, or with one row and
  no channel, does not have 2 to 4 columns. There the Sobel step succeeds on
  the empty image, the `size_t` bound `height − 2` wraps to nearly the
  largest `size_t`, the column loop runs no iteration, and the row loop over
  an `unsigned y` never ends (an endless empty loop, which is undefined
  behaviour). A one-row image with a channel is covered: the Sobel step
  throws out_of_range before the loops start.
- Canny.Canny: the later passes see the suppressed grid with a single
  channel, as they index it (see Findings).
- Harris.Harris and Canny.FindGradients read channel 0 of the gradients
  where the source reads with two indices (see Findings).
- Sobel.SobelMagnitude: requires `hypot` to be non-negative, as the library's
  `std::hypot` is.
- Filters.FilterToBuffer: its reads go through raw row pointers with no
  check, so an out-of-range read is undefined behaviour. The model requires
  the image to be large enough for the mirrored window.
- Filters.FilterToBufferUnchecked: requires an odd-sized kernel whenever
  some pixel is not skipped, because the loops run to 2·(size/2) and read
  one kernel row or column past an even kernel. The same requirement is on Filters.FilterUnchecked.
- ImageTraversal.Traverse: requires a non-empty image. With width 0 the
  column counter never equals the width and the iterator runs off the row.
- ImageTraversal.PixelIterator.Increment: requires an image, because `++` on
  the end iterator dereferences a null pointer.
- The const and non-const accessor variants (`ConstMatAccessor`,
  `MatAccessor`, the two `operator*` of `PixelIterator`) are modelled once
  each. Their only difference is `const`.

## Findings

| source | as written | input that shows it | evidently intended | confidence | as-written member | corrected member |
|---|---|---|---|---|---|---|
| mat.hpp:135 | The brace read computes its position as Σ dimension(k)·index_k. | A 2 × 2 array read at {0, 1} returns element 2. | The row-major offset Σ stride_k·index_k, which gives element 1. | high; not executed | `Mats.BraceOffsetMisplacesElement` | `Mats.Mat.BraceReadRowMajor` |
| canny.cpp:18-19 | `bufferX[y][x]` uses two indices on the rank-3 Sobel output. Converting that accessor to a value fails the last-axis assertion. | Any image of at least 2 × 2 pixels with one channel. | Read channel 0, `bufferX[y][x][0]`. | high; not executed | `Canny.GradientAsWrittenFails` | `Canny.FindGradients` |
| canny.cpp:75 | The suppressed grid is created with rank 2 (line 31) but read with three indices here and written with three at line 97. | A 3 × 3 image: the read of (1, 1, 0) reads past the dimension list (undefined), then raises out_of_range or fails the last-axis assertion. | Give the suppressed grid a single channel, `{height, width, 1}`. | high; not executed | `Canny.ThinEdgesGridUnreadable` | `Canny.Canny` |
| harris.cpp:22-23 | `xIntensities[dy][dx]` uses two indices on the rank-3 Sobel output, and the products convert it to a value. | A 5 × 5 image with one channel: the read of (0, 0) fails the last-axis assertion. | Read channel 0, `xIntensities[dy][dx][0]`. | high; not executed | `Harris.WindowReadAsWritten` | `Harris.Harris` |
| flatten.hpp:52 | `begin` points at the start of row 0 even when row 0 is empty, so it is not `end` yet points at no element. | [[], [7]]: the first dereference reads past row 0. | Skip leading empty rows as `++` does. | high; not executed | `Flatten.EmptyFirstRow` | `Flatten.TraverseSettled` |
