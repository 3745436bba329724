/** Canny edge detection (canny.cpp): Sobel gradients, non-maximum
    suppression, a double threshold, one in-place hysteresis sweep and
    clearing of the border.  `hypot` and `atan2` are parameters: the model
    does not interpret floating-point transcendental functions. */
module Canny {
  import opened Wrappers
  import opened Mats
  import opened Grids
  import opened Utility
  import opened Sobel
  import opened Grayscale

  // ------------------------------------------------------------ findGradients

  /** `hypot(bufferX[y][x], bufferY[y][x])` and `atan2(…)` as written: the
      two-index reads of the Sobel responses. */
  function GradientAsWritten(gx: Mat<real>, gy: Mat<real>, y: nat, x: nat,
                             hypot: (real, real) -> real, atan2: (real, real) -> real): Result<(real, real)>
    reads gx, gy
    requires gx.Valid() && gy.Valid() && 2 <= |gx.dims| && 2 <= |gy.dims|
  {
    match Get(gx, [y, x])
    case Err(e) => Err(e)
    case Ok(xValue) =>
      match Get(gy, [y, x])
      case Err(e) => Err(e)
      case Ok(yValue) => Ok((hypot(xValue, yValue), atan2(yValue, xValue)))
  }

  /** On the rank-3 Sobel responses the two-index reads stop on the column
      axis, and turning that accessor into a value trips the last-axis
      assertion: `findGradients` as written fails at the first pixel of
      every image that has one. */
  lemma GradientAsWrittenFails(gx: Mat<real>, gy: Mat<real>, y: nat, x: nat,
                               hypot: (real, real) -> real, atan2: (real, real) -> real)
    requires IsImage(gx) && IsImage(gy) && gy.dims == gx.dims && y < gx.dims[0] && x < gx.dims[1]
    ensures GradientAsWritten(gx, gy, y, x, hypot, atan2) == Err(AssertionFailure)
  {
    TwoIndexRead(gx, y, x);
  }

  /** The gradient magnitude of every pixel, from the channel-0 Sobel
      responses, as a height × width grid. */
  ghost function IntensityGrid(input: Mat<int>, hypot: (real, real) -> real): (s: seq<real>)
    reads input
    requires IsImage(input)
    ensures |s| == input.dims[0] * input.dims[1]
  {
    var h, w := input.dims[0], input.dims[1];
    seq(h * w, i requires 0 <= i < h * w && IsImage(input) reads input =>
      Cell(h, w, i);
      hypot(GradX(input, i / w, i % w, 0), GradY(input, i / w, i % w, 0)))
  }

  /** The gradient angle of every pixel: `atan2(gy, gx)` of the channel-0
      Sobel responses. */
  ghost function AngleGrid(input: Mat<int>, atan2: (real, real) -> real): (s: seq<real>)
    reads input
    requires IsImage(input)
    ensures |s| == input.dims[0] * input.dims[1]
  {
    var h, w := input.dims[0], input.dims[1];
    seq(h * w, i requires 0 <= i < h * w && IsImage(input) reads input =>
      Cell(h, w, i);
      atan2(GradY(input, i / w, i % w, 0), GradX(input, i / w, i % w, 0)))
  }

  lemma GradientGridsAt(input: Mat<int>, hypot: (real, real) -> real, atan2: (real, real) -> real, y: nat, x: nat)
    requires IsImage(input) && y < input.dims[0] && x < input.dims[1]
    ensures At2(IntensityGrid(input, hypot), input.dims[0], input.dims[1], y, x) ==
              hypot(GradX(input, y, x, 0), GradY(input, y, x, 0))
    ensures At2(AngleGrid(input, atan2), input.dims[0], input.dims[1], y, x) ==
              atan2(GradY(input, y, x, 0), GradX(input, y, x, 0))
  {
    var h, w := input.dims[0], input.dims[1];
    var i := Idx2(w, y, x);
    Idx2Bound(h, w, y, x);
    CellOf(h, w, y, x);
    assert IntensityGrid(input, hypot)[i] == hypot(GradX(input, y, x, 0), GradY(input, y, x, 0));
    assert AngleGrid(input, atan2)[i] == atan2(GradY(input, y, x, 0), GradX(input, y, x, 0));
  }

  /** The gradient magnitude and angle of pixel (y, x) are in place. */
  ghost predicate GradientCell(I: seq<real>, D: seq<real>, X: seq<real>, Y: seq<real>, h: nat, w: nat, ch: nat,
                               hypot: (real, real) -> real, atan2: (real, real) -> real, y: nat, x: nat)
    requires |I| == h * w && |D| == h * w && |X| == h * w * ch && |Y| == h * w * ch && y < h && x < w
  {
    0 < ch &&
    At2(I, h, w, y, x) == hypot(At3(X, h, w, ch, y, x, 0), At3(Y, h, w, ch, y, x, 0)) &&
    At2(D, h, w, y, x) == atan2(At3(Y, h, w, ch, y, x, 0), At3(X, h, w, ch, y, x, 0))
  }

  /** The inner loop of `findGradients` over row y, reading channel 0: every
      pixel of the row gets its magnitude and angle and no other row changes.
      The first read of an image without channels is out of range. */
  method GradientRow(bufferX: Mat<real>, bufferY: Mat<real>, intensities: Mat<real>, directions: Mat<real>,
                     y: nat, hypot: (real, real) -> real, atan2: (real, real) -> real)
    returns (o: Outcome)
    requires IsImage(bufferX) && IsImage(bufferY) && bufferY.dims == bufferX.dims && y < bufferX.dims[0]
    requires IsGrid(intensities) && intensities.dims == bufferX.dims[..2]
    requires IsGrid(directions) && directions.dims == bufferX.dims[..2]
    requires (intensities as object) != directions
    requires (intensities as object) != bufferX && (intensities as object) != bufferY
    requires (directions as object) != bufferX && (directions as object) != bufferY
    modifies intensities, directions
    ensures IsGrid(intensities) && IsGrid(directions)
    ensures o.Fail? <==> 0 < bufferX.dims[1] && bufferX.dims[2] == 0
    ensures o.Fail? ==> o.error == OutOfRange
    ensures o.Pass? ==> forall x: nat | x < bufferX.dims[1] ::
              GradientCell(intensities.elements, directions.elements, bufferX.elements, bufferY.elements,
                           bufferX.dims[0], bufferX.dims[1], bufferX.dims[2], hypot, atan2, y, x)
    ensures forall y': nat, x: nat | y' < bufferX.dims[0] && y' != y && x < bufferX.dims[1] ::
              At2(intensities.elements, bufferX.dims[0], bufferX.dims[1], y', x) ==
                At2(old(intensities.elements), bufferX.dims[0], bufferX.dims[1], y', x) &&
              At2(directions.elements, bufferX.dims[0], bufferX.dims[1], y', x) ==
                At2(old(directions.elements), bufferX.dims[0], bufferX.dims[1], y', x)
  {
    var h, w, ch := bufferX.dims[0], bufferX.dims[1], bufferX.dims[2];
    assert bufferX.dims[..2] == [h, w];
    var x := 0;
    while x < w
      invariant x <= w
      invariant IsGrid(intensities) && IsGrid(directions)
      invariant 0 < x ==> 1 <= ch
      invariant forall x': nat | x' < x ::
                  GradientCell(intensities.elements, directions.elements, bufferX.elements, bufferY.elements,
                               h, w, ch, hypot, atan2, y, x')
      invariant forall y': nat, x': nat | y' < h && y' != y && x' < w ::
                  At2(intensities.elements, h, w, y', x') == At2(old(intensities.elements), h, w, y', x') &&
                  At2(directions.elements, h, w, y', x') == At2(old(directions.elements), h, w, y', x')
    {
      var xValue := Get(bufferX, [y, x, 0]);
      Get3(bufferX, y, x, 0);
      if xValue.Err? {
        return Fail(xValue.error);
      }
      var yValue := Get(bufferY, [y, x, 0]);
      Get3(bufferY, y, x, 0);
      ghost var I0, D0 := intensities.elements, directions.elements;
      At2Update(I0, h, w, y, x, hypot(xValue.value, yValue.value));
      At2Update(D0, h, w, y, x, atan2(yValue.value, xValue.value));
      Put2(intensities, y, x, hypot(xValue.value, yValue.value));
      Put2(directions, y, x, atan2(yValue.value, xValue.value));
      forall x': nat | x' <= x
        ensures GradientCell(intensities.elements, directions.elements, bufferX.elements, bufferY.elements,
                             h, w, ch, hypot, atan2, y, x')
      {
        if x' < x {
          assert GradientCell(I0, D0, bufferX.elements, bufferY.elements, h, w, ch, hypot, atan2, y, x');
        }
      }
      x := x + 1;
    }
    o := Pass;
  }

  /** The loops of `findGradients`, reading channel 0 of each Sobel response
      (`bufferX[y][x][0]`): two fresh height × width grids, one holding
      `hypot(gx, gy)` and one `atan2(gy, gx)` for every pixel.  The first read
      of an image without channels is out of range. */
  method GradientGrids(bufferX: Mat<real>, bufferY: Mat<real>,
                       hypot: (real, real) -> real, atan2: (real, real) -> real)
    returns (r: Result<(Mat<real>, Mat<real>)>)
    requires IsImage(bufferX) && IsImage(bufferY) && bufferY.dims == bufferX.dims
    ensures r.Ok? <==> bufferX.dims[0] == 0 || bufferX.dims[1] == 0 || 1 <= bufferX.dims[2]
    ensures r.Err? ==> r.error == OutOfRange
    ensures r.Ok? ==> fresh(r.value.0) && fresh(r.value.1) && (r.value.0 as object) != r.value.1
    ensures r.Ok? ==> IsGrid(r.value.0) && r.value.0.dims == bufferX.dims[..2]
    ensures r.Ok? ==> IsGrid(r.value.1) && r.value.1.dims == bufferX.dims[..2]
    ensures r.Ok? ==> forall y: nat, x: nat | y < bufferX.dims[0] && x < bufferX.dims[1] ::
              0 < bufferX.dims[2] &&
              At2(r.value.0.elements, bufferX.dims[0], bufferX.dims[1], y, x) ==
                hypot(At3(bufferX.elements, bufferX.dims[0], bufferX.dims[1], bufferX.dims[2], y, x, 0),
                      At3(bufferY.elements, bufferX.dims[0], bufferX.dims[1], bufferX.dims[2], y, x, 0)) &&
              At2(r.value.1.elements, bufferX.dims[0], bufferX.dims[1], y, x) ==
                atan2(At3(bufferY.elements, bufferX.dims[0], bufferX.dims[1], bufferX.dims[2], y, x, 0),
                      At3(bufferX.elements, bufferX.dims[0], bufferX.dims[1], bufferX.dims[2], y, x, 0))
  {
    var h, w, ch := bufferX.dims[0], bufferX.dims[1], bufferX.dims[2];
    assert bufferX.dims[..2] == [h, w];
    var intensities := new Mat<real>.Zeros([h, w], 0.0);
    var directions := new Mat<real>.Zeros([h, w], 0.0);
    Shape2(h, w);
    var y := 0;
    while y < h
      modifies intensities, directions
      invariant y <= h
      invariant IsGrid(intensities) && IsGrid(directions)
      invariant 0 < y && 0 < w ==> 1 <= ch
      invariant forall y': nat, x': nat | y' < y && x' < w ::
                  GradientCell(intensities.elements, directions.elements, bufferX.elements, bufferY.elements,
                               h, w, ch, hypot, atan2, y', x')
    {
      ghost var I0, D0 := intensities.elements, directions.elements;
      var o := GradientRow(bufferX, bufferY, intensities, directions, y, hypot, atan2);
      if o.Fail? {
        return Err(o.error);
      }
      forall y': nat, x': nat | y' <= y && x' < w
        ensures GradientCell(intensities.elements, directions.elements, bufferX.elements, bufferY.elements,
                             h, w, ch, hypot, atan2, y', x')
      {
        if y' < y {
          assert GradientCell(I0, D0, bufferX.elements, bufferY.elements, h, w, ch, hypot, atan2, y', x');
        }
      }
      y := y + 1;
    }
    forall y': nat, x': nat | y' < h && x' < w
      ensures 0 < ch &&
              At2(intensities.elements, h, w, y', x') ==
                hypot(At3(bufferX.elements, h, w, ch, y', x', 0), At3(bufferY.elements, h, w, ch, y', x', 0)) &&
              At2(directions.elements, h, w, y', x') ==
                atan2(At3(bufferY.elements, h, w, ch, y', x', 0), At3(bufferX.elements, h, w, ch, y', x', 0))
    {
      assert GradientCell(intensities.elements, directions.elements, bufferX.elements, bufferY.elements,
                          h, w, ch, hypot, atan2, y', x');
    }
    r := Ok((intensities, directions));
  }

  /** `findGradients` with channel-0 reads: the gradient magnitude and angle
      of every pixel of the image.  A non-empty image needs at least two rows
      and two columns (the Sobel pass) and one channel (the reads). */
  method FindGradients(input: Mat<int>, hypot: (real, real) -> real, atan2: (real, real) -> real)
    returns (r: Result<(Mat<real>, Mat<real>)>)
    requires IsImage(input)
    ensures r.Ok? <==>
              input.dims[0] == 0 || input.dims[1] == 0 ||
              (2 <= input.dims[0] && 2 <= input.dims[1] && 1 <= input.dims[2])
    ensures r.Err? ==> r.error == OutOfRange
    ensures r.Ok? ==> fresh(r.value.0) && fresh(r.value.1) && (r.value.0 as object) != r.value.1
    ensures r.Ok? ==> IsGrid(r.value.0) && r.value.0.dims == [input.dims[0], input.dims[1]]
    ensures r.Ok? ==> IsGrid(r.value.1) && r.value.1.dims == [input.dims[0], input.dims[1]]
    ensures r.Ok? ==> r.value.0.elements == IntensityGrid(input, hypot)
    ensures r.Ok? ==> r.value.1.elements == AngleGrid(input, atan2)
  {
    var h, w := input.dims[0], input.dims[1];
    var g := SobelXYGradients(input);
    if g.Err? {
      return Err(g.error);
    }
    r := GradientGrids(g.value.0, g.value.1, hypot, atan2);
    if r.Ok? {
      assert input.dims[..2] == [h, w];
      forall y: nat, x: nat | y < h && x < w
        ensures At2(r.value.0.elements, h, w, y, x) == At2(IntensityGrid(input, hypot), h, w, y, x)
        ensures At2(r.value.1.elements, h, w, y, x) == At2(AngleGrid(input, atan2), h, w, y, x)
      {
        GradientGridsAt(input, hypot, atan2, y, x);
      }
      GridExtensional(r.value.0.elements, IntensityGrid(input, hypot), h, w);
      GridExtensional(r.value.1.elements, AngleGrid(input, atan2), h, w);
    }
  }

  // ---------------------------------------------------------------- thinEdges

  /** Cell (y, x) is one `thinEdges` visits: not on the outermost rows or
      columns. */
  predicate Interior(h: nat, w: nat, y: nat, x: nat)
  {
    1 <= y && y + 1 < h && 1 <= x && x + 1 < w
  }

  /** The loop bounds `height - 1` and `width - 1` are computed in `size_t`.
      With no rows, or with no columns and at least three rows, one of them
      wraps round to the largest `size_t`, the loops start, and the first
      read, of cell (1, 1), is out of range.  (With no rows and one or two
      columns the row loop never ends.) */
  predicate WrappedBounds(h: nat, w: nat)
  {
    (h == 0 && (w == 0 || 3 <= w)) || (w == 0 && 3 <= h)
  }

  /** Every interior angle falls in a compass sector. */
  ghost predicate Oriented(D: seq<real>, h: nat, w: nat)
    requires |D| == h * w
  {
    forall y: nat, x: nat | Interior(h, w, y, x) :: FindDirection(At2(D, h, w, y, x)).Ok?
  }

  /** The intensity of the neighbour of interior cell (y, x) in direction d. */
  function Along(I: seq<real>, h: nat, w: nat, y: nat, x: nat, d: Direction): real
    requires |I| == h * w && Interior(h, w, y, x)
  {
    OffsetsDistinct(d, d);
    At2(I, h, w, y + Utility.Offset(d).1, x + Utility.Offset(d).0)
  }

  /** `std::min(std::round(i), 255.0)`. */
  function Capped(i: real): int
  {
    var n := Round(i);
    if n < 255 then n else 255
  }

  /** Non-maximum suppression at an interior cell: the angle picks a compass
      direction; the cell keeps its rounded, capped intensity only when it is
      strictly above its neighbour in that direction and not below the
      neighbour in the opposite one, and is 0 otherwise.  An angle of exactly
      ±7π/8 is a `logic_error`. */
  function NmsAt(I: seq<real>, D: seq<real>, h: nat, w: nat, y: nat, x: nat): (r: Result<int>)
    requires |I| == h * w && |D| == h * w && Interior(h, w, y, x)
    ensures r.Err? <==> FindDirection(At2(D, h, w, y, x)).Err?
    ensures r.Err? ==> r.error == LogicError
    ensures r.Ok? ==> r.value <= 255 && (0.0 <= At2(I, h, w, y, x) ==> 0 <= r.value)
    ensures r.Ok? && r.value != 0 ==>
              var d := FindDirection(At2(D, h, w, y, x)).value;
              At2(I, h, w, y, x) > Along(I, h, w, y, x, d) &&
              At2(I, h, w, y, x) >= Along(I, h, w, y, x, Opposite(d))
  {
    match FindDirection(At2(D, h, w, y, x))
    case Err(e) => Err(e)
    case Ok(pos) =>
      var i := At2(I, h, w, y, x);
      if i > Along(I, h, w, y, x, pos) && i >= Along(I, h, w, y, x, Opposite(pos)) then Ok(Capped(i)) else Ok(0)
  }

  /** Suppression thins ridges: of two interior cells next to each other
      along their common gradient direction, at most one keeps a value. */
  lemma NmsThins(I: seq<real>, D: seq<real>, h: nat, w: nat, y: nat, x: nat, d: Direction)
    requires |I| == h * w && |D| == h * w && Interior(h, w, y, x)
    requires 0 <= y + Utility.Offset(d).1 && 0 <= x + Utility.Offset(d).0
    requires Interior(h, w, y + Utility.Offset(d).1, x + Utility.Offset(d).0)
    requires FindDirection(At2(D, h, w, y, x)) == Ok(d)
    requires FindDirection(At2(D, h, w, y + Utility.Offset(d).1, x + Utility.Offset(d).0)) == Ok(d)
    ensures NmsAt(I, D, h, w, y, x) == Ok(0) ||
            NmsAt(I, D, h, w, y + Utility.Offset(d).1, x + Utility.Offset(d).0) == Ok(0)
  {
    var y', x' := y + Utility.Offset(d).1, x + Utility.Offset(d).0;
    assert Along(I, h, w, y, x, d) == At2(I, h, w, y', x');
    assert Along(I, h, w, y', x', Opposite(d)) == At2(I, h, w, y, x);
  }

  /** Every cell of the `thinEdges` output: the suppressed value on interior
      cells and 0 on the outermost rows and columns. */
  ghost function NmsImage(I: seq<real>, D: seq<real>, h: nat, w: nat): (s: seq<int>)
    requires |I| == h * w && |D| == h * w && Oriented(D, h, w)
    ensures |s| == h * w
  {
    seq(h * w, i requires 0 <= i < h * w =>
      Cell(h, w, i);
      if Interior(h, w, i / w, i % w) then NmsAt(I, D, h, w, i / w, i % w).value else 0)
  }

  lemma NmsImageAt(I: seq<real>, D: seq<real>, h: nat, w: nat, y: nat, x: nat)
    requires |I| == h * w && |D| == h * w && Oriented(D, h, w) && y < h && x < w
    ensures At2(NmsImage(I, D, h, w), h, w, y, x) ==
              if Interior(h, w, y, x) then NmsAt(I, D, h, w, y, x).value else 0
  {
    var i := Idx2(w, y, x);
    Idx2Bound(h, w, y, x);
    CellOf(h, w, y, x);
    assert NmsImage(I, D, h, w)[i] == if Interior(h, w, y, x) then NmsAt(I, D, h, w, y, x).value else 0;
  }

  /** `intensities[y + posY][x + posX]`: the offset components come as
      `size_t`, so -1 arrives as 2^64 - 1; the sum wraps back and is then
      passed on as an `unsigned` index. */
  method Neighbour(intensities: Mat<real>, y: nat, x: nat, d: Direction) returns (v: real)
    requires IsGrid(intensities) && Interior(intensities.dims[0], intensities.dims[1], y, x)
    requires intensities.dims[0] <= UNSIGNED_RANGE && intensities.dims[1] <= UNSIGNED_RANGE
    ensures v == Along(intensities.elements, intensities.dims[0], intensities.dims[1], y, x, d)
  {
    OffsetsDistinct(d, d);
    var dx, dy := Utility.Offset(d).0, Utility.Offset(d).1;
    var posX, posY := SizeT(dx), SizeT(dy);
    SizeTSum(y, dy);
    SizeTSum(x, dx);
    var ny := (y + posY) % SIZE_T_RANGE % UNSIGNED_RANGE;
    var nx := (x + posX) % SIZE_T_RANGE % UNSIGNED_RANGE;
    assert ny == y + dy && nx == x + dx;
    Get2(intensities, ny, nx);
    var read := Get(intensities, [ny, nx]);
    v := read.value;
  }

  /** The cells of `o` before (y, x) in row-major order hold their
      suppressed values; all others are still 0. */
  ghost predicate Written(o: seq<int>, I: seq<real>, D: seq<real>, h: nat, w: nat, y: nat, x: nat)
    requires |o| == h * w && |I| == h * w && |D| == h * w
  {
    forall y': nat, x': nat | y' < h && x' < w ::
      if Interior(h, w, y', x') && (y' < y || (y' == y && x' < x))
      then NmsAt(I, D, h, w, y', x').Ok? && At2(o, h, w, y', x') == NmsAt(I, D, h, w, y', x').value
      else At2(o, h, w, y', x') == 0
  }

  /** Writing the suppressed value of interior cell (y, x) extends the
      written prefix past it. */
  lemma WrittenStep(o: seq<int>, I: seq<real>, D: seq<real>, h: nat, w: nat, y: nat, x: nat)
    requires |o| == h * w && |I| == h * w && |D| == h * w && Interior(h, w, y, x)
    requires Written(o, I, D, h, w, y, x) && NmsAt(I, D, h, w, y, x).Ok?
    ensures Idx2(w, y, x) < |o|
    ensures Written(o[Idx2(w, y, x) := NmsAt(I, D, h, w, y, x).value], I, D, h, w, y, x + 1)
  {
    At2Update(o, h, w, y, x, NmsAt(I, D, h, w, y, x).value);
  }

  /** Past the last interior column the row is done. */
  lemma WrittenRow(o: seq<int>, I: seq<real>, D: seq<real>, h: nat, w: nat, y: nat, x: nat)
    requires |o| == h * w && |I| == h * w && |D| == h * w
    requires Written(o, I, D, h, w, y, x) && w <= x + 1
    ensures Written(o, I, D, h, w, y + 1, 0)
  {
  }

  /** The body of the `thinEdges` loops at one interior cell: the value it
      writes there, or the `logic_error` of `findDirection`. */
  method SuppressCell(intensities: Mat<real>, directions: Mat<real>, y: nat, x: nat) returns (r: Result<int>)
    requires IsGrid(intensities) && IsGrid(directions) && directions.dims == intensities.dims
    requires intensities.dims[0] <= UNSIGNED_RANGE && intensities.dims[1] <= UNSIGNED_RANGE
    requires Interior(intensities.dims[0], intensities.dims[1], y, x)
    ensures r == NmsAt(intensities.elements, directions.elements, intensities.dims[0], intensities.dims[1], y, x)
  {
    var h, w := intensities.dims[0], intensities.dims[1];
    var intensity := Get(intensities, [y, x]);
    Get2(intensities, y, x);
    var theta := Get(directions, [y, x]);
    Get2(directions, y, x);
    var pos := FindDirection(theta.value);
    if pos.Err? {
      return Err(pos.error);
    }
    var neg := Opposite(pos.value);
    var posIntensity := Neighbour(intensities, y, x, pos.value);
    var negIntensity := Neighbour(intensities, y, x, neg);
    r := Ok(if intensity.value > posIntensity && intensity.value >= negIntensity then Capped(intensity.value) else 0);
  }

  /** `thinEdges`: a fresh zeroed height × width grid whose interior cells
      get their suppressed values, row by row.  It fails when a loop bound
      wraps round or when an interior angle is exactly ±7π/8. */
  method ThinEdges(intensities: Mat<real>, directions: Mat<real>) returns (r: Result<Mat<int>>)
    requires IsGrid(intensities) && IsGrid(directions) && directions.dims == intensities.dims
    requires intensities.dims[0] <= UNSIGNED_RANGE && intensities.dims[1] <= UNSIGNED_RANGE
    requires !(intensities.dims[0] == 0 && 1 <= intensities.dims[1] <= 2)
    ensures r.Err? <==>
              WrappedBounds(intensities.dims[0], intensities.dims[1]) ||
              !Oriented(directions.elements, intensities.dims[0], intensities.dims[1])
    ensures r.Err? ==>
              r.error == if WrappedBounds(intensities.dims[0], intensities.dims[1]) then OutOfRange else LogicError
    ensures r.Ok? ==> fresh(r.value) && IsGrid(r.value) && r.value.dims == intensities.dims
    ensures r.Ok? ==>
              r.value.elements == NmsImage(intensities.elements, directions.elements, intensities.dims[0], intensities.dims[1])
  {
    var h, w := intensities.dims[0], intensities.dims[1];
    if WrappedBounds(h, w) {
      var first := Get(intensities, [1, 1]);
      Get2(intensities, 1, 1);
      return Err(first.error);
    }
    var output := new Mat<int>.Zeros([h, w], 0);
    Shape2(h, w);
    assert intensities.dims == [h, w];
    forall y': nat, x': nat | y' < h && x' < w
      ensures At2(output.elements, h, w, y', x') == 0
    {
      Idx2Bound(h, w, y', x');
    }
    var y := 1;
    while y + 1 < h
      invariant 1 <= y && (y == 1 || y < h)
      invariant IsGrid(output) && output.dims == [h, w]
      invariant Written(output.elements, intensities.elements, directions.elements, h, w, y, 0)
    {
      var x := 1;
      while x + 1 < w
        invariant 1 <= x && (x == 1 || x < w)
        invariant IsGrid(output) && output.dims == [h, w]
        invariant Written(output.elements, intensities.elements, directions.elements, h, w, y, x)
      {
        var cell := SuppressCell(intensities, directions, y, x);
        if cell.Err? {
          assert Interior(h, w, y, x) && FindDirection(At2(directions.elements, h, w, y, x)).Err?;
          return Err(cell.error);
        }
        WrittenStep(output.elements, intensities.elements, directions.elements, h, w, y, x);
        Put2(output, y, x, cell.value);
        x := x + 1;
      }
      WrittenRow(output.elements, intensities.elements, directions.elements, h, w, y, x);
      y := y + 1;
    }
    assert Oriented(directions.elements, h, w);
    forall y': nat, x': nat | y' < h && x' < w
      ensures At2(output.elements, h, w, y', x') == At2(NmsImage(intensities.elements, directions.elements, h, w), h, w, y', x')
    {
      NmsImageAt(intensities.elements, directions.elements, h, w, y', x');
    }
    GridExtensional(output.elements, NmsImage(intensities.elements, directions.elements, h, w), h, w);
    r := Ok(output);
  }

  /** `input[y][x][0]` (the reads and writes of the passes after `thinEdges`)
      on the rank-2 grid `thinEdges` returns, as written: the range check of
      the third index reads `dimension(2)` past the end of the two-entry
      dimension list, which is undefined behaviour and stands here as
      `beyond`; if that lets the index through, the accessor sits on an axis
      the Mat does not have. */
  function ReadPastLastAxis<E>(m: Mat<E>, y: nat, x: nat, i: nat, beyond: nat): Result<E>
    reads m
    requires m.Valid() && |m.dims| == 2
  {
    match m.Index(y)
    case Err(e) => Err(e)
    case Ok(row) =>
      match row.IndexFurther(x)
      case Err(e) => Err(e)
      case Ok(cell) =>
        if i >= beyond then Err(OutOfRange)
        else Cursor(m, cell.axis + 1, i, cell.offset + cell.index * m.strides[cell.axis]).Read()
  }

  /** Whatever `dimension(2)` yields, no third-index read of the `thinEdges`
      grid produces a value: it raises out_of_range or fails the last-axis
      assertion, the latter for every in-range cell whose index passes the
      check. */
  lemma ThinEdgesGridUnreadable<E>(m: Mat<E>, y: nat, x: nat, i: nat, beyond: nat)
    requires IsGrid(m)
    ensures ReadPastLastAxis(m, y, x, i, beyond).Err?
    ensures y < m.dims[0] && x < m.dims[1] && i < beyond ==>
              ReadPastLastAxis(m, y, x, i, beyond) == Err(AssertionFailure)
  {
    assert |m.strides| == 2;
  }

  // -------------------------------------------------- findStrongAndWeakPixels

  /** The double threshold: below min a value is off (0), below max it is
      weak (128), otherwise strong (255). */
  function Classify(v: int, min: int, max: int): (c: int)
    ensures c == 0 || c == 128 || c == 255
    ensures c == 0 <==> v < min
    ensures c == 255 <==> min <= v && max <= v
  {
    if v < min then 0 else if v < max then 128 else 255
  }

  /** A larger value never classifies lower. */
  lemma ClassifyMonotone(v: int, v': int, min: int, max: int)
    requires v <= v'
    ensures Classify(v, min, max) <= Classify(v', min, max)
  {
  }

  /** Every element classified. */
  function Thresholded(s: seq<int>, min: int, max: int): (t: seq<int>)
    ensures |t| == |s|
    ensures forall i | 0 <= i < |t| :: t[i] == 0 || t[i] == 128 || t[i] == 255
  {
    seq(|s|, i requires 0 <= i < |s| => Classify(s[i], min, max))
  }

  /** `findStrongAndWeakPixels`: every element, in storage order, replaced
      by its class. */
  method FindStrongAndWeakPixels(input: Mat<int>, min: int, max: int)
    modifies input
    ensures input.elements == Thresholded(old(input.elements), min, max)
  {
    var i := 0;
    while i < |input.elements|
      invariant i <= |input.elements| == |old(input.elements)|
      invariant input.elements[..i] == Thresholded(old(input.elements), min, max)[..i]
      invariant input.elements[i..] == old(input.elements)[i..]
    {
      input.SetAt(i, Classify(input.At(i), min, max));
      i := i + 1;
    }
  }

  // -------------------------------------------------- removeBoundaryArtifacts

  /** Cell (y, x) lies on the first or last row or column. */
  predicate OnBorder(h: nat, w: nat, y: nat, x: nat)
  {
    y == 0 || y + 1 == h || x == 0 || x + 1 == w
  }

  /** Channel 0 of every border pixel set to 0. */
  ghost function ClearBorder(s: seq<int>, h: nat, w: nat, ch: nat): (t: seq<int>)
    requires |s| == h * w * ch
    ensures |t| == |s|
  {
    seq(|s|, i requires 0 <= i < |s| =>
      Cell(h * w, ch, i);
      Cell(h, w, i / ch);
      if i % ch == 0 && OnBorder(h, w, i / ch / w, i / ch % w) then 0 else s[i])
  }

  /** Clearing the border zeroes channel 0 of row 0, row h - 1, column 0
      and column w - 1, and changes nothing else. */
  lemma ClearBorderAt(s: seq<int>, h: nat, w: nat, ch: nat, y: nat, x: nat, c: nat)
    requires |s| == h * w * ch && y < h && x < w && c < ch
    ensures At3(ClearBorder(s, h, w, ch), h, w, ch, y, x, c) ==
              if c == 0 && OnBorder(h, w, y, x) then 0 else At3(s, h, w, ch, y, x, c)
  {
    var p := Idx2(w, y, x);
    var i := Idx3(w, ch, y, x, c);
    Idx3Bound(h, w, ch, y, x, c);
    Idx2Bound(h, w, y, x);
    CellOf(h * w, ch, p, c);
    CellOf(h, w, y, x);
    assert ClearBorder(s, h, w, ch)[i] == if c == 0 && OnBorder(h, w, y, x) then 0 else s[i];
  }

  /** `removeBoundaryArtifacts`: zeroes channel 0 down the first and last
      columns, then along the first and last rows.  An image with rows but
      no columns, columns but no rows, or pixels but no channels fails at
      its first write and is left unchanged. */
  method RemoveBoundaryArtifacts(input: Mat<int>) returns (o: Outcome)
    requires IsImage(input)
    modifies input
    ensures o.Fail? <==>
              (0 < input.dims[0] && input.dims[1] == 0) || (input.dims[0] == 0 && 0 < input.dims[1]) ||
              (0 < input.dims[0] && 0 < input.dims[1] && input.dims[2] == 0)
    ensures o.Fail? ==> o.error == OutOfRange && input.elements == old(input.elements)
    ensures o.Pass? ==> input.elements == ClearBorder(old(input.elements), input.dims[0], input.dims[1], input.dims[2])
  {
    var h, w, ch := input.dims[0], input.dims[1], input.dims[2];
    var y := 0;
    while y < h
      invariant y <= h && IsImage(input)
      invariant 0 < y ==> 0 < w && 0 < ch
      invariant y == 0 ==> input.elements == old(input.elements)
      invariant forall y': nat, x': nat, c: nat | y' < h && x' < w && c < ch ::
                  At3(input.elements, h, w, ch, y', x', c) ==
                    if c == 0 && y' < y && (x' == 0 || x' + 1 == w) then 0 else At3(old(input.elements), h, w, ch, y', x', c)
    {
      ghost var e0 := input.elements;
      o := Store3(input, y, 0, 0, 0);
      if o.Fail? {
        return;
      }
      At3Update(e0, h, w, ch, y, 0, 0, 0);
      ghost var e1 := input.elements;
      Put3(input, y, w - 1, 0, 0);
      At3Update(e1, h, w, ch, y, w - 1, 0, 0);
      forall y': nat, x': nat, c: nat | y' < h && x' < w && c < ch
        ensures At3(input.elements, h, w, ch, y', x', c) ==
                  if c == 0 && y' < y + 1 && (x' == 0 || x' + 1 == w) then 0 else At3(old(input.elements), h, w, ch, y', x', c)
      {
        if !(y' == y && c == 0 && (x' == 0 || x' + 1 == w)) {
          assert At3(input.elements, h, w, ch, y', x', c) == At3(e1, h, w, ch, y', x', c) == At3(e0, h, w, ch, y', x', c);
        }
      }
      y := y + 1;
    }
    var x := 0;
    while x < w
      invariant x <= w && IsImage(input)
      invariant 0 < x ==> 0 < h && 0 < ch
      invariant h == 0 ==> input.elements == old(input.elements)
      invariant forall y': nat, x': nat, c: nat | y' < h && x' < w && c < ch ::
                  At3(input.elements, h, w, ch, y', x', c) ==
                    if c == 0 && ((x' == 0 || x' + 1 == w) || ((y' == 0 || y' + 1 == h) && x' < x)) then 0
                    else At3(old(input.elements), h, w, ch, y', x', c)
    {
      ghost var e0 := input.elements;
      o := Store3(input, 0, x, 0, 0);
      if o.Fail? {
        return;
      }
      At3Update(e0, h, w, ch, 0, x, 0, 0);
      ghost var e1 := input.elements;
      Put3(input, h - 1, x, 0, 0);
      At3Update(e1, h, w, ch, h - 1, x, 0, 0);
      forall y': nat, x': nat, c: nat | y' < h && x' < w && c < ch
        ensures At3(input.elements, h, w, ch, y', x', c) ==
                  if c == 0 && ((x' == 0 || x' + 1 == w) || ((y' == 0 || y' + 1 == h) && x' < x + 1)) then 0
                  else At3(old(input.elements), h, w, ch, y', x', c)
      {
        if !(x' == x && c == 0 && (y' == 0 || y' + 1 == h)) {
          assert At3(input.elements, h, w, ch, y', x', c) == At3(e1, h, w, ch, y', x', c) == At3(e0, h, w, ch, y', x', c);
        }
      }
      x := x + 1;
    }
    o := Pass;
    forall y': nat, x': nat, c: nat | y' < h && x' < w && c < ch
      ensures At3(input.elements, h, w, ch, y', x', c) ==
                At3(ClearBorder(old(input.elements), h, w, ch), h, w, ch, y', x', c)
    {
      ClearBorderAt(old(input.elements), h, w, ch, y', x', c);
    }
    ImageExtensional(input.elements, ClearBorder(old(input.elements), h, w, ch), h, w, ch);
  }

  // ------------------------------------------------- removeIsolatedWeakPixels

  /** One of the cells the neighbour loops of (y, x) visit (rows y - 1 and
      y, columns x - 1 and x) holds 255 in channel 0. */
  predicate StrongNear(s: seq<int>, h: nat, w: nat, ch: nat, y: nat, x: nat)
    requires |s| == h * w * ch && 1 <= y < h && 1 <= x < w && 0 < ch
  {
    At3(s, h, w, ch, y - 1, x - 1, 0) == 255 || At3(s, h, w, ch, y - 1, x, 0) == 255 ||
    At3(s, h, w, ch, y, x - 1, 0) == 255 || At3(s, h, w, ch, y, x, 0) == 255
  }

  /** One step of the sweep at (y, x): a weak cell (128) becomes strong
      when a visited cell is strong and off otherwise; any other value stays. */
  function Promote(s: seq<int>, h: nat, w: nat, ch: nat, y: nat, x: nat): (t: seq<int>)
    requires |s| == h * w * ch && 1 <= y < h && 1 <= x < w && 0 < ch
    ensures |t| == |s|
  {
    Idx3Bound(h, w, ch, y, x, 0);
    if At3(s, h, w, ch, y, x, 0) != 128 then s
    else s[Idx3(w, ch, y, x, 0) := if StrongNear(s, h, w, ch, y, x) then 255 else 0]
  }

  /** Columns 1..n of row y swept in order, each step seeing the earlier
      ones. */
  function SweepRow(s: seq<int>, h: nat, w: nat, ch: nat, y: nat, n: nat): (t: seq<int>)
    requires |s| == h * w * ch && 1 <= y < h && 0 < ch && (n == 0 || n + 1 < w)
    ensures |t| == |s|
    decreases n
  {
    if n == 0 then s else Promote(SweepRow(s, h, w, ch, y, n - 1), h, w, ch, y, n)
  }

  /** The number of columns a row sweep visits. */
  function Columns(w: nat): nat
  {
    if w < 2 then 0 else w - 2
  }

  /** Rows 1..m swept in order. */
  function Sweep(s: seq<int>, h: nat, w: nat, ch: nat, m: nat): (t: seq<int>)
    requires |s| == h * w * ch && 0 < ch && (m == 0 || m + 1 < h)
    ensures |t| == |s|
  {
    if m == 0 then s else SweepRow(Sweep(s, h, w, ch, m - 1), h, w, ch, m, Columns(w))
  }

  /** The whole sweep of `removeIsolatedWeakPixels` over the interior. */
  function Hysteresis(s: seq<int>, h: nat, w: nat, ch: nat): (t: seq<int>)
    requires |s| == h * w * ch
    ensures |t| == |s|
  {
    if ch == 0 || h < 3 then s else Sweep(s, h, w, ch, h - 2)
  }

  /** t is s with some channel-0 cells of row y, columns 1..n, that held 128
      in s now holding 0 or 255; nothing else differs. */
  ghost predicate RowSettled(s: seq<int>, t: seq<int>, h: nat, w: nat, ch: nat, y: nat, n: nat)
    requires |s| == h * w * ch && |t| == h * w * ch
  {
    forall y': nat, x': nat, c: nat | y' < h && x' < w && c < ch ::
      if y' == y && 1 <= x' <= n && c == 0 && At3(s, h, w, ch, y', x', 0) == 128
      then At3(t, h, w, ch, y', x', 0) == 0 || At3(t, h, w, ch, y', x', 0) == 255
      else At3(t, h, w, ch, y', x', c) == At3(s, h, w, ch, y', x', c)
  }

  lemma {:induction false} SweepRowSettles(s: seq<int>, h: nat, w: nat, ch: nat, y: nat, n: nat)
    requires |s| == h * w * ch && 1 <= y < h && 0 < ch && (n == 0 || n + 1 < w)
    ensures RowSettled(s, SweepRow(s, h, w, ch, y, n), h, w, ch, y, n)
    decreases n
  {
    if n > 0 {
      var t := SweepRow(s, h, w, ch, y, n - 1);
      SweepRowSettles(s, h, w, ch, y, n - 1);
      At3Update(t, h, w, ch, y, n, 0, if StrongNear(t, h, w, ch, y, n) then 255 else 0);
    }
  }

  /** t is s with some interior channel-0 cells of rows 1..m that held 128
      in s now holding 0 or 255; nothing else differs. */
  ghost predicate RowsSettled(s: seq<int>, t: seq<int>, h: nat, w: nat, ch: nat, m: nat)
    requires |s| == h * w * ch && |t| == h * w * ch
  {
    forall y': nat, x': nat, c: nat | y' < h && x' < w && c < ch ::
      if 1 <= y' <= m && 1 <= x' <= Columns(w) && c == 0 && At3(s, h, w, ch, y', x', 0) == 128
      then At3(t, h, w, ch, y', x', 0) == 0 || At3(t, h, w, ch, y', x', 0) == 255
      else At3(t, h, w, ch, y', x', c) == At3(s, h, w, ch, y', x', c)
  }

  lemma {:induction false} SweepSettles(s: seq<int>, h: nat, w: nat, ch: nat, m: nat)
    requires |s| == h * w * ch && 0 < ch && (m == 0 || m + 1 < h)
    ensures RowsSettled(s, Sweep(s, h, w, ch, m), h, w, ch, m)
  {
    if m > 0 {
      var u := Sweep(s, h, w, ch, m - 1);
      SweepSettles(s, h, w, ch, m - 1);
      SweepRowSettles(u, h, w, ch, m, Columns(w));
    }
  }

  /** Hysteresis changes only interior channel-0 cells that held 128, and
      each of those ends as 0 or 255: afterwards no interior cell is weak. */
  lemma HysteresisSettles(s: seq<int>, h: nat, w: nat, ch: nat, y: nat, x: nat, c: nat)
    requires |s| == h * w * ch && y < h && x < w && c < ch
    ensures Interior(h, w, y, x) && c == 0 && At3(s, h, w, ch, y, x, 0) == 128 ==>
              At3(Hysteresis(s, h, w, ch), h, w, ch, y, x, 0) == 0 || At3(Hysteresis(s, h, w, ch), h, w, ch, y, x, 0) == 255
    ensures !(Interior(h, w, y, x) && c == 0 && At3(s, h, w, ch, y, x, 0) == 128) ==>
              At3(Hysteresis(s, h, w, ch), h, w, ch, y, x, c) == At3(s, h, w, ch, y, x, c)
  {
    if 3 <= h {
      SweepSettles(s, h, w, ch, h - 2);
    }
  }

  /** Sweeping columns k + 1..n of row y after columns 1..k leaves every
      other cell as the first k steps left it. */
  lemma {:induction false} SweepRowLater(s: seq<int>, h: nat, w: nat, ch: nat, y: nat, k: nat, n: nat,
                                         y': nat, x': nat, c: nat)
    requires |s| == h * w * ch && 1 <= y < h && 0 < ch && k <= n && (n == 0 || n + 1 < w)
    requires y' < h && x' < w && c < ch && !(y' == y && k < x' <= n && c == 0)
    ensures At3(SweepRow(s, h, w, ch, y, n), h, w, ch, y', x', c) ==
            At3(SweepRow(s, h, w, ch, y, k), h, w, ch, y', x', c)
    decreases n
  {
    if k < n {
      var t := SweepRow(s, h, w, ch, y, n - 1);
      SweepRowLater(s, h, w, ch, y, k, n - 1, y', x', c);
      At3Update(t, h, w, ch, y, n, 0, if StrongNear(t, h, w, ch, y, n) then 255 else 0);
    }
  }

  /** Sweeping rows k + 1..m after rows 1..k leaves every other row as the
      first k rows left it. */
  lemma {:induction false} SweepLater(s: seq<int>, h: nat, w: nat, ch: nat, k: nat, m: nat,
                                      y': nat, x': nat, c: nat)
    requires |s| == h * w * ch && 0 < ch && k <= m && (m == 0 || m + 1 < h)
    requires y' < h && x' < w && c < ch && !(k < y' <= m)
    ensures At3(Sweep(s, h, w, ch, m), h, w, ch, y', x', c) == At3(Sweep(s, h, w, ch, k), h, w, ch, y', x', c)
  {
    if k < m {
      SweepLater(s, h, w, ch, k, m - 1, y', x', c);
      SweepRowSettles(Sweep(s, h, w, ch, m - 1), h, w, ch, m, Columns(w));
    }
  }

  /** A cell at or before (y, x) in row-major order, within one row of it,
      is not touched by the steps of the sweep after (y, x). */
  lemma FinalAfterStep(s: seq<int>, h: nat, w: nat, ch: nat, y: nat, x: nat, y': nat, x': nat)
    requires |s| == h * w * ch && 0 < ch && Interior(h, w, y, x)
    requires y - 1 <= y' <= y && x - 1 <= x' <= x
    ensures At3(Hysteresis(s, h, w, ch), h, w, ch, y', x', 0) ==
            At3(SweepRow(Sweep(s, h, w, ch, y - 1), h, w, ch, y, x), h, w, ch, y', x', 0)
  {
    var u := Sweep(s, h, w, ch, y - 1);
    var n := Columns(w);
    assert Hysteresis(s, h, w, ch) == Sweep(s, h, w, ch, h - 2);
    assert Sweep(s, h, w, ch, y) == SweepRow(u, h, w, ch, y, n);
    SweepLater(s, h, w, ch, y, h - 2, y', x', 0);
    SweepRowLater(u, h, w, ch, y, x, n, y', x', 0);
  }

  /** Hysteresis in place: a weak interior pixel ends strong exactly when
      one of its already-swept neighbours (up-left, up, left) ends strong,
      and off otherwise. */
  lemma HysteresisDecides(s: seq<int>, h: nat, w: nat, ch: nat, y: nat, x: nat)
    requires |s| == h * w * ch && 0 < ch && Interior(h, w, y, x) && At3(s, h, w, ch, y, x, 0) == 128
    ensures At3(Hysteresis(s, h, w, ch), h, w, ch, y, x, 0) == 255 <==>
              At3(Hysteresis(s, h, w, ch), h, w, ch, y - 1, x - 1, 0) == 255 ||
              At3(Hysteresis(s, h, w, ch), h, w, ch, y - 1, x, 0) == 255 ||
              At3(Hysteresis(s, h, w, ch), h, w, ch, y, x - 1, 0) == 255
    ensures At3(Hysteresis(s, h, w, ch), h, w, ch, y, x, 0) != 255 ==>
              At3(Hysteresis(s, h, w, ch), h, w, ch, y, x, 0) == 0
  {
    var u := Sweep(s, h, w, ch, y - 1);
    var v := SweepRow(u, h, w, ch, y, x - 1);
    var p := SweepRow(u, h, w, ch, y, x);
    // the four cells in the final image are as they were right after step (y, x)
    FinalAfterStep(s, h, w, ch, y, x, y, x);
    FinalAfterStep(s, h, w, ch, y, x, y - 1, x - 1);
    FinalAfterStep(s, h, w, ch, y, x, y - 1, x);
    FinalAfterStep(s, h, w, ch, y, x, y, x - 1);
    // right before step (y, x) the pixel still holds its original value
    SweepRowLater(u, h, w, ch, y, 0, x - 1, y, x, 0);
    SweepLater(s, h, w, ch, 0, y - 1, y, x, 0);
    assert At3(v, h, w, ch, y, x, 0) == 128;
    assert p == Promote(v, h, w, ch, y, x);
    At3Update(v, h, w, ch, y, x, 0, if StrongNear(v, h, w, ch, y, x) then 255 else 0);
  }

  /** The neighbour loops of `removeIsolatedWeakPixels` at (y, x): rows
      y - 1 and y, columns x - 1 and x, the column loop stopping at the
      first strong cell.  The pixel should be off exactly when none of those
      cells is strong. */
  method ShouldBeOff(input: Mat<int>, y: nat, x: nat) returns (shouldBeOff: bool)
    requires IsImage(input) && 1 <= y < input.dims[0] && 1 <= x < input.dims[1] && 0 < input.dims[2]
    ensures shouldBeOff <==> !StrongNear(input.elements, input.dims[0], input.dims[1], input.dims[2], y, x)
  {
    var h, w, ch := input.dims[0], input.dims[1], input.dims[2];
    ghost var v := input.elements;
    shouldBeOff := true;
    var ny := y - 1;
    while ny < y + 1
      invariant y - 1 <= ny <= y + 1
      invariant input.elements == v
      invariant !shouldBeOff <==>
                  (y - 1 < ny && (At3(v, h, w, ch, y - 1, x - 1, 0) == 255 || At3(v, h, w, ch, y - 1, x, 0) == 255)) ||
                  (y < ny && (At3(v, h, w, ch, y, x - 1, 0) == 255 || At3(v, h, w, ch, y, x, 0) == 255))
    {
      var nx := x - 1;
      while nx < x + 1
        invariant x - 1 <= nx <= x + 1
        invariant input.elements == v
        invariant !shouldBeOff <==>
                    (y - 1 < ny && (At3(v, h, w, ch, y - 1, x - 1, 0) == 255 || At3(v, h, w, ch, y - 1, x, 0) == 255)) ||
                    (x - 1 < nx && At3(v, h, w, ch, ny, x - 1, 0) == 255) ||
                    (x < nx && At3(v, h, w, ch, ny, x, 0) == 255)
      {
        var neighbour := Get(input, [ny, nx, 0]);
        Get3(input, ny, nx, 0);
        if neighbour.value == 255 {
          shouldBeOff := false;
          break;
        }
        nx := nx + 1;
      }
      ny := ny + 1;
    }
  }

  /** `removeIsolatedWeakPixels`: sweeps the interior in row-major order; a
      weak pixel becomes strong when one of the cells its neighbour loops
      visit is strong, and off otherwise. The first pixel read is (1, 1):
      unsigned wrap-around of `height - 1` or `width - 1` on an empty axis
      lets it happen on an image that does not have it, as it does when the
      image has no channel. */
  method RemoveIsolatedWeakPixels(input: Mat<int>) returns (o: Outcome)
    requires IsImage(input) && input.dims[0] <= UNSIGNED_RANGE && input.dims[1] <= UNSIGNED_RANGE
    requires !(input.dims[0] == 0 && 1 <= input.dims[1] <= 2)
    modifies input
    ensures o.Fail? <==>
              WrappedBounds(input.dims[0], input.dims[1]) ||
              (3 <= input.dims[0] && 3 <= input.dims[1] && input.dims[2] == 0)
    ensures o.Fail? ==> o.error == OutOfRange && input.elements == old(input.elements)
    ensures o.Pass? ==> input.elements == Hysteresis(old(input.elements), input.dims[0], input.dims[1], input.dims[2])
  {
    var h, w, ch := input.dims[0], input.dims[1], input.dims[2];
    if WrappedBounds(h, w) || (3 <= h && 3 <= w && ch == 0) {
      var first := Get(input, [1, 1, 0]);
      Get3(input, 1, 1, 0);
      return Fail(first.error);
    }
    o := Pass;
    if ch == 0 {
      // every row sweep is empty: fewer than three rows or columns
      return;
    }
    var y: nat := 1;
    while y + 1 < h
      invariant 1 <= y && (y == 1 || y < h)
      invariant IsImage(input)
      invariant input.elements == Sweep(old(input.elements), h, w, ch, y - 1)
    {
      ghost var u := input.elements;
      var x: nat := 1;
      while x + 1 < w
        invariant 1 <= x && (x == 1 || x < w)
        invariant IsImage(input)
        invariant input.elements == SweepRow(u, h, w, ch, y, x - 1)
      {
        ghost var v := input.elements;
        var value := Get(input, [y, x, 0]);
        Get3(input, y, x, 0);
        if value.value != 128 {
          assert SweepRow(u, h, w, ch, y, x) == v;
          x := x + 1;
          continue;
        }
        var shouldBeOff := ShouldBeOff(input, y, x);
        Put3(input, y, x, 0, if shouldBeOff then 0 else 255);
        assert input.elements == SweepRow(u, h, w, ch, y, x);
        x := x + 1;
      }
      assert input.elements == Sweep(old(input.elements), h, w, ch, y);
      y := y + 1;
    }
  }

  // ------------------------------------------------------------------- canny

  /** The edge map `canny` computes: suppression, the double threshold, the
      hysteresis sweep and border clearing, over a single-channel image of
      the input's height and width. */
  ghost function Edges(input: Mat<int>, min: int, max: int, hypot: (real, real) -> real,
                       atan2: (real, real) -> real): (s: seq<int>)
    reads input
    requires IsImage(input) && Oriented(AngleGrid(input, atan2), input.dims[0], input.dims[1])
    ensures |s| == input.dims[0] * input.dims[1] * 1
  {
    var h, w := input.dims[0], input.dims[1];
    var nms := NmsImage(IntensityGrid(input, hypot), AngleGrid(input, atan2), h, w);
    ClearBorder(Hysteresis(Thresholded(nms, min, max), h, w, 1), h, w, 1)
  }

  /** `canny`, with the suppressed grid given the single channel the later
      passes index (see ThinEdgesGridUnreadable for the grid as returned).
      It succeeds exactly on images of at least 2 × 2 pixels with a channel
      and no interior gradient angle of ±7π/8, and then returns the edge map. */
  method Canny(input: Mat<int>, min: int, max: int, hypot: (real, real) -> real, atan2: (real, real) -> real)
    returns (r: Result<Mat<int>>)
    requires IsImage(input) && input.dims[0] <= UNSIGNED_RANGE && input.dims[1] <= UNSIGNED_RANGE
    requires !(input.dims[0] == 0 && 1 <= input.dims[1] <= 2)
    ensures r.Ok? <==>
              2 <= input.dims[0] && 2 <= input.dims[1] && 1 <= input.dims[2] &&
              Oriented(AngleGrid(input, atan2), input.dims[0], input.dims[1])
    ensures r.Err? ==>
              r.error == if 2 <= input.dims[0] && 2 <= input.dims[1] && 1 <= input.dims[2] then LogicError else OutOfRange
    ensures r.Ok? ==> fresh(r.value) && IsImage(r.value) && r.value.dims == [input.dims[0], input.dims[1], 1]
    ensures r.Ok? ==> r.value.elements == Edges(input, min, max, hypot, atan2)
  {
    var h, w := input.dims[0], input.dims[1];
    var g := FindGradients(input, hypot, atan2);
    if g.Err? {
      return Err(g.error);
    }
    var (intensities, directions) := g.value;
    var thin := ThinEdges(intensities, directions);
    if thin.Err? {
      return Err(thin.error);
    }
    var output := new Mat<int>.FromElements([h, w, 1], thin.value.elements);
    Shape3(h, w, 1);
    assert IsImage(output);
    FindStrongAndWeakPixels(output, min, max);
    var weak := RemoveIsolatedWeakPixels(output);
    assert weak == Pass; // a single channel and two rows or more
    var border := RemoveBoundaryArtifacts(output);
    if border.Fail? {
      return Err(border.error);
    }
    r := Ok(output);
  }

  /** Every pixel of the edge map is an edge (255) or not (0). */
  lemma EdgesBinary(input: Mat<int>, min: int, max: int, hypot: (real, real) -> real,
                    atan2: (real, real) -> real, y: nat, x: nat)
    requires IsImage(input) && Oriented(AngleGrid(input, atan2), input.dims[0], input.dims[1])
    requires y < input.dims[0] && x < input.dims[1]
    ensures var e := At3(Edges(input, min, max, hypot, atan2), input.dims[0], input.dims[1], 1, y, x, 0);
            e == 0 || e == 255
    ensures OnBorder(input.dims[0], input.dims[1], y, x) ==>
              At3(Edges(input, min, max, hypot, atan2), input.dims[0], input.dims[1], 1, y, x, 0) == 0
  {
    var h, w := input.dims[0], input.dims[1];
    var t := Thresholded(NmsImage(IntensityGrid(input, hypot), AngleGrid(input, atan2), h, w), min, max);
    ClearBorderAt(Hysteresis(t, h, w, 1), h, w, 1, y, x, 0);
    HysteresisSettles(t, h, w, 1, y, x, 0);
    SingleChannel(t, h, w, y, x);
    Idx2Bound(h, w, y, x);
  }

  /** The thresholds on an interior pixel: a suppressed value at or above
      both thresholds is an edge, and every edge had a suppressed value at
      least `min`. */
  lemma EdgesThresholds(input: Mat<int>, min: int, max: int, hypot: (real, real) -> real,
                        atan2: (real, real) -> real, y: nat, x: nat)
    requires IsImage(input) && Oriented(AngleGrid(input, atan2), input.dims[0], input.dims[1])
    requires Interior(input.dims[0], input.dims[1], y, x)
    ensures var v := NmsAt(IntensityGrid(input, hypot), AngleGrid(input, atan2), input.dims[0], input.dims[1], y, x).value;
            var e := At3(Edges(input, min, max, hypot, atan2), input.dims[0], input.dims[1], 1, y, x, 0);
            (min <= v && max <= v ==> e == 255) && (e == 255 ==> min <= v)
  {
    var h, w := input.dims[0], input.dims[1];
    var I, D := IntensityGrid(input, hypot), AngleGrid(input, atan2);
    var nms := NmsImage(I, D, h, w);
    var t := Thresholded(nms, min, max);
    ClearBorderAt(Hysteresis(t, h, w, 1), h, w, 1, y, x, 0);
    HysteresisSettles(t, h, w, 1, y, x, 0);
    SingleChannel(t, h, w, y, x);
    SingleChannel(nms, h, w, y, x);
    Idx2Bound(h, w, y, x);
    NmsImageAt(I, D, h, w, y, x);
  }
}
