/** Harris corner detection (harris.cpp): the Sobel gradients of channel 0
    summed into a 2 × 2 structure tensor over a 4 × 4 window, divided by 25,
    scored through the eigenvalues of the tensor, and thresholded at 10e7.
    `sqrt` is a parameter: the model does not interpret floating-point
    square roots. */
module Harris {
  import opened Wrappers
  import opened Mats
  import opened Grids
  import opened Utility
  import opened Convolution
  import opened Sobel

  /** The threshold `10e7`, that is 10^8. */
  const THRESHOLD: real := 100000000.0

  // ------------------------------------------------------------ the gradients

  /** Channel 0 of the horizontal Sobel response, one cell per pixel. */
  ghost function XGrid(input: Mat<int>): (s: seq<real>)
    reads input
    requires IsImage(input)
    ensures |s| == input.dims[0] * input.dims[1]
  {
    var h, w := input.dims[0], input.dims[1];
    seq(h * w, i requires 0 <= i < h * w && IsImage(input) reads input =>
      Cell(h, w, i);
      GradX(input, i / w, i % w, 0))
  }

  /** Channel 0 of the vertical Sobel response, one cell per pixel. */
  ghost function YGrid(input: Mat<int>): (s: seq<real>)
    reads input
    requires IsImage(input)
    ensures |s| == input.dims[0] * input.dims[1]
  {
    var h, w := input.dims[0], input.dims[1];
    seq(h * w, i requires 0 <= i < h * w && IsImage(input) reads input =>
      Cell(h, w, i);
      GradY(input, i / w, i % w, 0))
  }

  lemma GridsAt(input: Mat<int>, y: nat, x: nat)
    requires IsImage(input) && y < input.dims[0] && x < input.dims[1]
    ensures At2(XGrid(input), input.dims[0], input.dims[1], y, x) == GradX(input, y, x, 0)
    ensures At2(YGrid(input), input.dims[0], input.dims[1], y, x) == GradY(input, y, x, 0)
  {
    var h, w := input.dims[0], input.dims[1];
    var i := Idx2(w, y, x);
    Idx2Bound(h, w, y, x);
    CellOf(h, w, y, x);
    assert XGrid(input)[i] == GradX(input, y, x, 0);
    assert YGrid(input)[i] == GradY(input, y, x, 0);
  }

  /** Channel 0 of image g holds grid X. */
  ghost predicate Channel0(g: Mat<real>, X: seq<real>)
    reads g
  {
    IsImage(g) && 0 < g.dims[2] && |X| == g.dims[0] * g.dims[1] &&
    forall y: nat, x: nat | y < g.dims[0] && x < g.dims[1] ::
      At3(g.elements, g.dims[0], g.dims[1], g.dims[2], y, x, 0) == At2(X, g.dims[0], g.dims[1], y, x)
  }

  /** Both gradient images, channel 0 of each described by its grid. */
  ghost predicate Gradients(gx: Mat<real>, gy: Mat<real>, X: seq<real>, Y: seq<real>)
    reads gx, gy
  {
    Channel0(gx, X) && Channel0(gy, Y) && gy.dims == gx.dims
  }

  /** The 2 × 2 `sum` matrix, apart from both gradient images. */
  ghost predicate Accumulator(sum: Mat<real>, gx: Mat<real>, gy: Mat<real>)
    reads sum
  {
    IsGrid(sum) && sum.dims == [2, 2] && (sum as object) != gx && (sum as object) != gy
  }

  // ------------------------------------------------------- the tensor window

  /** `sum += {ix * ix, ix * iy, ix * iy, iy * iy}`. */
  function Accumulate(s: seq<real>, ix: real, iy: real): (t: seq<real>)
    requires |s| == 4
    ensures |t| == 4
  {
    [s[0] + ix * ix, s[1] + ix * iy, s[2] + ix * iy, s[3] + iy * iy]
  }

  /** s with the cells (dy, lo), …, (dy, hi - 1) accumulated in order. */
  function RowSums(X: seq<real>, Y: seq<real>, h: nat, w: nat, s: seq<real>, dy: nat, lo: nat, hi: nat): (t: seq<real>)
    requires |X| == h * w && |Y| == h * w && |s| == 4 && dy < h && lo <= hi <= w
    ensures |t| == 4
    decreases hi - lo
  {
    if hi == lo then s
    else Accumulate(RowSums(X, Y, h, w, s, dy, lo, hi - 1), At2(X, h, w, dy, hi - 1), At2(Y, h, w, dy, hi - 1))
  }

  /** The tensor sums of pixel (y, x) over the rows y - 2, …, bottom - 1 of
      its window dy ∈ [y - 2, y + 2), dx ∈ [x - 2, x + 2), starting from
      zero; the whole window is bottom = y + 2. */
  function WindowSums(X: seq<real>, Y: seq<real>, h: nat, w: nat, y: nat, x: nat, bottom: nat): (t: seq<real>)
    requires |X| == h * w && |Y| == h * w && 2 <= y && y + 2 <= h && 2 <= x && x + 2 <= w
    requires y - 2 <= bottom <= y + 2
    ensures |t| == 4
    decreases bottom
  {
    if bottom == y - 2 then [0.0, 0.0, 0.0, 0.0]
    else RowSums(X, Y, h, w, WindowSums(X, Y, h, w, y, x, bottom - 1), bottom - 1, x - 2, x + 2)
  }

  /** Accumulating keeps the two off-diagonal entries apart by the same
      amount. */
  lemma {:induction false} RowSumsSymmetric(X: seq<real>, Y: seq<real>, h: nat, w: nat, s: seq<real>, dy: nat, lo: nat, hi: nat)
    requires |X| == h * w && |Y| == h * w && |s| == 4 && dy < h && lo <= hi <= w
    ensures RowSums(X, Y, h, w, s, dy, lo, hi)[1] - s[1] == RowSums(X, Y, h, w, s, dy, lo, hi)[2] - s[2]
    decreases hi - lo
  {
    if hi > lo {
      RowSumsSymmetric(X, Y, h, w, s, dy, lo, hi - 1);
    }
  }

  /** The tensor is symmetric: both off-diagonal entries sum ix · iy. */
  lemma {:induction false} WindowSymmetric(X: seq<real>, Y: seq<real>, h: nat, w: nat, y: nat, x: nat, bottom: nat)
    requires |X| == h * w && |Y| == h * w && 2 <= y && y + 2 <= h && 2 <= x && x + 2 <= w
    requires y - 2 <= bottom <= y + 2
    ensures WindowSums(X, Y, h, w, y, x, bottom)[1] == WindowSums(X, Y, h, w, y, x, bottom)[2]
    decreases bottom
  {
    if bottom > y - 2 {
      WindowSymmetric(X, Y, h, w, y, x, bottom - 1);
      RowSumsSymmetric(X, Y, h, w, WindowSums(X, Y, h, w, y, x, bottom - 1), bottom - 1, x - 2, x + 2);
    }
  }

  lemma {:induction false} ZeroRow(X: seq<real>, Y: seq<real>, h: nat, w: nat, dy: nat, lo: nat, hi: nat)
    requires |X| == h * w && |Y| == h * w && dy < h && lo <= hi <= w
    requires forall dx: nat | lo <= dx < hi :: At2(X, h, w, dy, dx) == 0.0 && At2(Y, h, w, dy, dx) == 0.0
    ensures RowSums(X, Y, h, w, [0.0, 0.0, 0.0, 0.0], dy, lo, hi) == [0.0, 0.0, 0.0, 0.0]
    decreases hi - lo
  {
    if hi > lo {
      ZeroRow(X, Y, h, w, dy, lo, hi - 1);
      assert At2(X, h, w, dy, hi - 1) == 0.0 && At2(Y, h, w, dy, hi - 1) == 0.0;
    }
  }

  /** A window of zero gradients sums to the zero tensor. */
  lemma {:induction false} ZeroWindow(X: seq<real>, Y: seq<real>, h: nat, w: nat, y: nat, x: nat, bottom: nat)
    requires |X| == h * w && |Y| == h * w && 2 <= y && y + 2 <= h && 2 <= x && x + 2 <= w
    requires y - 2 <= bottom <= y + 2
    requires forall dy: nat, dx: nat | y - 2 <= dy < y + 2 && x - 2 <= dx < x + 2 ::
               At2(X, h, w, dy, dx) == 0.0 && At2(Y, h, w, dy, dx) == 0.0
    ensures WindowSums(X, Y, h, w, y, x, bottom) == [0.0, 0.0, 0.0, 0.0]
    decreases bottom
  {
    if bottom > y - 2 {
      ZeroWindow(X, Y, h, w, y, x, bottom - 1);
      ZeroRow(X, Y, h, w, bottom - 1, x - 2, x + 2);
    }
  }

  // ----------------------------------------------------------- the response

  /** `s * s - 4 * f * t` with f = 1, s = -(a + d), t = ad - bc. */
  function Discriminant(a: real, b: real, c: real, d: real): real
  {
    (a + d) * (a + d) - 4.0 * (a * d - b * c)
  }

  /** `lambda1` and `lambda2`: the two roots (-s ± sqrt(s² - 4ft)) / 2f of
      fλ² + sλ + t, with f = 1 and s = -(a + d). */
  function Lambda1(a: real, b: real, c: real, d: real, sqrt: real -> real): real
  {
    ((a + d) + sqrt(Discriminant(a, b, c, d))) / 2.0
  }

  function Lambda2(a: real, b: real, c: real, d: real, sqrt: real -> real): real
  {
    ((a + d) - sqrt(Discriminant(a, b, c, d))) / 2.0
  }

  /** R = det - 0.04 · trace², with trace and det taken from the roots. */
  function Response(a: real, b: real, c: real, d: real, sqrt: real -> real): real
  {
    var trace := Lambda1(a, b, c, d, sqrt) + Lambda2(a, b, c, d, sqrt);
    var det := Lambda1(a, b, c, d, sqrt) * Lambda2(a, b, c, d, sqrt);
    det - 0.04 * trace * trace
  }

  /** The response of a summed tensor: each entry divided by 25. */
  function TensorResponse(sum: seq<real>, sqrt: real -> real): real
    requires |sum| == 4
  {
    Response(sum[0] / 25.0, sum[1] / 25.0, sum[2] / 25.0, sum[3] / 25.0, sqrt)
  }

  /** For a symmetric tensor the discriminant is (a - d)² + 4b², never
      negative, so the square roots are of non-negative numbers. */
  lemma DiscriminantNonNegative(a: real, b: real, d: real)
    ensures Discriminant(a, b, b, d) == (a - d) * (a - d) + 4.0 * b * b
    ensures Discriminant(a, b, b, d) >= 0.0
  {
  }

  /** With an exact square root the roots have sum a + d (the trace) and
      product ad - bc (the determinant), so R = (ad - bc) - 0.04 (a + d)². */
  lemma ResponseClosedForm(a: real, b: real, c: real, d: real, sqrt: real -> real)
    requires sqrt(Discriminant(a, b, c, d)) * sqrt(Discriminant(a, b, c, d)) == Discriminant(a, b, c, d)
    ensures Lambda1(a, b, c, d, sqrt) + Lambda2(a, b, c, d, sqrt) == a + d
    ensures Lambda1(a, b, c, d, sqrt) * Lambda2(a, b, c, d, sqrt) == a * d - b * c
    ensures Response(a, b, c, d, sqrt) == (a * d - b * c) - 0.04 * (a + d) * (a + d)
  {
    var r := sqrt(Discriminant(a, b, c, d));
    var l1, l2 := Lambda1(a, b, c, d, sqrt), Lambda2(a, b, c, d, sqrt);
    assert l1 == ((a + d) + r) / 2.0 && l2 == ((a + d) - r) / 2.0;
    assert l1 * l2 == ((a + d) * (a + d) - r * r) / 4.0;
  }

  /** The response in terms of the trace a + d and the square root r of the
      discriminant, whatever r is. */
  lemma ResponseExpanded(a: real, b: real, c: real, d: real, sqrt: real -> real)
    ensures Response(a, b, c, d, sqrt) ==
              ((a + d) * (a + d) - sqrt(Discriminant(a, b, c, d)) * sqrt(Discriminant(a, b, c, d))) / 4.0
              - 0.04 * (a + d) * (a + d)
  {
    var r := sqrt(Discriminant(a, b, c, d));
    var l1, l2 := Lambda1(a, b, c, d, sqrt), Lambda2(a, b, c, d, sqrt);
    assert l1 == ((a + d) + r) / 2.0 && l2 == ((a + d) - r) / 2.0;
    assert l1 + l2 == a + d;
    assert l1 * l2 == ((a + d) * (a + d) - r * r) / 4.0;
  }

  /** A zero tensor never scores above zero, whatever the square root of 0. */
  lemma ZeroResponse(z: real, sqrt: real -> real)
    requires z == 0.0
    ensures Response(z, z, z, z, sqrt) <= 0.0
  {
    ResponseExpanded(z, z, z, z, sqrt);
    var r := sqrt(Discriminant(z, z, z, z));
    assert r * r >= 0.0 by {
      if r < 0.0 {
        assert r * r == (-r) * (-r);
      }
    }
  }

  // ------------------------------------------------------------ the corners

  /** The response of pixel (x, y) when its whole window lies inside the
      image (2 <= y < h - 2, 2 <= x < w - 2), and 0 elsewhere. */
  function PixelScore(X: seq<real>, Y: seq<real>, h: nat, w: nat, sqrt: real -> real): (nat, nat) -> real
  {
    (x: nat, y: nat) =>
      if |X| == h * w && |Y| == h * w && 2 <= y && y + 2 < h && 2 <= x && x + 2 < w
      then TensorResponse(WindowSums(X, Y, h, w, y, x, y + 2), sqrt)
      else 0.0
  }

  /** The pixels (x, y) of row y with 2 <= x < n + 2 whose score is above
      the threshold, left to right. */
  function RowCorners(score: (nat, nat) -> real, threshold: real, y: nat, n: nat): (cs: seq<(nat, nat)>)
    ensures |cs| <= n
  {
    if n == 0 then []
    else RowCorners(score, threshold, y, n - 1) + (if score(n + 1, y) > threshold then [(n + 1, y)] else [])
  }

  /** The corners of rows 2, …, m + 1, n columns each, in row-major order. */
  function Corners(score: (nat, nat) -> real, threshold: real, n: nat, m: nat): (cs: seq<(nat, nat)>)
    ensures |cs| <= m * n
  {
    if m == 0 then [] else Corners(score, threshold, n, m - 1) + RowCorners(score, threshold, m + 1, n)
  }

  /** How many rows (or columns) the scan visits: those k with
      2 <= k < extent - 2. */
  function Scanned(extent: nat): nat
  {
    if extent < 4 then 0 else extent - 4
  }

  /** The coordinates `harris` reports for gradient grids X and Y of an
      h × w image. */
  function HarrisCorners(X: seq<real>, Y: seq<real>, h: nat, w: nat, sqrt: real -> real, threshold: real)
    : (cs: seq<(nat, nat)>)
  {
    Corners(PixelScore(X, Y, h, w, sqrt), threshold, Scanned(w), Scanned(h))
  }

  /** A pixel is scored and its response is above the threshold. */
  ghost predicate IsCorner(X: seq<real>, Y: seq<real>, h: nat, w: nat, sqrt: real -> real, threshold: real, p: (nat, nat))
    requires |X| == h * w && |Y| == h * w
  {
    2 <= p.1 && p.1 + 2 < h && 2 <= p.0 && p.0 + 2 < w &&
    TensorResponse(WindowSums(X, Y, h, w, p.1, p.0, p.1 + 2), sqrt) > threshold
  }

  lemma {:induction false} RowCornersMembers(score: (nat, nat) -> real, threshold: real, y: nat, n: nat, p: (nat, nat))
    ensures p in RowCorners(score, threshold, y, n) <==> p.1 == y && 2 <= p.0 < n + 2 && score(p.0, p.1) > threshold
  {
    if n > 0 {
      RowCornersMembers(score, threshold, y, n - 1, p);
    }
  }

  lemma {:induction false} CornersMembers(score: (nat, nat) -> real, threshold: real, n: nat, m: nat, p: (nat, nat))
    ensures p in Corners(score, threshold, n, m) <==>
              2 <= p.1 < m + 2 && 2 <= p.0 < n + 2 && score(p.0, p.1) > threshold
  {
    if m > 0 {
      var front := Corners(score, threshold, n, m - 1);
      var row := RowCorners(score, threshold, m + 1, n);
      assert Corners(score, threshold, n, m) == front + row;
      CornersMembers(score, threshold, n, m - 1, p);
      RowCornersMembers(score, threshold, m + 1, n, p);
      assert p in front + row <==> p in front || p in row;
      assert 2 <= p.1 < m + 2 <==> 2 <= p.1 < m + 1 || p.1 == m + 1;
    }
  }

  /** (x, y) is reported exactly when it is scored and its response is above
      the threshold. */
  lemma HarrisReports(X: seq<real>, Y: seq<real>, h: nat, w: nat, sqrt: real -> real, threshold: real, p: (nat, nat))
    requires |X| == h * w && |Y| == h * w
    ensures p in HarrisCorners(X, Y, h, w, sqrt, threshold) <==> IsCorner(X, Y, h, w, sqrt, threshold, p)
  {
    CornersMembers(PixelScore(X, Y, h, w, sqrt), threshold, Scanned(w), Scanned(h), p);
  }

  /** p comes before q in row-major order. */
  predicate Before(p: (nat, nat), q: (nat, nat))
  {
    p.1 < q.1 || (p.1 == q.1 && p.0 < q.0)
  }

  /** The list is strictly increasing in row-major order, so it holds no
      pair twice. */
  predicate RowMajor(cs: seq<(nat, nat)>)
  {
    forall i, j | 0 <= i < j < |cs| :: Before(cs[i], cs[j])
  }

  lemma {:induction false} RowCornersOrdered(score: (nat, nat) -> real, threshold: real, y: nat, n: nat)
    ensures RowMajor(RowCorners(score, threshold, y, n))
    ensures forall p | p in RowCorners(score, threshold, y, n) :: p.1 == y && p.0 < n + 2
  {
    if n > 0 {
      RowCornersOrdered(score, threshold, y, n - 1);
    }
  }

  lemma {:induction false} CornersOrdered(score: (nat, nat) -> real, threshold: real, n: nat, m: nat)
    ensures RowMajor(Corners(score, threshold, n, m))
    ensures forall p | p in Corners(score, threshold, n, m) :: p.1 < m + 2
  {
    if m > 0 {
      CornersOrdered(score, threshold, n, m - 1);
      RowCornersOrdered(score, threshold, m + 1, n);
      var front := Corners(score, threshold, n, m - 1);
      var row := RowCorners(score, threshold, m + 1, n);
      assert forall i | 0 <= i < |front| :: front[i] in front;
      assert forall j | 0 <= j < |row| :: row[j] in row;
    }
  }

  /** The reported corners are in row-major order, hence without
      duplicates. */
  lemma HarrisOrdered(X: seq<real>, Y: seq<real>, h: nat, w: nat, sqrt: real -> real, threshold: real)
    ensures RowMajor(HarrisCorners(X, Y, h, w, sqrt, threshold))
  {
    CornersOrdered(PixelScore(X, Y, h, w, sqrt), threshold, Scanned(w), Scanned(h));
  }

  lemma {:induction false} RowCornersMonotone(score: (nat, nat) -> real, low: real, high: real, y: nat, n: nat)
    requires low <= high
    ensures |RowCorners(score, high, y, n)| <= |RowCorners(score, low, y, n)|
  {
    if n > 0 {
      RowCornersMonotone(score, low, high, y, n - 1);
    }
  }

  lemma {:induction false} CornersMonotone(score: (nat, nat) -> real, low: real, high: real, n: nat, m: nat)
    requires low <= high
    ensures |Corners(score, high, n, m)| <= |Corners(score, low, n, m)|
  {
    if m > 0 {
      CornersMonotone(score, low, high, n, m - 1);
      RowCornersMonotone(score, low, high, m + 1, n);
    }
  }

  /** Raising the threshold never reports more corners, and every corner
      reported at the higher threshold is reported at the lower one. */
  lemma ThresholdMonotone(X: seq<real>, Y: seq<real>, h: nat, w: nat, sqrt: real -> real, low: real, high: real)
    requires |X| == h * w && |Y| == h * w && low <= high
    ensures |HarrisCorners(X, Y, h, w, sqrt, high)| <= |HarrisCorners(X, Y, h, w, sqrt, low)|
    ensures forall p | p in HarrisCorners(X, Y, h, w, sqrt, high) :: p in HarrisCorners(X, Y, h, w, sqrt, low)
  {
    CornersMonotone(PixelScore(X, Y, h, w, sqrt), low, high, Scanned(w), Scanned(h));
    forall p | p in HarrisCorners(X, Y, h, w, sqrt, high)
      ensures p in HarrisCorners(X, Y, h, w, sqrt, low)
    {
      HarrisReports(X, Y, h, w, sqrt, high, p);
      HarrisReports(X, Y, h, w, sqrt, low, p);
    }
  }

  /** Where every gradient is zero nothing is reported. */
  lemma FlatHasNoCorners(X: seq<real>, Y: seq<real>, h: nat, w: nat, sqrt: real -> real)
    requires |X| == h * w && |Y| == h * w
    requires forall y: nat, x: nat | y < h && x < w :: At2(X, h, w, y, x) == 0.0 && At2(Y, h, w, y, x) == 0.0
    ensures HarrisCorners(X, Y, h, w, sqrt, THRESHOLD) == []
  {
    var cs := HarrisCorners(X, Y, h, w, sqrt, THRESHOLD);
    if |cs| > 0 {
      var p := cs[0];
      HarrisReports(X, Y, h, w, sqrt, THRESHOLD, p);
      ZeroWindow(X, Y, h, w, p.1, p.0, p.1 + 2);
      ZeroResponse(0.0, sqrt);
      assert false;
    }
  }

  /** An image whose channel 0 is uniform has no corners: its Sobel
      gradients vanish. */
  lemma UniformImageHasNoCorners(input: Mat<int>, v: int, sqrt: real -> real)
    requires IsImage(input) && 2 <= input.dims[0] && 2 <= input.dims[1] && 1 <= input.dims[2]
    requires ChannelConstant(input, 0, v)
    ensures HarrisCorners(XGrid(input), YGrid(input), input.dims[0], input.dims[1], sqrt, THRESHOLD) == []
  {
    var h, w := input.dims[0], input.dims[1];
    forall y: nat, x: nat | y < h && x < w
      ensures At2(XGrid(input), h, w, y, x) == 0.0 && At2(YGrid(input), h, w, y, x) == 0.0
    {
      GridsAt(input, y, x);
      ConstantHasZeroGradients(input, y, x, 0, v);
    }
    FlatHasNoCorners(XGrid(input), YGrid(input), h, w, sqrt);
  }

  // ------------------------------------------------------------- the method

  /** `xIntensities[dy][dx]` as written: two indices on the rank-3 gradient
      image stop on the column axis, and converting that accessor to a
      `double` fails the last-axis assertion.  Every read of the window loop
      fails this way, so `harris` as written never reports a corner. */
  lemma WindowReadAsWritten(gx: Mat<real>, dy: nat, dx: nat)
    requires IsImage(gx) && dy < gx.dims[0] && dx < gx.dims[1]
    ensures Get(gx, [dy, dx]) == Err(AssertionFailure)
  {
    TwoIndexRead(gx, dy, dx);
  }

  /** Channel 0 of the Sobel images is what XGrid and YGrid describe. */
  lemma GradientsChannel0(input: Mat<int>, gx: Mat<real>, gy: Mat<real>)
    requires IsImage(input) && 0 < input.dims[2]
    requires IsImage(gx) && gx.dims == input.dims && IsImage(gy) && gy.dims == input.dims
    requires forall y: nat, x: nat | y < input.dims[0] && x < input.dims[1] ::
               At3(gx.elements, input.dims[0], input.dims[1], input.dims[2], y, x, 0) == GradX(input, y, x, 0) &&
               At3(gy.elements, input.dims[0], input.dims[1], input.dims[2], y, x, 0) == GradY(input, y, x, 0)
    ensures Channel0(gx, XGrid(input)) && Channel0(gy, YGrid(input))
  {
    forall y: nat, x: nat | y < input.dims[0] && x < input.dims[1]
      ensures At3(gx.elements, input.dims[0], input.dims[1], input.dims[2], y, x, 0) == At2(XGrid(input), input.dims[0], input.dims[1], y, x)
      ensures At3(gy.elements, input.dims[0], input.dims[1], input.dims[2], y, x, 0) == At2(YGrid(input), input.dims[0], input.dims[1], y, x)
    {
      GridsAt(input, y, x);
    }
  }

  function Plus(a: real, b: real): real
  {
    a + b
  }

  /** `sum += {ix * ix, ix * iy, ix * iy, iy * iy}`. */
  method AddProducts(sum: Mat<real>, ix: real, iy: real)
    requires IsGrid(sum) && sum.dims == [2, 2]
    modifies sum
    ensures IsGrid(sum) && sum.elements == Accumulate(old(sum.elements), ix, iy)
  {
    ghost var before := sum.elements;
    var o := sum.AddAssignList([ix * ix, ix * iy, ix * iy, iy * iy], Plus);
    assert sum.elements[0] == before[0] + ix * ix && sum.elements[1] == before[1] + ix * iy;
    assert sum.elements[2] == before[2] + ix * iy && sum.elements[3] == before[3] + iy * iy;
  }

  /** The dx loop of one window row: cells (dy, x - 2), …, (dy, x + 1) added
      into `sum`. */
  method SumRow(gx: Mat<real>, gy: Mat<real>, sum: Mat<real>, dy: nat, x: nat,
                ghost X: seq<real>, ghost Y: seq<real>)
    requires Gradients(gx, gy, X, Y) && Accumulator(sum, gx, gy)
    requires dy < gx.dims[0] && 2 <= x && x + 2 <= gx.dims[1]
    modifies sum
    ensures Accumulator(sum, gx, gy)
    ensures sum.elements == RowSums(X, Y, gx.dims[0], gx.dims[1], old(sum.elements), dy, x - 2, x + 2)
  {
    var h, w := gx.dims[0], gx.dims[1];
    var dx := x - 2;
    while dx < x + 2
      invariant x - 2 <= dx <= x + 2
      invariant Accumulator(sum, gx, gy)
      invariant sum.elements == RowSums(X, Y, h, w, old(sum.elements), dy, x - 2, dx)
    {
      var ix := Get(gx, [dy, dx, 0]);
      Get3(gx, dy, dx, 0);
      var iy := Get(gy, [dy, dx, 0]);
      Get3(gy, dy, dx, 0);
      AddProducts(sum, ix.value, iy.value);
      dx := dx + 1;
    }
  }

  /** The window loops of pixel (y, x): `sum` reset to zero, then the
      products of the 4 × 4 window added in, reading channel 0 of both
      gradients. */
  method TensorSum(gx: Mat<real>, gy: Mat<real>, sum: Mat<real>, y: nat, x: nat,
                   ghost X: seq<real>, ghost Y: seq<real>)
    requires Gradients(gx, gy, X, Y) && Accumulator(sum, gx, gy)
    requires 2 <= y && y + 2 < gx.dims[0] && 2 <= x && x + 2 < gx.dims[1]
    modifies sum
    ensures Accumulator(sum, gx, gy)
    ensures sum.elements == WindowSums(X, Y, gx.dims[0], gx.dims[1], y, x, y + 2)
  {
    var h, w := gx.dims[0], gx.dims[1];
    var o := sum.AssignList([0.0, 0.0, 0.0, 0.0]);
    var dy := y - 2;
    while dy < y + 2
      invariant y - 2 <= dy <= y + 2
      invariant Accumulator(sum, gx, gy)
      invariant sum.elements == WindowSums(X, Y, h, w, y, x, dy)
    {
      ghost var before := sum.elements;
      SumRow(gx, gy, sum, dy, x, X, Y);
      assert WindowSums(X, Y, h, w, y, x, dy + 1) == RowSums(X, Y, h, w, before, dy, x - 2, x + 2);
      dy := dy + 1;
    }
  }

  /** The score of one pixel from its summed tensor: `a`, `b`, `c`, `d` read
      as `sum[0][0]`, `sum[0][1]`, `sum[1][0]`, `sum[1][1]` and divided by 25. */
  method Score(sum: Mat<real>, sqrt: real -> real) returns (r: real)
    requires IsGrid(sum) && sum.dims == [2, 2]
    ensures r == TensorResponse(sum.elements, sqrt)
  {
    var s00 := Get(sum, [0, 0]);
    Get2(sum, 0, 0);
    var s01 := Get(sum, [0, 1]);
    Get2(sum, 0, 1);
    var s10 := Get(sum, [1, 0]);
    Get2(sum, 1, 0);
    var s11 := Get(sum, [1, 1]);
    Get2(sum, 1, 1);
    assert s00.value == sum.elements[0] && s01.value == sum.elements[1];
    assert s10.value == sum.elements[2] && s11.value == sum.elements[3];
    var a, b, c, d := s00.value / 25.0, s01.value / 25.0, s10.value / 25.0, s11.value / 25.0;
    var f := 1.0;
    var s := -(a + d);
    var t := a * d - b * c;
    assert s * s - 4.0 * f * t == Discriminant(a, b, c, d);
    var lambda1 := (-s + sqrt(s * s - 4.0 * f * t)) / (2.0 * f);
    var lambda2 := (-s - sqrt(s * s - 4.0 * f * t)) / (2.0 * f);
    var trace := lambda1 + lambda2;
    var det := lambda1 * lambda2;
    r := det - 0.04 * trace * trace;
  }

  /** The body of the x loop: the window sums of pixel (x, y) and its
      response. */
  method PixelResponse(gx: Mat<real>, gy: Mat<real>, sum: Mat<real>, y: nat, x: nat, sqrt: real -> real,
                       ghost X: seq<real>, ghost Y: seq<real>)
    returns (response: real)
    requires Gradients(gx, gy, X, Y) && Accumulator(sum, gx, gy)
    requires 2 <= y && y + 2 < gx.dims[0] && 2 <= x && x + 2 < gx.dims[1]
    modifies sum
    ensures Accumulator(sum, gx, gy)
    ensures response == PixelScore(X, Y, gx.dims[0], gx.dims[1], sqrt)(x, y)
  {
    TensorSum(gx, gy, sum, y, x, X, Y);
    response := Score(sum, sqrt);
  }

  /** Pixel (x, y) is scored: its whole window lies inside the image. */
  predicate Scored(h: nat, w: nat, x: nat, y: nat)
  {
    2 <= y && y + 2 < h && 2 <= x && x + 2 < w
  }

  /** score agrees with the Harris response on every scored pixel. */
  ghost predicate ScoresPixels(score: (nat, nat) -> real, X: seq<real>, Y: seq<real>, h: nat, w: nat, sqrt: real -> real)
  {
    forall x: nat, y: nat {:trigger Scored(h, w, x, y)} ::
      Scored(h, w, x, y) ==> score(x, y) == PixelScore(X, Y, h, w, sqrt)(x, y)
  }

  /** One step of the x loop: pixel (x, y) scored and, when its response
      is above the threshold, appended. */
  method ScanPixel(gx: Mat<real>, gy: Mat<real>, sum: Mat<real>, y: nat, x: nat, sqrt: real -> real,
                   coordinates: seq<(nat, nat)>, ghost X: seq<real>, ghost Y: seq<real>, ghost score: (nat, nat) -> real)
    returns (out: seq<(nat, nat)>)
    requires Gradients(gx, gy, X, Y) && Accumulator(sum, gx, gy)
    requires ScoresPixels(score, X, Y, gx.dims[0], gx.dims[1], sqrt)
    requires 2 <= y && y + 2 < gx.dims[0] && 2 <= x && x + 2 < gx.dims[1]
    modifies sum
    ensures Accumulator(sum, gx, gy)
    ensures out == coordinates + if score(x, y) > THRESHOLD then [(x, y)] else []
  {
    var response := PixelResponse(gx, gy, sum, y, x, sqrt, X, Y);
    assert Scored(gx.dims[0], gx.dims[1], x, y);
    out := coordinates;
    if response > THRESHOLD {
      out := out + [(x, y)];
    }
  }

  /** The x loop of row y: every pixel 2 <= x < w - 2 scored, and those
      above the threshold appended to `coordinates`. */
  method ScanRow(gx: Mat<real>, gy: Mat<real>, sum: Mat<real>, y: nat, sqrt: real -> real,
                 coordinates: seq<(nat, nat)>, ghost X: seq<real>, ghost Y: seq<real>, ghost score: (nat, nat) -> real)
    returns (out: seq<(nat, nat)>)
    requires IsImage(gx) && Accumulator(sum, gx, gy) && 2 <= y && y + 2 < gx.dims[0]
    requires 5 <= gx.dims[1] ==> Gradients(gx, gy, X, Y)
    requires ScoresPixels(score, X, Y, gx.dims[0], gx.dims[1], sqrt)
    modifies sum
    ensures Accumulator(sum, gx, gy)
    ensures out == coordinates + RowCorners(score, THRESHOLD, y, Scanned(gx.dims[1]))
  {
    var w := gx.dims[1];
    out := coordinates;
    var x: nat := 2;
    while x + 2 < w
      invariant 2 <= x && (x == 2 || x + 2 <= w)
      invariant Accumulator(sum, gx, gy) && (5 <= w ==> Gradients(gx, gy, X, Y))
      invariant out == coordinates + RowCorners(score, THRESHOLD, y, x - 2)
    {
      out := ScanPixel(gx, gy, sum, y, x, sqrt, out, X, Y, score);
      x := x + 1;
    }
  }

  /** `Mat<double> sum({ 2, 2 }, { 0, 0, 0, 0 })`. */
  method NewSum() returns (sum: Mat<real>)
    ensures fresh(sum) && IsGrid(sum) && sum.dims == [2, 2] && sum.elements == [0.0, 0.0, 0.0, 0.0]
  {
    sum := new Mat<real>.FromElements([2, 2], [0.0, 0.0, 0.0, 0.0]);
    Shape2(2, 2);
  }

  /** The y loop: `sum` allocated once, then every row 2 <= y < h - 2
      scanned. */
  method Scan(gx: Mat<real>, gy: Mat<real>, sqrt: real -> real, ghost X: seq<real>, ghost Y: seq<real>,
              ghost score: (nat, nat) -> real)
    returns (coordinates: seq<(nat, nat)>)
    requires IsImage(gx) && IsImage(gy) && gy.dims == gx.dims && 2 <= gx.dims[0]
    requires 5 <= gx.dims[0] && 5 <= gx.dims[1] ==> Gradients(gx, gy, X, Y)
    requires ScoresPixels(score, X, Y, gx.dims[0], gx.dims[1], sqrt)
    ensures coordinates == Corners(score, THRESHOLD, Scanned(gx.dims[1]), Scanned(gx.dims[0]))
  {
    var h, w := gx.dims[0], gx.dims[1];
    var sum := NewSum();
    coordinates := [];
    var y: nat := 2;
    while y + 2 < h
      invariant 2 <= y && (y == 2 || y + 2 <= h)
      invariant Accumulator(sum, gx, gy) && (5 <= h && 5 <= w ==> Gradients(gx, gy, X, Y))
      invariant coordinates == Corners(score, THRESHOLD, Scanned(w), y - 2)
    {
      coordinates := ScanRow(gx, gy, sum, y, sqrt, coordinates, X, Y, score);
      y := y + 1;
    }
  }

  /** Whether `harris` returns: the scan needs rows or columns that the
      Sobel step and the channel-0 reads can serve. */
  predicate Completes(h: nat, w: nat, ch: nat)
  {
    (2 <= h <= 4 && (w != 1 || ch == 0)) || (5 <= h && 2 <= w <= 4) || (5 <= h && 5 <= w && 1 <= ch)
  }

  /** `harris`: the corners of channel 0 of the image in row-major order,
      or the out-of-range failure of the Sobel step or of a window read. */
  method Harris(input: Mat<int>, sqrt: real -> real) returns (r: Result<seq<(nat, nat)>>)
    requires IsImage(input) && input.dims[0] <= UNSIGNED_RANGE && input.dims[1] <= UNSIGNED_RANGE
    requires !(input.dims[0] < 2 && 2 <= input.dims[1] <= 4 && (input.dims[0] == 0 || input.dims[2] == 0))
    ensures r.Ok? <==> Completes(input.dims[0], input.dims[1], input.dims[2])
    ensures r.Err? ==> r.error == OutOfRange
    ensures r.Ok? ==> r.value == HarrisCorners(XGrid(input), YGrid(input), input.dims[0], input.dims[1], sqrt, THRESHOLD)
  {
    var h, w, ch := input.dims[0], input.dims[1], input.dims[2];
    var grads := SobelXYGradients(input);
    if grads.Err? {
      return Err(grads.error);
    }
    var gx, gy := grads.value.0, grads.value.1;
    if (h < 2 || 5 <= h) && (w < 2 || 5 <= w) && (h < 5 || w < 5 || ch == 0) {
      // `height - 2` or `width - 2` wraps around, or there is no channel 0:
      // the first window read, of pixel (0, 0), is already out of range
      var probe := Get(gx, [0, 0, 0]);
      Get3(gx, 0, 0, 0);
      return Err(probe.error);
    }
    ghost var X, Y := XGrid(input), YGrid(input);
    if 0 < ch {
      GradientsChannel0(input, gx, gy);
    }
    ghost var score := PixelScore(X, Y, h, w, sqrt);
    assert ScoresPixels(score, X, Y, h, w, sqrt);
    var coordinates := Scan(gx, gy, sqrt, X, Y, score);
    return Ok(coordinates);
  }
}
