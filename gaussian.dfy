/** Gaussian smoothing and the Gaussian box-filter layouts (gaussian.cpp).
    `gaussian` blurs a byte image with the 5-tap binomial kernel 1/16·[1, 4,
    6, 4, 1]; the box-filter builders lay out the rectangles of second
    derivative filters on a size × size square. */
module Gaussian {
  import opened Wrappers
  import opened Mats
  import opened Grids
  import opened Convolution
  import opened BoxFilters

  /** The taps of `rowKernal` and `colKernal`. */
  const TAPS: seq<real> := [0.0625, 0.25, 0.375, 0.25, 0.0625]

  function Sum(s: seq<real>): real
  {
    if s == [] then 0.0 else Sum(s[..|s| - 1]) + s[|s| - 1]
  }

  /** The taps are non-negative, symmetric and sum to one: the blur is a
      weighted mean. */
  lemma TapsAreWeights()
    ensures |TAPS| == 5 && Sum(TAPS) == 1.0
    ensures forall i | 0 <= i < |TAPS| :: 0.0 <= TAPS[i] && TAPS[i] == TAPS[4 - i]
  {
    assert TAPS[..4][..3] == TAPS[..3];
    assert TAPS[..3][..2] == TAPS[..2];
    assert TAPS[..2][..1] == TAPS[..1];
    assert TAPS[..1][..0] == [];
    assert Sum(TAPS[..1]) == 0.0625;
    assert Sum(TAPS[..2]) == 0.3125;
    assert Sum(TAPS[..3]) == 0.6875;
    assert Sum(TAPS[..4]) == 0.9375;
    assert TAPS[..5] == TAPS;
  }

  /** The products of a 1 × |ks| kernel with image row y, centred on column
      x and mirrored at the left and right edges, over the first n taps. */
  function RowBlur<V>(m: Mat<V>, f: V -> real, ks: seq<real>, y: nat, x: nat, c: nat, n: nat): real
    reads m
    requires IsImage(m) && n <= |ks|
  {
    if n == 0 then 0.0
    else RowBlur(m, f, ks, y, x, c, n - 1) + Times(Sample(m, f, y, Mirror(x - |ks| / 2 + (n - 1), m.dims[1]), c), ks[n - 1])
  }

  /** The products of a |ks| × 1 kernel with image column x, centred on row
      y and mirrored at the top and bottom edges, over the first n taps. */
  function ColumnBlur<V>(m: Mat<V>, f: V -> real, ks: seq<real>, y: nat, x: nat, c: nat, n: nat): real
    reads m
    requires IsImage(m) && n <= |ks|
  {
    if n == 0 then 0.0
    else ColumnBlur(m, f, ks, y, x, c, n - 1) + Times(Sample(m, f, Mirror(y - |ks| / 2 + (n - 1), m.dims[0]), x, c), ks[n - 1])
  }

  lemma {:induction false} RowTermIsRowBlur<V>(m: Mat<V>, f: V -> real, k: Mat<real>, ks: seq<real>, y: nat, x: nat, c: nat, n: nat)
    requires IsImage(m) && IsGrid(k) && k.dims == [1, |ks|] && k.elements == ks
    requires y < m.dims[0] && n <= |ks|
    ensures RowTerm(m, f, k, y, x, c, 0, n) == RowBlur(m, f, ks, y, x, c, n)
  {
    if n > 0 {
      RowTermIsRowBlur(m, f, k, ks, y, x, c, n - 1);
      Idx2Closed(|ks|, 0, n - 1);
      assert Weight(k, 0, n - 1) == ks[n - 1];
      assert Mirror(y - k.dims[0] / 2 + 0, m.dims[0]) == y;
    }
  }

  /** Convolution with an odd 1 × |ks| kernel holding ks is the row blur. */
  lemma RowKernelIsRowBlur<V>(m: Mat<V>, f: V -> real, k: Mat<real>, ks: seq<real>, y: nat, x: nat, c: nat)
    requires IsImage(m) && IsGrid(k) && k.dims == [1, |ks|] && k.elements == ks && |ks| % 2 == 1
    requires y < m.dims[0]
    ensures ConvAt(m, f, k, y, x, c) == RowBlur(m, f, ks, y, x, c, |ks|)
  {
    RowTermIsRowBlur(m, f, k, ks, y, x, c, |ks|);
    assert ConvAt(m, f, k, y, x, c) == WindowTerm(m, f, k, y, x, c, 1);
    assert WindowTerm(m, f, k, y, x, c, 1) == RowTerm(m, f, k, y, x, c, 0, |ks|);
  }

  lemma {:induction false} WindowTermIsColumnBlur<V>(m: Mat<V>, f: V -> real, k: Mat<real>, ks: seq<real>, y: nat, x: nat, c: nat, n: nat)
    requires IsImage(m) && IsGrid(k) && k.dims == [|ks|, 1] && k.elements == ks
    requires x < m.dims[1] && n <= |ks|
    ensures WindowTerm(m, f, k, y, x, c, n) == ColumnBlur(m, f, ks, y, x, c, n)
  {
    if n > 0 {
      WindowTermIsColumnBlur(m, f, k, ks, y, x, c, n - 1);
      Idx2Closed(1, n - 1, 0);
      assert Weight(k, n - 1, 0) == ks[n - 1];
      assert Mirror(x - k.dims[1] / 2 + 0, m.dims[1]) == x;
      assert RowTerm(m, f, k, y, x, c, n - 1, 1) ==
               Times(Sample(m, f, Mirror(y - |ks| / 2 + (n - 1), m.dims[0]), x, c), ks[n - 1]);
    }
  }

  /** Convolution with an odd |ks| × 1 kernel holding ks is the column blur. */
  lemma ColumnKernelIsColumnBlur<V>(m: Mat<V>, f: V -> real, k: Mat<real>, ks: seq<real>, y: nat, x: nat, c: nat)
    requires IsImage(m) && IsGrid(k) && k.dims == [|ks|, 1] && k.elements == ks && |ks| % 2 == 1
    requires x < m.dims[1]
    ensures ConvAt(m, f, k, y, x, c) == ColumnBlur(m, f, ks, y, x, c, |ks|)
  {
    WindowTermIsColumnBlur(m, f, k, ks, y, x, c, |ks|);
  }

  /** `gaussianX`: `convolute` with the 1×5 kernel; each sum is truncated
      to the byte type.  It needs three columns unless the image is empty. */
  method GaussianX(image: Mat<int>) returns (r: Result<Mat<int>>)
    requires IsImage(image)
    ensures r.Ok? <==> image.dims[0] == 0 || image.dims[1] == 0 || image.dims[2] == 0 || 3 <= image.dims[1]
    ensures r.Err? ==> r.error == OutOfRange
    ensures r.Ok? ==> fresh(r.value) && IsImage(r.value) && r.value.dims == image.dims
    ensures r.Ok? ==> forall y: nat, x: nat, c: nat | y < image.dims[0] && x < image.dims[1] && c < image.dims[2] ::
              At3(r.value.elements, image.dims[0], image.dims[1], image.dims[2], y, x, c) ==
              Truncate(RowBlur(image, IntToReal, TAPS, y, x, c, 5))
  {
    var k := KernelOf(1, 5, TAPS);
    r := Convolute(image, k, IntToReal, Truncate, 0);
    if r.Ok? {
      forall y: nat, x: nat, c: nat | y < image.dims[0] && x < image.dims[1] && c < image.dims[2]
        ensures At3(r.value.elements, image.dims[0], image.dims[1], image.dims[2], y, x, c) ==
                Truncate(RowBlur(image, IntToReal, TAPS, y, x, c, 5))
      {
        RowKernelIsRowBlur(image, IntToReal, k, TAPS, y, x, c);
      }
    }
  }

  /** `gaussianY`: `convolute` with the 5×1 kernel; it needs three rows
      unless the image is empty. */
  method GaussianY(image: Mat<int>) returns (r: Result<Mat<int>>)
    requires IsImage(image)
    ensures r.Ok? <==> image.dims[0] == 0 || image.dims[1] == 0 || image.dims[2] == 0 || 3 <= image.dims[0]
    ensures r.Err? ==> r.error == OutOfRange
    ensures r.Ok? ==> fresh(r.value) && IsImage(r.value) && r.value.dims == image.dims
    ensures r.Ok? ==> forall y: nat, x: nat, c: nat | y < image.dims[0] && x < image.dims[1] && c < image.dims[2] ::
              At3(r.value.elements, image.dims[0], image.dims[1], image.dims[2], y, x, c) ==
              Truncate(ColumnBlur(image, IntToReal, TAPS, y, x, c, 5))
  {
    var k := KernelOf(5, 1, TAPS);
    r := Convolute(image, k, IntToReal, Truncate, 0);
    if r.Ok? {
      forall y: nat, x: nat, c: nat | y < image.dims[0] && x < image.dims[1] && c < image.dims[2]
        ensures At3(r.value.elements, image.dims[0], image.dims[1], image.dims[2], y, x, c) ==
                Truncate(ColumnBlur(image, IntToReal, TAPS, y, x, c, 5))
      {
        ColumnKernelIsColumnBlur(image, IntToReal, k, TAPS, y, x, c);
      }
    }
  }

  /** `gaussian`: the single loop pass runs `gaussianX` and then
      `gaussianY`, both on the input; the X pass is overwritten, so the
      result is the column blur of the input, but an X pass that throws
      still ends the call.  It succeeds on empty images and on images of
      at least 3 × 3 pixels. */
  method GaussianBlur(image: Mat<int>) returns (r: Result<Mat<int>>)
    requires IsImage(image)
    ensures r.Ok? <==>
              image.dims[0] == 0 || image.dims[1] == 0 || image.dims[2] == 0 ||
              (3 <= image.dims[0] && 3 <= image.dims[1])
    ensures r.Err? ==> r.error == OutOfRange
    ensures r.Ok? ==> IsImage(r.value) && r.value.dims == image.dims
    ensures r.Ok? ==> forall y: nat, x: nat, c: nat | y < image.dims[0] && x < image.dims[1] && c < image.dims[2] ::
              At3(r.value.elements, image.dims[0], image.dims[1], image.dims[2], y, x, c) ==
              Truncate(ColumnBlur(image, IntToReal, TAPS, y, x, c, 5))
  {
    var output := Ok(image);
    for i := 0 to 1
      invariant IsImage(image)
      invariant i == 0 ==> output == Ok(image)
      invariant i == 1 ==> output.Ok? && IsImage(output.value) && output.value.dims == image.dims
      invariant i == 1 ==>
        forall y: nat, x: nat, c: nat | y < image.dims[0] && x < image.dims[1] && c < image.dims[2] ::
          At3(output.value.elements, image.dims[0], image.dims[1], image.dims[2], y, x, c) ==
          Truncate(ColumnBlur(image, IntToReal, TAPS, y, x, c, 5))
      invariant i == 1 ==> image.dims[0] == 0 || image.dims[1] == 0 || image.dims[2] == 0 ||
                           (3 <= image.dims[0] && 3 <= image.dims[1])
    {
      output := GaussianX(image);
      if output.Err? {
        return output;
      }
      output := GaussianY(image);
      if output.Err? {
        return output;
      }
    }
    r := output;
  }

  lemma SampleByte(m: Mat<int>, a: int, b: int, c: nat)
    requires IsImage(m) && Bytes(m)
    ensures 0.0 <= Sample(m, IntToReal, a, b, c) <= 255.0
  {
    if 0 <= a < m.dims[0] && 0 <= b < m.dims[1] && c < m.dims[2] {
      Idx3Bound(m.dims[0], m.dims[1], m.dims[2], a, b, c);
    }
  }

  lemma TapBound(a: real, i: nat)
    requires 0.0 <= a <= 255.0 && i < |TAPS|
    ensures 0.0 <= Times(a, TAPS[i]) <= 255.0 * TAPS[i]
  {
  }

  lemma SumPrefix(ks: seq<real>, n: nat)
    requires 0 < n <= |ks|
    ensures Sum(ks[..n]) == Sum(ks[..n - 1]) + ks[n - 1]
  {
    assert ks[..n][..n - 1] == ks[..n - 1];
  }

  lemma {:induction false} ColumnBlurBound(m: Mat<int>, y: nat, x: nat, c: nat, n: nat)
    requires IsImage(m) && Bytes(m) && n <= |TAPS|
    ensures 0.0 <= ColumnBlur(m, IntToReal, TAPS, y, x, c, n) <= 255.0 * Sum(TAPS[..n])
  {
    if n > 0 {
      ColumnBlurBound(m, y, x, c, n - 1);
      SampleByte(m, Mirror(y - |TAPS| / 2 + (n - 1), m.dims[0]), x, c);
      TapBound(Sample(m, IntToReal, Mirror(y - |TAPS| / 2 + (n - 1), m.dims[0]), x, c), n - 1);
      SumPrefix(TAPS, n);
    }
  }

  lemma {:induction false} ColumnBlurConstant<V>(m: Mat<V>, f: V -> real, ks: seq<real>, y: nat, x: nat, c: nat, n: nat, v: V)
    requires IsImage(m) && n <= |ks| && y < m.dims[0] && x < m.dims[1] && c < m.dims[2]
    requires |ks| / 2 < m.dims[0] && ChannelConstant(m, c, v)
    ensures ColumnBlur(m, f, ks, y, x, c, n) == Times(f(v), Sum(ks[..n]))
  {
    if n > 0 {
      ColumnBlurConstant(m, f, ks, y, x, c, n - 1, v);
      var a := Mirror(y - |ks| / 2 + (n - 1), m.dims[0]);
      assert 0 <= a < m.dims[0];
      assert Sample(m, f, a, x, c) == f(v);
      SumPrefix(ks, n);
      TimesAdd(f(v), Sum(ks[..n - 1]), ks[n - 1]);
    }
  }

  /** Blurring a byte image gives bytes: the taps are a weighted mean, and
      truncation keeps the value within 0..255. */
  lemma BlurOfBytes(m: Mat<int>, y: nat, x: nat, c: nat)
    requires IsImage(m) && Bytes(m)
    ensures 0 <= Truncate(ColumnBlur(m, IntToReal, TAPS, y, x, c, 5)) <= 255
    ensures 0 <= Truncate(RowBlur(m, IntToReal, TAPS, y, x, c, 5)) <= 255
  {
    TapsAreWeights();
    assert TAPS[..5] == TAPS;
    ColumnBlurBound(m, y, x, c, 5);
    RowBlurBound(m, y, x, c, 5);
  }

  lemma {:induction false} RowBlurBound(m: Mat<int>, y: nat, x: nat, c: nat, n: nat)
    requires IsImage(m) && Bytes(m) && n <= |TAPS|
    ensures 0.0 <= RowBlur(m, IntToReal, TAPS, y, x, c, n) <= 255.0 * Sum(TAPS[..n])
  {
    if n > 0 {
      RowBlurBound(m, y, x, c, n - 1);
      SampleByte(m, y, Mirror(x - |TAPS| / 2 + (n - 1), m.dims[1]), c);
      TapBound(Sample(m, IntToReal, y, Mirror(x - |TAPS| / 2 + (n - 1), m.dims[1]), c), n - 1);
      SumPrefix(TAPS, n);
    }
  }

  /** A channel holding one byte value everywhere comes out of `gaussian`
      unchanged: mirroring brings in nothing else and the taps sum to one. */
  lemma BlurOfConstant(m: Mat<int>, y: nat, x: nat, c: nat, v: int)
    requires IsImage(m) && 3 <= m.dims[0] && y < m.dims[0] && x < m.dims[1] && c < m.dims[2]
    requires ChannelConstant(m, c, v)
    ensures Truncate(ColumnBlur(m, IntToReal, TAPS, y, x, c, 5)) == v
  {
    TapsAreWeights();
    assert TAPS[..5] == TAPS;
    ColumnBlurConstant(m, IntToReal, TAPS, y, x, c, 5, v);
  }

  /** An `unsigned` result: the value reduced modulo 2^32. */
  function U(e: int): nat
  {
    e % UNSIGNED_RANGE
  }

  /** A value that fits is unchanged by the reduction. */
  lemma Unsigned(e: int)
    requires 0 <= e < UNSIGNED_RANGE
    ensures U(e) == e
  {
  }

  /** The boxes `makeGaussianBoxFilterXX(size)` adds, in order, with every
      subtraction and sum done in `unsigned` arithmetic: a left band of
      weight 0, a middle band split into three rows of weights -1, -2, -1,
      and a right band of weight 0. */
  function XXBoxes(size: nat): (bs: seq<Box>)
    ensures |bs| == 5
  {
    var t := size / 3;
    var p := U(size - 9) / 3;
    var l, m := U(2 + p), U(5 + p);
    [Box(0, 0, U(l - 1), U(size - 1), 0),
     Box(l, 0, U(l + m - 1), U(t - 1), -1),
     Box(l, t, U(l + m - 1), U(2 * t - 1), -2),
     Box(l, U(2 * t), U(l + m - 1), U(3 * t - 1), -1),
     Box(U(l + m), 0, U(size - 1), U(size - 1), 0)]
  }

  /** `makeGaussianBoxFilterXX`: asserts that size is a multiple of 3 and
      adds the five boxes of XXBoxes. */
  method MakeXX(size: nat) returns (r: Result<BoxFilter>)
    requires size < UNSIGNED_RANGE
    ensures r.Err? <==> size % 3 != 0
    ensures r.Err? ==> r.error == AssertionFailure
    ensures r.Ok? ==> fresh(r.value) && r.value.boxes == XXBoxes(size)
  {
    if size % 3 != 0 {
      return Err(AssertionFailure);
    }
    var sizePerRegion := size / 3;
    var padding := U(size - 9);
    var paddingPerRegion := padding / 3;
    var leftRegionWidth := U(2 + paddingPerRegion);
    var middleRegionWidth := U(5 + paddingPerRegion);
    var left := Box(0, 0, U(leftRegionWidth - 1), U(size - 1), 0);
    var top := Box(leftRegionWidth, 0, U(leftRegionWidth + middleRegionWidth - 1), U(sizePerRegion - 1), -1);
    var middle := Box(leftRegionWidth, sizePerRegion, U(leftRegionWidth + middleRegionWidth - 1),
                      U(2 * sizePerRegion - 1), -2);
    var bottom := Box(leftRegionWidth, U(2 * sizePerRegion), U(leftRegionWidth + middleRegionWidth - 1),
                      U(3 * sizePerRegion - 1), -1);
    var right := Box(U(leftRegionWidth + middleRegionWidth), 0, U(size - 1), U(size - 1), 0);
    assert XXBoxes(size) == [left, top, middle, bottom, right];
    var filter := new BoxFilter();
    filter.AddBox(left);
    filter.AddBox(top);
    filter.AddBox(middle);
    filter.AddBox(bottom);
    filter.AddBox(right);
    r := Ok(filter);
  }

  /** The XX region cell (x, y) of the square lies in: the left band, one of
      the three rows of the middle band, or the right band. */
  function XXRegion(size: nat, x: nat, y: nat): nat
  {
    var t := size / 3;
    if x < t - 1 then 0
    else if x <= 2 * t then (if y < t then 1 else if y < 2 * t then 2 else 3)
    else 4
  }

  /** For a multiple of 3 from 9 on, the XX boxes tile the square: every
      cell lies in exactly the box of its region.  The left and right bands
      are 2 + (size - 9)/3 wide, the middle band 5 + (size - 9)/3, together
      the whole side; the middle rows are size/3 tall. */
  lemma XXLayout(size: nat)
    requires 9 <= size < UNSIGNED_RANGE && size % 3 == 0
    ensures var bs := XXBoxes(size);
            bs[0].val == 0 && bs[1].val == -1 && bs[2].val == -2 && bs[3].val == -1 && bs[4].val == 0
    ensures var bs := XXBoxes(size);
            bs[0].x1 + 1 == 2 + (size - 9) / 3 && bs[1].x1 - bs[1].x0 + 1 == 5 + (size - 9) / 3 &&
            bs[4].x1 - bs[4].x0 + 1 == 2 + (size - 9) / 3 &&
            (bs[0].x1 + 1) + (bs[1].x1 - bs[1].x0 + 1) + (bs[4].x1 - bs[4].x0 + 1) == size
    ensures forall i | 1 <= i <= 3 :: XXBoxes(size)[i].y1 - XXBoxes(size)[i].y0 + 1 == size / 3
    ensures forall i, x: nat, y: nat | 0 <= i < 5 && x < size && y < size ::
              XXBoxes(size)[i].Contains(x, y) <==> i == XXRegion(size, x, y)
    ensures forall i | 0 <= i < 5 :: XXBoxes(size)[i].x1 < size && XXBoxes(size)[i].y1 < size
  {
    XXConcrete(size);
  }

  lemma XXConcrete(size: nat)
    requires 9 <= size < UNSIGNED_RANGE && size % 3 == 0
    ensures var t := size / 3;
            XXBoxes(size) ==
              [Box(0, 0, t - 2, size - 1, 0),
               Box(t - 1, 0, 2 * t, t - 1, -1),
               Box(t - 1, t, 2 * t, 2 * t - 1, -2),
               Box(t - 1, 2 * t, 2 * t, 3 * t - 1, -1),
               Box(2 * t + 1, 0, size - 1, size - 1, 0)]
  {
    var t := size / 3;
    assert size == 3 * t;
    Unsigned(size - 9);
    var p := U(size - 9) / 3;
    assert p == t - 3;
    Unsigned(2 + p);
    Unsigned(5 + p);
    var l, m := U(2 + p), U(5 + p);
    Unsigned(l - 1);
    Unsigned(size - 1);
    Unsigned(l + m - 1);
    Unsigned(t - 1);
    Unsigned(2 * t - 1);
    Unsigned(2 * t);
    Unsigned(3 * t - 1);
    Unsigned(l + m);
  }

  /** Below 9 the unsigned `size - 9` wraps round: for size 6 the assertion
      passes and the left band reaches far outside the square. */
  lemma XXBelowNine()
    ensures XXBoxes(6)[0].x1 == 1431655765
  {
  }

  /** `makeGaussianBoxFilterYY`: the XX filter, transposed. */
  method MakeYY(size: nat) returns (r: Result<BoxFilter>)
    requires size < UNSIGNED_RANGE
    ensures r.Err? <==> size % 3 != 0
    ensures r.Err? ==> r.error == AssertionFailure
    ensures r.Ok? ==> fresh(r.value) && r.value.boxes == TransposeAll(XXBoxes(size))
  {
    r := MakeXX(size);
    if r.Ok? {
      r.value.Transpose();
    }
  }

  /** The YY boxes tile the square like the XX boxes with the axes swapped:
      the bands run across and the middle band splits into columns. */
  lemma YYLayout(size: nat)
    requires 9 <= size < UNSIGNED_RANGE && size % 3 == 0
    ensures forall i | 0 <= i < 5 :: TransposeAll(XXBoxes(size))[i].val == XXBoxes(size)[i].val
    ensures forall i, x: nat, y: nat | 0 <= i < 5 && x < size && y < size ::
              TransposeAll(XXBoxes(size))[i].Contains(x, y) <==> i == XXRegion(size, y, x)
  {
    XXLayout(size);
    var bs := XXBoxes(size);
    forall i, x: nat, y: nat | 0 <= i < 5 && x < size && y < size
      ensures TransposeAll(bs)[i].Contains(x, y) <==> i == XXRegion(size, y, x)
    {
      assert TransposeAll(bs)[i].Contains(x, y) == bs[i].Contains(y, x);
    }
  }

  /** The boxes `makeGaussianBoxFilterXY(size)` adds, in order, in
      `unsigned` arithmetic: two squares of weight 1 on the main diagonal
      and two of weight -1 off it, a one-cell gap between them. */
  function XYBoxes(size: nat): (bs: seq<Box>)
    ensures |bs| == 4
  {
    var q := U(3 + U(size - 9) / 3);
    XYSquares(q, U(size - 2 * q - 1) / 2)
  }

  /** The four boxes of side q starting at lo, with the source's unsigned
      corner arithmetic. */
  function XYSquares(q: nat, lo: nat): (bs: seq<Box>)
    ensures |bs| == 4
  {
    [Box(lo, lo, U(lo + q - 1), U(lo + q - 1), 1),
     Box(U(lo + q + 1), U(lo + q + 1), U(lo + 2 * q), U(lo + 2 * q), 1),
     Box(lo, U(lo + q + 1), U(lo + q - 1), U(lo + 2 * q), -1),
     Box(U(lo + q + 1), lo, U(lo + 2 * q), U(lo + q - 1), -1)]
  }

  /** When no corner wraps, the unsigned corners are the plain ones. */
  lemma XYSquaresExact(q: nat, lo: nat)
    requires 1 <= q && lo + 2 * q < UNSIGNED_RANGE
    ensures XYSquares(q, lo) ==
              [Box(lo, lo, lo + q - 1, lo + q - 1, 1),
               Box(lo + q + 1, lo + q + 1, lo + 2 * q, lo + 2 * q, 1),
               Box(lo, lo + q + 1, lo + q - 1, lo + 2 * q, -1),
               Box(lo + q + 1, lo, lo + 2 * q, lo + q - 1, -1)]
  {
    Unsigned(lo + q - 1);
    Unsigned(lo + q + 1);
    Unsigned(lo + 2 * q);
  }

  /** `makeGaussianBoxFilterXY`: asserts that size is a multiple of 3 and
      adds the four boxes of XYBoxes. */
  method MakeXY(size: nat) returns (r: Result<BoxFilter>)
    requires size < UNSIGNED_RANGE
    ensures r.Err? <==> size % 3 != 0
    ensures r.Err? ==> r.error == AssertionFailure
    ensures r.Ok? ==> fresh(r.value) && r.value.boxes == XYBoxes(size)
  {
    if size % 3 != 0 {
      return Err(AssertionFailure);
    }
    var padding := U(size - 9);
    var squareSize := U(3 + padding / 3);
    var leftOver := U(size - 2 * squareSize - 1) / 2;
    var filter := new BoxFilter();
    filter.AddBox(Box(leftOver, leftOver, U(leftOver + squareSize - 1), U(leftOver + squareSize - 1), 1));
    filter.AddBox(Box(U(leftOver + squareSize + 1), U(leftOver + squareSize + 1),
                      U(leftOver + 2 * squareSize), U(leftOver + 2 * squareSize), 1));
    filter.AddBox(Box(leftOver, U(leftOver + squareSize + 1), U(leftOver + squareSize - 1),
                      U(leftOver + 2 * squareSize), -1));
    filter.AddBox(Box(U(leftOver + squareSize + 1), leftOver, U(leftOver + 2 * squareSize),
                      U(leftOver + squareSize - 1), -1));
    r := Ok(filter);
  }

  /** For a multiple of 3 from 9 on, the XY boxes are four size/3 squares
      inside the square, pairwise disjoint, with weights 1, 1, -1, -1 that
      cancel; no box touches the row or column between them; the margins
      left and right differ by at most one cell; and transposing the filter
      swaps the two negative boxes and keeps the positive ones. */
  lemma XYLayout(size: nat)
    requires 9 <= size < UNSIGNED_RANGE && size % 3 == 0
    ensures var bs := XYBoxes(size);
            bs[0].val == 1 && bs[1].val == 1 && bs[2].val == -1 && bs[3].val == -1
    ensures forall i | 0 <= i < 4 ::
              XYBoxes(size)[i].x1 - XYBoxes(size)[i].x0 + 1 == size / 3 &&
              XYBoxes(size)[i].y1 - XYBoxes(size)[i].y0 + 1 == size / 3 &&
              XYBoxes(size)[i].x1 < size && XYBoxes(size)[i].y1 < size
    ensures forall i, j, x: int, y: int | 0 <= i < j < 4 ::
              !(XYBoxes(size)[i].Contains(x, y) && XYBoxes(size)[j].Contains(x, y))
    ensures var gap := XYBoxes(size)[0].x1 + 1;
            forall i, z: int | 0 <= i < 4 :: !XYBoxes(size)[i].Contains(gap, z) && !XYBoxes(size)[i].Contains(z, gap)
    ensures var bs := XYBoxes(size);
            0 <= (size - 1 - bs[1].x1) - bs[0].x0 <= 1
    ensures var bs := XYBoxes(size);
            TransposeAll(bs) == [bs[0], bs[1], bs[3], bs[2]]
  {
    XYConcrete(size);
  }

  lemma XYConcrete(size: nat)
    requires 9 <= size < UNSIGNED_RANGE && size % 3 == 0
    ensures var t := size / 3;
            var lo := (t - 1) / 2;
            XYBoxes(size) ==
              [Box(lo, lo, lo + t - 1, lo + t - 1, 1),
               Box(lo + t + 1, lo + t + 1, lo + 2 * t, lo + 2 * t, 1),
               Box(lo, lo + t + 1, lo + t - 1, lo + 2 * t, -1),
               Box(lo + t + 1, lo, lo + 2 * t, lo + t - 1, -1)]
  {
    var t := size / 3;
    assert XYBoxes(size) == XYSquares(t, (t - 1) / 2) by {
      XYSquare(size);
    }
    XYSquaresExact(t, (t - 1) / 2);
  }

  /** In the XY layout the unsigned square side is size/3 and the unsigned
      margin is (size/3 - 1)/2. */
  lemma XYSquare(size: nat)
    requires 9 <= size < UNSIGNED_RANGE && size % 3 == 0
    ensures U(3 + U(size - 9) / 3) == size / 3
    ensures U(size - 2 * (size / 3) - 1) / 2 == (size / 3 - 1) / 2
  {
    var t := size / 3;
    assert size == 3 * t;
    Unsigned(size - 9);
    Unsigned(3 + (size - 9) / 3);
    Unsigned(size - 2 * t - 1);
  }
}
