/** Grey-scale conversion (grayscale.cpp): the rounded third of the sum of
    the first three channels (or fewer, if the image has fewer). */
module Grayscale {
  import opened Wrappers
  import opened Mats
  import opened Grids

  /** `std::round`: to the nearest integer, halves away from zero. */
  function Round(r: real): (n: int)
    ensures r >= 0.0 ==> n as real - 0.5 <= r < n as real + 0.5
    ensures r < 0.0 ==> n as real - 0.5 < r <= n as real + 0.5
  {
    if r >= 0.0 then (r + 0.5).Floor else -((-r + 0.5).Floor)
  }

  /** The sum of the first n channels of pixel (y, x). */
  function ChannelSum(m: Mat<int>, y: nat, x: nat, n: nat): int
    reads m
    requires IsImage(m) && y < m.dims[0] && x < m.dims[1] && n <= m.dims[2]
  {
    if n == 0 then 0
    else ChannelSum(m, y, x, n - 1) + At3(m.elements, m.dims[0], m.dims[1], m.dims[2], y, x, n - 1)
  }

  /** On bytes the sum of n channels lies in [0, 255·n]. */
  lemma {:induction false} ChannelSumBound(m: Mat<int>, y: nat, x: nat, n: nat)
    requires IsImage(m) && Bytes(m) && y < m.dims[0] && x < m.dims[1] && n <= m.dims[2]
    ensures 0 <= ChannelSum(m, y, x, n) <= 255 * n
  {
    if n > 0 {
      ChannelSumBound(m, y, x, n - 1);
      Idx3Bound(m.dims[0], m.dims[1], m.dims[2], y, x, n - 1);
    }
  }

  /** Rounding a third of a non-negative integer never meets a half, so it
      is integer division with the remainder 2 rounded up. */
  lemma RoundThird(sum: int)
    requires 0 <= sum
    ensures Round(sum as real / 3.0) == (sum + 1) / 3
  {
    var q, r := (sum + 1) / 3, (sum + 1) % 3;
    assert sum == 3 * q + r - 1;
    assert sum as real / 3.0 + 0.5 == q as real + (2 * r + 1) as real / 6.0;
  }

  /** The value written for pixel (y, x): `round(sum / 3.0)` over the first
      min(channels, 3) channels. */
  function Gray(m: Mat<int>, y: nat, x: nat): int
    reads m
    requires IsImage(m) && y < m.dims[0] && x < m.dims[1]
  {
    var n := if m.dims[2] < 3 then m.dims[2] else 3;
    Round(ChannelSum(m, y, x, n) as real / 3.0)
  }

  /** On bytes every grey value is a byte: the sum is at most 765.  With
      fewer than three channels the divisor is still 3, so a single channel
      v becomes (v + 1) / 3, not v. */
  lemma GrayRange(m: Mat<int>, y: nat, x: nat)
    requires IsImage(m) && Bytes(m) && y < m.dims[0] && x < m.dims[1]
    ensures var n := if m.dims[2] < 3 then m.dims[2] else 3;
            Gray(m, y, x) == (ChannelSum(m, y, x, n) + 1) / 3
    ensures 0 <= Gray(m, y, x) <= 255
    ensures m.dims[2] == 1 ==> Gray(m, y, x) == (At3(m.elements, m.dims[0], m.dims[1], 1, y, x, 0) + 1) / 3
  {
    var n := if m.dims[2] < 3 then m.dims[2] else 3;
    ChannelSumBound(m, y, x, n);
    RoundThird(ChannelSum(m, y, x, n));
  }

  /** The channel loop: the sum of the first n channels of (y, x), read
      through `image[y][x][c]`. */
  method SumChannels(image: Mat<int>, y: nat, x: nat, n: nat) returns (sum: int)
    requires IsImage(image) && y < image.dims[0] && x < image.dims[1] && n <= image.dims[2]
    ensures sum == ChannelSum(image, y, x, n)
  {
    sum := 0;
    var c := 0;
    while c < n
      invariant 0 <= c <= n && sum == ChannelSum(image, y, x, c)
    {
      Get3(image, y, x, c);
      var v := Get(image, [y, x, c]);
      sum := sum + v.value;
      c := c + 1;
    }
  }

  /** Row y of `grayscale`: cell (y, x, 0) of the output gets the grey value
      of pixel (y, x); other rows keep their values. */
  method GrayRow(image: Mat<int>, output: Mat<int>, y: nat)
    requires IsImage(image) && IsImage(output) && (image as object) != (output as object)
    requires output.dims == [image.dims[0], image.dims[1], 1] && y < image.dims[0]
    modifies output
    ensures IsImage(output)
    ensures forall x: nat | x < image.dims[1] ::
              At3(output.elements, image.dims[0], image.dims[1], 1, y, x, 0) == Gray(image, y, x)
    ensures forall y': nat, x: nat | y' < image.dims[0] && x < image.dims[1] && y' != y ::
              At3(output.elements, image.dims[0], image.dims[1], 1, y', x, 0) ==
              At3(old(output.elements), image.dims[0], image.dims[1], 1, y', x, 0)
  {
    var h, w := image.dims[0], image.dims[1];
    var channel := if image.dims[2] < 3 then image.dims[2] else 3;
    var x := 0;
    while x < w
      invariant 0 <= x <= w && IsImage(output) && output.dims == [h, w, 1]
      invariant forall x': nat | x' < x :: At3(output.elements, h, w, 1, y, x', 0) == Gray(image, y, x')
      invariant forall y': nat, x': nat | y' < h && x' < w && y' != y ::
                  At3(output.elements, h, w, 1, y', x', 0) == At3(old(output.elements), h, w, 1, y', x', 0)
    {
      var sum := SumChannels(image, y, x, channel);
      var v := Round(sum as real / 3.0);
      ghost var before := output.elements;
      Put3(output, y, x, 0, v);
      At3Update(before, h, w, 1, y, x, 0, v);
      x := x + 1;
    }
  }

  /** `grayscale`: an H × W × 1 image of the grey values; with byte input
      every value is a byte. */
  method ToGray(image: Mat<int>) returns (output: Mat<int>)
    requires IsImage(image)
    ensures fresh(output) && IsImage(output) && output.dims == [image.dims[0], image.dims[1], 1]
    ensures forall y: nat, x: nat | y < image.dims[0] && x < image.dims[1] ::
              At3(output.elements, image.dims[0], image.dims[1], 1, y, x, 0) == Gray(image, y, x)
    ensures Bytes(image) ==> Bytes(output)
  {
    var h, w := image.dims[0], image.dims[1];
    output := new Mat<int>.Zeros([h, w, 1], 0);
    ImageShape(output);
    var y := 0;
    while y < h
      invariant 0 <= y <= h && fresh(output) && IsImage(output) && output.dims == [h, w, 1]
      invariant forall y': nat, x': nat | y' < y && x' < w :: At3(output.elements, h, w, 1, y', x', 0) == Gray(image, y', x')
    {
      GrayRow(image, output, y);
      y := y + 1;
    }
    if Bytes(image) {
      forall i | 0 <= i < |output.elements| ensures 0 <= output.elements[i] <= 255 {
        var y', x' := PixelOf(h, w, i);
        GrayRange(image, y', x');
      }
    }
  }

  /** Every position of an H × W × 1 image is the cell of some pixel. */
  lemma PixelOf(h: nat, w: nat, i: nat) returns (y: nat, x: nat)
    requires i < h * w * 1
    ensures y < h && x < w && Idx3(w, 1, y, x, 0) == i
  {
    y, x := i / w, i % w;
    Idx2Closed(w, y, x);
    Idx2Closed(1, Idx2(w, y, x), 0);
  }
}
