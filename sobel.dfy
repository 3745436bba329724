/** Sobel gradients and magnitude (sobel.cpp).  Each gradient is two
    `convolute` passes, a 1×3 row kernel and then a 3×1 column kernel; the
    composition is the 3×3 Sobel kernel applied with mirrored edges.  The
    magnitude uses `std::hypot`, a parameter here. */
module Sobel {
  import opened Wrappers
  import opened Mats
  import opened Grids
  import opened Convolution

  /** Channel c of the input at the mirrored position (y + dy, x + dx). */
  function P(m: Mat<int>, y: nat, x: nat, c: nat, dy: int, dx: int): real
    reads m
    requires IsImage(m)
  {
    Sample(m, IntToReal, Mirror(y + dy, m.dims[0]), Mirror(x + dx, m.dims[1]), c)
  }

  /** The horizontal gradient: the kernel [[1, 0, -1], [2, 0, -2], [1, 0, -1]]
      laid over (y, x). */
  function GradX(m: Mat<int>, y: nat, x: nat, c: nat): real
    reads m
    requires IsImage(m)
  {
    (P(m, y, x, c, -1, -1) - P(m, y, x, c, -1, 1)) +
    2.0 * (P(m, y, x, c, 0, -1) - P(m, y, x, c, 0, 1)) +
    (P(m, y, x, c, 1, -1) - P(m, y, x, c, 1, 1))
  }

  /** The vertical gradient: the kernel [[-1, -2, -1], [0, 0, 0], [1, 2, 1]]
      laid over (y, x). */
  function GradY(m: Mat<int>, y: nat, x: nat, c: nat): real
    reads m
    requires IsImage(m)
  {
    (P(m, y, x, c, 1, -1) + 2.0 * P(m, y, x, c, 1, 0) + P(m, y, x, c, 1, 1)) -
    (P(m, y, x, c, -1, -1) + 2.0 * P(m, y, x, c, -1, 0) + P(m, y, x, c, -1, 1))
  }

  /** A 1×3 kernel laid over row a at column x: the three mirrored row
      neighbours weighed by ks. */
  function RowSum<V>(m: Mat<V>, f: V -> real, ks: seq<real>, a: int, x: nat, c: nat): real
    reads m
    requires IsImage(m) && |ks| == 3
  {
    Times(Sample(m, f, a, Mirror(x - 1, m.dims[1]), c), ks[0]) +
    Times(Sample(m, f, a, Mirror(x, m.dims[1]), c), ks[1]) +
    Times(Sample(m, f, a, Mirror(x + 1, m.dims[1]), c), ks[2])
  }

  /** A 3×1 kernel laid over column x at row y: the three mirrored column
      neighbours weighed by ks. */
  function ColumnSum<V>(m: Mat<V>, f: V -> real, ks: seq<real>, y: nat, x: nat, c: nat): real
    reads m
    requires IsImage(m) && |ks| == 3
  {
    Times(Sample(m, f, Mirror(y - 1, m.dims[0]), x, c), ks[0]) +
    Times(Sample(m, f, Mirror(y, m.dims[0]), x, c), ks[1]) +
    Times(Sample(m, f, Mirror(y + 1, m.dims[0]), x, c), ks[2])
  }

  /** A 1×3 row pass followed by a 3×1 column pass, in closed form: the
      column weights applied to the row sums of the three mirrored rows. */
  function SeparableAt(m: Mat<int>, kr: seq<real>, kc: seq<real>, y: nat, x: nat, c: nat): real
    reads m
    requires IsImage(m) && |kr| == 3 && |kc| == 3
  {
    Times(RowSum(m, IntToReal, kr, Mirror(y - 1, m.dims[0]), x, c), kc[0]) +
    Times(RowSum(m, IntToReal, kr, Mirror(y, m.dims[0]), x, c), kc[1]) +
    Times(RowSum(m, IntToReal, kr, Mirror(y + 1, m.dims[0]), x, c), kc[2])
  }

  /** The convolution window of a 1×3 kernel is its row sum. */
  lemma RowKernel<V>(m: Mat<V>, f: V -> real, k: Mat<real>, y: nat, x: nat, c: nat)
    requires IsImage(m) && IsGrid(k) && k.dims == [1, 3]
    requires y < m.dims[0] && x < m.dims[1] && c < m.dims[2]
    ensures ConvAt(m, f, k, y, x, c) == RowSum(m, f, k.elements, y, x, c)
  {
    var h, w := m.dims[0], m.dims[1];
    assert k.dims[0] / 2 == 0 && k.dims[1] / 2 == 1;
    assert Mirror(y - 0 + 0, h) == y;
    assert Weight(k, 0, 0) == k.elements[0] && Weight(k, 0, 1) == k.elements[1] && Weight(k, 0, 2) == k.elements[2] by {
      assert Idx2(3, 0, 0) == 0 && Idx2(3, 0, 1) == 1 && Idx2(3, 0, 2) == 2;
    }
    assert RowTerm(m, f, k, y, x, c, 0, 1) == Times(Sample(m, f, y, Mirror(x - 1, w), c), k.elements[0]);
    assert RowTerm(m, f, k, y, x, c, 0, 2) ==
             RowTerm(m, f, k, y, x, c, 0, 1) + Times(Sample(m, f, y, Mirror(x, w), c), k.elements[1]);
    assert RowTerm(m, f, k, y, x, c, 0, 3) ==
             RowTerm(m, f, k, y, x, c, 0, 2) + Times(Sample(m, f, y, Mirror(x + 1, w), c), k.elements[2]);
    assert ConvAt(m, f, k, y, x, c) == WindowTerm(m, f, k, y, x, c, 1) == RowTerm(m, f, k, y, x, c, 0, 3);
  }

  /** The convolution window of a 3×1 kernel is its column sum. */
  lemma ColumnKernel<V>(m: Mat<V>, f: V -> real, k: Mat<real>, y: nat, x: nat, c: nat)
    requires IsImage(m) && IsGrid(k) && k.dims == [3, 1]
    requires y < m.dims[0] && x < m.dims[1] && c < m.dims[2]
    ensures ConvAt(m, f, k, y, x, c) == ColumnSum(m, f, k.elements, y, x, c)
  {
    var h, w := m.dims[0], m.dims[1];
    assert k.dims[0] / 2 == 1 && k.dims[1] / 2 == 0;
    assert Mirror(x - 0 + 0, w) == x;
    assert Weight(k, 0, 0) == k.elements[0] && Weight(k, 1, 0) == k.elements[1] && Weight(k, 2, 0) == k.elements[2] by {
      assert Idx2(1, 0, 0) == 0 && Idx2(1, 1, 0) == 1 && Idx2(1, 2, 0) == 2;
    }
    assert RowTerm(m, f, k, y, x, c, 0, 1) == Times(Sample(m, f, Mirror(y - 1, h), x, c), k.elements[0]);
    assert RowTerm(m, f, k, y, x, c, 1, 1) == Times(Sample(m, f, Mirror(y, h), x, c), k.elements[1]);
    assert RowTerm(m, f, k, y, x, c, 2, 1) == Times(Sample(m, f, Mirror(y + 1, h), x, c), k.elements[2]);
    assert WindowTerm(m, f, k, y, x, c, 1) == RowTerm(m, f, k, y, x, c, 0, 1);
    assert WindowTerm(m, f, k, y, x, c, 2) == WindowTerm(m, f, k, y, x, c, 1) + RowTerm(m, f, k, y, x, c, 1, 1);
    assert WindowTerm(m, f, k, y, x, c, 3) == WindowTerm(m, f, k, y, x, c, 2) + RowTerm(m, f, k, y, x, c, 2, 1);
  }

  /** b holds the pass of the 1×3 kernel kr over m. */
  ghost predicate RowPass(m: Mat<int>, kr: Mat<real>, b: Mat<real>)
    reads m, kr, b
  {
    IsImage(m) && IsImage(b) && b.dims == m.dims && IsGrid(kr) && kr.dims == [1, 3] &&
    forall a': nat, x': nat, c': nat | a' < m.dims[0] && x' < m.dims[1] && c' < m.dims[2] ::
      At3(b.elements, m.dims[0], m.dims[1], m.dims[2], a', x', c') == ConvAt(m, IntToReal, kr, a', x', c')
  }

  /** A cell of the row-pass buffer b is the row sum of the input there. */
  lemma BufferRow(m: Mat<int>, kr: Mat<real>, b: Mat<real>, a: int, x: nat, c: nat)
    requires RowPass(m, kr, b) && 0 <= a < m.dims[0] && x < m.dims[1] && c < m.dims[2]
    ensures |kr.elements| == 3
    ensures Sample(b, RealId, a, x, c) == RowSum(m, IntToReal, kr.elements, a, x, c)
  {
    assert kr.dims[0] == 1 && kr.dims[1] == 3;
    RowKernel(m, IntToReal, kr, a, x, c);
    assert At3(b.elements, m.dims[0], m.dims[1], m.dims[2], a, x, c) == ConvAt(m, IntToReal, kr, a, x, c);
  }

  /** A row pass into b followed by a column pass over b computes
      `SeparableAt`: each of the three rows the column kernel reads is a
      mirrored row of b, which holds the row pass of the input. */
  lemma Separable(m: Mat<int>, kr: Mat<real>, b: Mat<real>, kc: Mat<real>, y: nat, x: nat, c: nat)
    requires IsImage(m) && IsImage(b) && b.dims == m.dims
    requires IsGrid(kr) && kr.dims == [1, 3] && IsGrid(kc) && kc.dims == [3, 1]
    requires 2 <= m.dims[0] && y < m.dims[0] && x < m.dims[1] && c < m.dims[2]
    requires forall a: nat, x': nat, c': nat | a < m.dims[0] && x' < m.dims[1] && c' < m.dims[2] ::
               At3(b.elements, m.dims[0], m.dims[1], m.dims[2], a, x', c') == ConvAt(m, IntToReal, kr, a, x', c')
    ensures ConvAt(b, RealId, kc, y, x, c) == SeparableAt(m, kr.elements, kc.elements, y, x, c)
  {
    var h := m.dims[0];
    assert |kc.elements| == 3 by {
      assert kc.dims[0] == 3 && kc.dims[1] == 1;
    }
    ColumnKernel(b, RealId, kc, y, x, c);
    assert RowPass(m, kr, b);
    MirrorOnAxis(y - 1, h);
    MirrorOnAxis(y, h);
    MirrorOnAxis(y + 1, h);
    BufferRow(m, kr, b, Mirror(y - 1, h), x, c);
    BufferRow(m, kr, b, Mirror(y, h), x, c);
    BufferRow(m, kr, b, Mirror(y + 1, h), x, c);
  }

  /** The X kernels of `sobelXYGradients` compose to the horizontal Sobel
      kernel. */
  lemma SobelXKernels(m: Mat<int>, y: nat, x: nat, c: nat)
    requires IsImage(m)
    ensures SeparableAt(m, [1.0, 0.0, -1.0], [1.0, 2.0, 1.0], y, x, c) == GradX(m, y, x, c)
  {
    var h, w := m.dims[0], m.dims[1];
    var kr := [1.0, 0.0, -1.0];
    assert RowSum(m, IntToReal, kr, Mirror(y - 1, h), x, c) == P(m, y, x, c, -1, -1) - P(m, y, x, c, -1, 1);
    assert RowSum(m, IntToReal, kr, Mirror(y, h), x, c) == P(m, y, x, c, 0, -1) - P(m, y, x, c, 0, 1);
    assert RowSum(m, IntToReal, kr, Mirror(y + 1, h), x, c) == P(m, y, x, c, 1, -1) - P(m, y, x, c, 1, 1);
  }

  /** The Y kernels of `sobelXYGradients` compose to the vertical Sobel
      kernel. */
  lemma SobelYKernels(m: Mat<int>, y: nat, x: nat, c: nat)
    requires IsImage(m)
    ensures SeparableAt(m, [1.0, 2.0, 1.0], [-1.0, 0.0, 1.0], y, x, c) == GradY(m, y, x, c)
  {
    var h, w := m.dims[0], m.dims[1];
    var kr := [1.0, 2.0, 1.0];
    assert RowSum(m, IntToReal, kr, Mirror(y - 1, h), x, c) ==
             P(m, y, x, c, -1, -1) + 2.0 * P(m, y, x, c, -1, 0) + P(m, y, x, c, -1, 1);
    assert RowSum(m, IntToReal, kr, Mirror(y + 1, h), x, c) ==
             P(m, y, x, c, 1, -1) + 2.0 * P(m, y, x, c, 1, 0) + P(m, y, x, c, 1, 1);
  }

  /** A channel that is one value everywhere has zero gradients: every
      mirrored neighbour lies on the image and holds the same value, and
      both kernels' weights cancel. */
  lemma ConstantHasZeroGradients(m: Mat<int>, y: nat, x: nat, c: nat, v: int)
    requires IsImage(m) && 2 <= m.dims[0] && 2 <= m.dims[1] && y < m.dims[0] && x < m.dims[1] && c < m.dims[2]
    requires ChannelConstant(m, c, v)
    ensures GradX(m, y, x, c) == 0.0 && GradY(m, y, x, c) == 0.0
  {
    forall i: int, j: int | -1 <= i <= 1 && -1 <= j <= 1
      ensures P(m, y, x, c, i, j) == v as real
    {
      assert 0 <= Mirror(y + i, m.dims[0]) < m.dims[0];
      assert 0 <= Mirror(x + j, m.dims[1]) < m.dims[1];
    }
  }

  /** One gradient of `sobelXYGradients`: `convolute<uint8_t, double>` with
      the 1×3 row kernel, then `convolute<double>` of that buffer with the
      3×1 column kernel.  The row pass needs two columns and the column
      pass two rows, unless the image has no elements. */
  method Gradient(input: Mat<int>, rowElems: seq<real>, colElems: seq<real>) returns (r: Result<Mat<real>>)
    requires IsImage(input) && |rowElems| == 3 && |colElems| == 3
    ensures r.Ok? <==>
              input.dims[0] == 0 || input.dims[1] == 0 || input.dims[2] == 0 ||
              (2 <= input.dims[0] && 2 <= input.dims[1])
    ensures r.Err? ==> r.error == OutOfRange
    ensures r.Ok? ==> fresh(r.value) && IsImage(r.value) && r.value.dims == input.dims
    ensures r.Ok? ==> forall y: nat, x: nat, c: nat | y < input.dims[0] && x < input.dims[1] && c < input.dims[2] ::
              At3(r.value.elements, input.dims[0], input.dims[1], input.dims[2], y, x, c) ==
              SeparableAt(input, rowElems, colElems, y, x, c)
  {
    var h, w, ch := input.dims[0], input.dims[1], input.dims[2];
    var kr := KernelOf(1, 3, rowElems);
    var kc := KernelOf(3, 1, colElems);
    var buffer := Convolute(input, kr, IntToReal, RealId, 0.0);
    if buffer.Err? {
      return Err(buffer.error);
    }
    var out := Convolute(buffer.value, kc, RealId, RealId, 0.0);
    if out.Err? {
      return Err(out.error);
    }
    forall y: nat, x: nat, c: nat | y < h && x < w && c < ch
      ensures At3(out.value.elements, h, w, ch, y, x, c) == SeparableAt(input, rowElems, colElems, y, x, c)
    {
      Separable(input, kr, buffer.value, kc, y, x, c);
    }
    r := Ok(out.value);
  }

  /** `sobelXYGradients`: the X and Y gradients of every channel, each of
      the input's shape, computed by `Gradient` with the X kernels and then
      with the Y kernels. */
  method SobelXYGradients(input: Mat<int>) returns (r: Result<(Mat<real>, Mat<real>)>)
    requires IsImage(input)
    ensures r.Ok? <==>
              input.dims[0] == 0 || input.dims[1] == 0 || input.dims[2] == 0 ||
              (2 <= input.dims[0] && 2 <= input.dims[1])
    ensures r.Err? ==> r.error == OutOfRange
    ensures r.Ok? ==> IsImage(r.value.0) && r.value.0.dims == input.dims && fresh(r.value.0)
    ensures r.Ok? ==> IsImage(r.value.1) && r.value.1.dims == input.dims && fresh(r.value.1)
    ensures r.Ok? ==> forall y: nat, x: nat, c: nat | y < input.dims[0] && x < input.dims[1] && c < input.dims[2] ::
              At3(r.value.0.elements, input.dims[0], input.dims[1], input.dims[2], y, x, c) == GradX(input, y, x, c) &&
              At3(r.value.1.elements, input.dims[0], input.dims[1], input.dims[2], y, x, c) == GradY(input, y, x, c)
  {
    var h, w, ch := input.dims[0], input.dims[1], input.dims[2];
    var gx := Gradient(input, [1.0, 0.0, -1.0], [1.0, 2.0, 1.0]);
    if gx.Err? {
      return Err(gx.error);
    }
    var gy := Gradient(input, [1.0, 2.0, 1.0], [-1.0, 0.0, 1.0]);
    assert gy.Ok?;
    forall y: nat, x: nat, c: nat | y < h && x < w && c < ch
      ensures At3(gx.value.elements, h, w, ch, y, x, c) == GradX(input, y, x, c)
      ensures At3(gy.value.elements, h, w, ch, y, x, c) == GradY(input, y, x, c)
    {
      SobelXKernels(input, y, x, c);
      SobelYKernels(input, y, x, c);
    }
    r := Ok((gx.value, gy.value));
  }

  /** One magnitude cell: `min(unsigned(hypot(gx, gy)), 255)`.  The
      conversion to unsigned truncates the non-negative hypotenuse. */
  function Magnitude(hypot: (real, real) -> real, gx: real, gy: real): (v: int)
    requires 0.0 <= hypot(gx, gy)
    ensures 0 <= v <= 255
    ensures v == 255 <==> 255.0 <= hypot(gx, gy)
    ensures v < 255 ==> v as real <= hypot(gx, gy) < v as real + 1.0
  {
    var t := hypot(gx, gy).Floor;
    if t < 255 then t else 255
  }

  /** The inner loop of `sobel` for row y: cell (y, x, 0) gets the
      magnitude of the channel-0 gradients; no other row changes. */
  method MagnitudeRow(gx: Mat<real>, gy: Mat<real>, out: Mat<int>, y: nat, hypot: (real, real) -> real)
    requires IsImage(gx) && IsImage(gy) && gy.dims == gx.dims && (0 < gx.dims[1] ==> 0 < gx.dims[2])
    requires IsImage(out) && out.dims == [gx.dims[0], gx.dims[1], 1] && y < gx.dims[0]
    requires forall a: real, b: real :: 0.0 <= hypot(a, b)
    modifies out
    ensures IsImage(out)
    ensures forall x: nat | x < gx.dims[1] ::
              At3(out.elements, gx.dims[0], gx.dims[1], 1, y, x, 0) ==
              Magnitude(hypot, At3(gx.elements, gx.dims[0], gx.dims[1], gx.dims[2], y, x, 0),
                        At3(gy.elements, gx.dims[0], gx.dims[1], gx.dims[2], y, x, 0))
    ensures forall y': nat, x: nat | y' < gx.dims[0] && x < gx.dims[1] && y' != y ::
              At3(out.elements, gx.dims[0], gx.dims[1], 1, y', x, 0) == At3(old(out.elements), gx.dims[0], gx.dims[1], 1, y', x, 0)
  {
    var h, w, ch := gx.dims[0], gx.dims[1], gx.dims[2];
    var x := 0;
    while x < w
      invariant 0 <= x <= w && IsImage(out) && out.dims == [h, w, 1]
      invariant forall x': nat | x' < x ::
                  At3(out.elements, h, w, 1, y, x', 0) ==
                  Magnitude(hypot, At3(gx.elements, h, w, ch, y, x', 0), At3(gy.elements, h, w, ch, y, x', 0))
      invariant forall y': nat, x': nat | y' < h && x' < w && y' != y ::
                  At3(out.elements, h, w, 1, y', x', 0) == At3(old(out.elements), h, w, 1, y', x', 0)
    {
      var a := Get(gx, [y, x, 0]);
      var b := Get(gy, [y, x, 0]);
      Get3(gx, y, x, 0);
      Get3(gy, y, x, 0);
      var v := Magnitude(hypot, a.value, b.value);
      ghost var before := out.elements;
      Put3(out, y, x, 0, v);
      At3Update(before, h, w, 1, y, x, 0, v);
      forall x': nat | x' < x + 1
        ensures At3(out.elements, h, w, 1, y, x', 0) ==
                Magnitude(hypot, At3(gx.elements, h, w, ch, y, x', 0), At3(gy.elements, h, w, ch, y, x', 0))
      {
        if x' < x {
          assert At3(out.elements, h, w, 1, y, x', 0) == At3(before, h, w, 1, y, x', 0);
        }
      }
      forall y': nat, x': nat | y' < h && x' < w && y' != y
        ensures At3(out.elements, h, w, 1, y', x', 0) == At3(old(out.elements), h, w, 1, y', x', 0)
      {
        assert At3(out.elements, h, w, 1, y', x', 0) == At3(before, h, w, 1, y', x', 0);
      }
      x := x + 1;
    }
  }

  /** `sobel`: an H × W × 1 image whose cell (y, x) is the clamped magnitude
      of the channel-0 gradients at (y, x).  It raises out_of_range when a
      gradient pass does, or when the image has pixels but no channels (the
      gradient read of channel 0 then fails). */
  method SobelMagnitude(input: Mat<int>, hypot: (real, real) -> real) returns (r: Result<Mat<int>>)
    requires IsImage(input)
    requires forall a: real, b: real :: 0.0 <= hypot(a, b)
    ensures r.Ok? <==>
              input.dims[0] == 0 || input.dims[1] == 0 ||
              (0 < input.dims[2] && 2 <= input.dims[0] && 2 <= input.dims[1])
    ensures r.Err? ==> r.error == OutOfRange
    ensures r.Ok? ==> fresh(r.value) && IsImage(r.value) && r.value.dims == [input.dims[0], input.dims[1], 1]
    ensures r.Ok? ==> forall y: nat, x: nat | y < input.dims[0] && x < input.dims[1] ::
              0 < input.dims[2] &&
              At3(r.value.elements, input.dims[0], input.dims[1], 1, y, x, 0) ==
              Magnitude(hypot, GradX(input, y, x, 0), GradY(input, y, x, 0))
  {
    var h, w, ch := input.dims[0], input.dims[1], input.dims[2];
    var grads := SobelXYGradients(input);
    if grads.Err? {
      return Err(grads.error);
    }
    var (gx, gy) := grads.value;
    var out := new Mat<int>.Zeros([h, w, 1], 0);
    ImageShape(out);
    if 0 < h && 0 < w && ch == 0 {
      // The first read, gx[0][0][0], finds no element.
      Get3(gx, 0, 0, 0);
      var first := Get(gx, [0, 0, 0]);
      return Err(first.error);
    }
    var y := 0;
    while y < h
      modifies out
      invariant 0 <= y <= h && fresh(out) && IsImage(out) && out.dims == [h, w, 1]
      invariant forall y': nat, x': nat | y' < y && x' < w ::
                  0 < ch && At3(out.elements, h, w, 1, y', x', 0) == Magnitude(hypot, GradX(input, y', x', 0), GradY(input, y', x', 0))
    {
      ghost var before := out.elements;
      MagnitudeRow(gx, gy, out, y, hypot);
      forall y': nat, x': nat | y' < y + 1 && x' < w
        ensures 0 < ch && At3(out.elements, h, w, 1, y', x', 0) == Magnitude(hypot, GradX(input, y', x', 0), GradY(input, y', x', 0))
      {
        if y' < y {
          assert At3(out.elements, h, w, 1, y', x', 0) == At3(before, h, w, 1, y', x', 0);
        }
      }
      y := y + 1;
    }
    r := Ok(out);
  }
}
