/** `convolute` (convolute.hpp): every channel of a rank-3 image convolved
    with a rank-2 kernel of reals, an index that falls off an edge of the
    image being mirrored back into it.  The element conversions on the way
    in (V to double) and out (double to O) are parameters. */
module Convolution {
  import opened Wrappers
  import opened Mats
  import opened Grids

  /** The `adjusted` lambda: an index past the last one, n - 1, is reflected
      about it, and any other index is replaced by its absolute value. */
  function Mirror(i: int, n: int): (r: int)
    ensures 0 <= i < n ==> r == i
    ensures i < 0 && 0 < n ==> r == -i
    ensures n - 1 < i ==> r == 2 * (n - 1) - i
  {
    if i > n - 1 then 2 * (n - 1) - i else if i < 0 then -i else i
  }

  /** For a non-empty axis the mirrored index lands on the axis exactly
      when the index lies within one axis length of it on either side. */
  lemma MirrorOnAxis(i: int, n: int)
    requires 1 <= n
    ensures 0 <= Mirror(i, n) < n <==> -(n - 1) <= i <= 2 * (n - 1)
  {
  }

  /** `input[a][b][c]` with the mirrored indices a and b.  The indices are
      ints converted to the unsigned index type, so a negative one becomes
      at least 2^31 and lands past any axis: out_of_range, like any index
      past its axis. */
  function ReadPixel<V>(m: Mat<V>, a: int, b: int, c: nat): (r: Result<V>)
    reads m
    requires IsImage(m)
    ensures r == if 0 <= a < m.dims[0] && 0 <= b < m.dims[1] && c < m.dims[2]
                 then Ok(At3(m.elements, m.dims[0], m.dims[1], m.dims[2], a, b, c))
                 else Err(OutOfRange)
  {
    if a < 0 || b < 0 then Err(OutOfRange)
    else
      Get3(m, a, b, c);
      Get(m, [a, b, c])
  }

  /** Channel c of pixel (a, b) as a real; 0 off the image (never used on
      a window that reads successfully). */
  function Sample<V>(m: Mat<V>, f: V -> real, a: int, b: int, c: nat): real
    reads m
    requires IsImage(m)
  {
    if 0 <= a < m.dims[0] && 0 <= b < m.dims[1] && c < m.dims[2]
    then f(At3(m.elements, m.dims[0], m.dims[1], m.dims[2], a, b, c))
    else 0.0
  }

  /** Kernel cell (ky, kx); 0 off the kernel. */
  function Weight(k: Mat<real>, ky: nat, kx: nat): real
    reads k
    requires IsGrid(k)
  {
    if ky < k.dims[0] && kx < k.dims[1] then At2(k.elements, k.dims[0], k.dims[1], ky, kx) else 0.0
  }

  /** `uint8_t` to `double`. */
  function IntToReal(v: int): real
  {
    v as real
  }

  /** `double` to `double`: the conversion of `convolute<double>`. */
  function RealId(v: real): real
  {
    v
  }

  /** `double` to an integer type: truncation toward zero, the conversion
      `convolute<uint8_t>` applies when it stores a sum. */
  function Truncate(v: real): (n: int)
    ensures 0.0 <= v ==> n as real <= v < n as real + 1.0
    ensures v < 0.0 ==> n as real - 1.0 < v <= n as real
  {
    if v >= 0.0 then v.Floor else -((-v).Floor)
  }

  /** One `channelVal * kernalVal` product of a window sum. */
  function Times(a: real, b: real): real
  {
    a * b
  }

  /** The products of kernel row ky with the mirrored image row it covers
      for output pixel (y, x), over the first n kernel columns. */
  function RowTerm<V>(m: Mat<V>, f: V -> real, k: Mat<real>, y: nat, x: nat, c: nat, ky: nat, n: nat): real
    reads m, k
    requires IsImage(m) && IsGrid(k)
  {
    if n == 0 then 0.0
    else
      RowTerm(m, f, k, y, x, c, ky, n - 1) +
      Times(Sample(m, f, Mirror(y - k.dims[0] / 2 + ky, m.dims[0]), Mirror(x - k.dims[1] / 2 + (n - 1), m.dims[1]), c),
            Weight(k, ky, n - 1))
  }

  /** The window sum of output pixel (y, x, c) over its first n kernel rows. */
  function WindowTerm<V>(m: Mat<V>, f: V -> real, k: Mat<real>, y: nat, x: nat, c: nat, n: nat): real
    reads m, k
    requires IsImage(m) && IsGrid(k)
  {
    if n == 0 then 0.0
    else WindowTerm(m, f, k, y, x, c, n - 1) + RowTerm(m, f, k, y, x, c, n - 1, 2 * (k.dims[1] / 2) + 1)
  }

  /** One more kernel row adds that row's term to the window sum. */
  lemma WindowTermNext<V>(m: Mat<V>, f: V -> real, k: Mat<real>, y: nat, x: nat, c: nat, n: nat)
    requires IsImage(m) && IsGrid(k)
    ensures WindowTerm(m, f, k, y, x, c, n + 1) ==
            WindowTerm(m, f, k, y, x, c, n) + RowTerm(m, f, k, y, x, c, n, 2 * (k.dims[1] / 2) + 1)
  {
  }

  /** The value computed for output pixel (y, x, c): the kernel's
      2⌊rows/2⌋ + 1 rows by 2⌊cols/2⌋ + 1 columns laid over the image
      centred on (y, x), mirrored at the edges. */
  function ConvAt<V>(m: Mat<V>, f: V -> real, k: Mat<real>, y: nat, x: nat, c: nat): real
    reads m, k
    requires IsImage(m) && IsGrid(k)
  {
    WindowTerm(m, f, k, y, x, c, 2 * (k.dims[0] / 2) + 1)
  }

  /** The range lo..hi is empty or lies within one axis length of an axis of
      length n on either side. */
  predicate Mirrors(lo: int, hi: int, n: int)
  {
    lo > hi || (1 <= n && -(n - 1) <= lo && hi <= 2 * (n - 1))
  }

  /** Mirrors says that every index of lo..hi mirrors onto the axis. */
  lemma MirrorsEvery(lo: int, hi: int, n: int)
    ensures Mirrors(lo, hi, n) <==> forall i | lo <= i <= hi :: 0 <= Mirror(i, n) < n
  {
    if lo <= hi && forall i | lo <= i <= hi :: 0 <= Mirror(i, n) < n {
      assert 0 <= Mirror(lo, n) < n && 0 <= Mirror(hi, n) < n;
      MirrorOnAxis(lo, n);
      MirrorOnAxis(hi, n);
    }
    if Mirrors(lo, hi, n) {
      forall i | lo <= i <= hi
        ensures 0 <= Mirror(i, n) < n
      {
        MirrorOnAxis(i, n);
      }
    }
  }

  /** Every read the window of output pixel (y, x) performs succeeds: the
      kernel has the rows and columns the loops visit, and every row and
      column they visit mirrors onto the image. */
  predicate WindowReadable(h: nat, w: nat, rows: nat, cols: nat, y: nat, x: nat)
  {
    2 * (rows / 2) < rows && 2 * (cols / 2) < cols &&
    Mirrors(y - rows / 2, y + rows / 2, h) && Mirrors(x - cols / 2, x + cols / 2, w)
  }

  /** The condition under which convolution of a non-empty image succeeds:
      odd kernel sides, each half-side shorter than the image side. */
  predicate Convolvable(h: nat, w: nat, rows: nat, cols: nat)
  {
    rows % 2 == 1 && cols % 2 == 1 && rows / 2 < h && cols / 2 < w
  }

  /** A convolvable shape makes every window readable. */
  lemma ReadableEverywhere(h: nat, w: nat, rows: nat, cols: nat, y: nat, x: nat)
    requires Convolvable(h, w, rows, cols) && y < h && x < w
    ensures WindowReadable(h, w, rows, cols, y, x)
  {
  }

  /** Conversely, if the first window of a non-empty image is readable the
      shape is convolvable. */
  lemma ReadableAtOrigin(h: nat, w: nat, rows: nat, cols: nat)
    requires 0 < h && 0 < w && WindowReadable(h, w, rows, cols, 0, 0)
    ensures Convolvable(h, w, rows, cols)
  {
  }

  /** One product of the inner loop: the image cell under kernel cell
      (ky, kx), mirrored, times that kernel cell; it is the next term of the
      row sum.  Out_of_range from whichever read fails first. */
  method KernelTerm<V>(m: Mat<V>, f: V -> real, k: Mat<real>, y: nat, x: nat, c: nat, ky: nat, kx: nat)
    returns (r: Result<real>)
    requires IsImage(m) && IsGrid(k) && c < m.dims[2]
    ensures r.Ok? <==>
              0 <= Mirror(y - k.dims[0] / 2 + ky, m.dims[0]) < m.dims[0] &&
              0 <= Mirror(x - k.dims[1] / 2 + kx, m.dims[1]) < m.dims[1] && ky < k.dims[0] && kx < k.dims[1]
    ensures r.Err? ==> r.error == OutOfRange
    ensures r.Ok? ==> RowTerm(m, f, k, y, x, c, ky, kx + 1) == RowTerm(m, f, k, y, x, c, ky, kx) + r.value
  {
    var a := Mirror(y - k.dims[0] / 2 + ky, m.dims[0]);
    var b := Mirror(x - k.dims[1] / 2 + kx, m.dims[1]);
    var px := ReadPixel(m, a, b, c);
    if px.Err? {
      return Err(px.error);
    }
    var kv := Get(k, [ky, kx]);
    Get2(k, ky, kx);
    if kv.Err? {
      return Err(kv.error);
    }
    r := Ok(Times(f(px.value), kv.value));
  }

  /** One pass of the inner loop: kernel row ky against the mirrored image
      row y - ⌊rows/2⌋ + ky, added to sum.  It fails with out_of_range at
      the first read that does. */
  method KernelRow<V>(m: Mat<V>, f: V -> real, k: Mat<real>, y: nat, x: nat, c: nat, ky: nat, sum: real)
    returns (r: Result<real>)
    requires IsImage(m) && IsGrid(k) && y < m.dims[0] && x < m.dims[1] && c < m.dims[2]
    ensures r.Ok? <==>
              0 <= Mirror(y - k.dims[0] / 2 + ky, m.dims[0]) < m.dims[0] && ky < k.dims[0] &&
              2 * (k.dims[1] / 2) < k.dims[1] && Mirrors(x - k.dims[1] / 2, x + k.dims[1] / 2, m.dims[1])
    ensures r.Err? ==> r.error == OutOfRange
    ensures r.Ok? ==> r.value == sum + RowTerm(m, f, k, y, x, c, ky, 2 * (k.dims[1] / 2) + 1)
  {
    var h, w := m.dims[0], m.dims[1];
    var hc := k.dims[1] / 2;
    var a := Mirror(y - k.dims[0] / 2 + ky, h);
    var s := sum;
    var kx: nat := 0;
    while kx <= 2 * hc
      invariant kx <= 2 * hc + 1
      invariant 0 < kx ==> 0 <= a < h && ky < k.dims[0] && kx <= k.dims[1]
      invariant 0 < kx ==> 1 <= w && Mirrors(x - hc, x - hc + kx - 1, w)
      invariant s == sum + RowTerm(m, f, k, y, x, c, ky, kx)
    {
      var j := x - hc + kx;
      var term := KernelTerm(m, f, k, y, x, c, ky, kx);
      if term.Err? {
        if 1 <= w {
          MirrorOnAxis(j, w);
        }
        return term;
      }
      MirrorOnAxis(j, w);
      s := s + term.value;
      kx := kx + 1;
    }
    r := Ok(s);
  }

  /** The two inner loops for output pixel (y, x, c): the window sum, or
      out_of_range exactly when some read of the window fails. */
  method WindowSum<V>(m: Mat<V>, f: V -> real, k: Mat<real>, y: nat, x: nat, c: nat) returns (r: Result<real>)
    requires IsImage(m) && IsGrid(k) && y < m.dims[0] && x < m.dims[1] && c < m.dims[2]
    ensures r.Ok? <==> WindowReadable(m.dims[0], m.dims[1], k.dims[0], k.dims[1], y, x)
    ensures r.Err? ==> r.error == OutOfRange
    ensures r.Ok? ==> r.value == ConvAt(m, f, k, y, x, c)
  {
    var h, w := m.dims[0], m.dims[1];
    var hr, hc := k.dims[0] / 2, k.dims[1] / 2;
    var s := 0.0;
    var i := y - hr;
    var ky: nat := 0;
    while i <= y + hr
      invariant y - hr <= i <= y + hr + 1 && ky == i - (y - hr)
      invariant Mirrors(y - hr, i - 1, h)
      invariant 0 < ky ==> ky <= k.dims[0] && 2 * hc < k.dims[1] && Mirrors(x - hc, x + hc, w)
      invariant s == WindowTerm(m, f, k, y, x, c, ky)
      decreases y + hr + 1 - i
    {
      var row := KernelRow(m, f, k, y, x, c, ky, s);
      MirrorOnAxis(i, h);
      if row.Err? {
        return row;
      }
      WindowTermNext(m, f, k, y, x, c, ky);
      s := row.value;
      i, ky := i + 1, ky + 1;
    }
    r := Ok(s);
  }

  /** The channel loop of output pixel (y, x): each channel c receives the
      converted window sum, and no other cell changes. */
  method ConvolvePixel<V, O>(m: Mat<V>, f: V -> real, k: Mat<real>, g: real -> O, out: Mat<O>, y: nat, x: nat)
    returns (o: Outcome)
    requires IsImage(m) && IsGrid(k) && IsImage(out) && out.dims == m.dims
    requires (m as object) != (out as object) && (k as object) != (out as object)
    requires y < m.dims[0] && x < m.dims[1]
    modifies out
    ensures IsImage(out)
    ensures o.Fail? ==> o.error == OutOfRange && 0 < m.dims[2]
    ensures o.Fail? ==> !WindowReadable(m.dims[0], m.dims[1], k.dims[0], k.dims[1], y, x)
    ensures o.Pass? && 0 < m.dims[2] ==> WindowReadable(m.dims[0], m.dims[1], k.dims[0], k.dims[1], y, x)
    ensures o.Pass? ==> forall c: nat | c < m.dims[2] ::
              At3(out.elements, m.dims[0], m.dims[1], m.dims[2], y, x, c) == g(ConvAt(m, f, k, y, x, c))
    ensures forall y': nat, x': nat, c': nat | y' < m.dims[0] && x' < m.dims[1] && c' < m.dims[2] && (y' != y || x' != x) ::
              At3(out.elements, m.dims[0], m.dims[1], m.dims[2], y', x', c') ==
              At3(old(out.elements), m.dims[0], m.dims[1], m.dims[2], y', x', c')
  {
    var h, w, ch := m.dims[0], m.dims[1], m.dims[2];
    var c := 0;
    while c < ch
      invariant 0 <= c <= ch
      invariant IsImage(out) && out.dims == [h, w, ch]
      invariant 0 < c ==> WindowReadable(h, w, k.dims[0], k.dims[1], y, x)
      invariant forall c': nat | c' < c :: At3(out.elements, h, w, ch, y, x, c') == g(ConvAt(m, f, k, y, x, c'))
      invariant forall y': nat, x': nat, c': nat | y' < h && x' < w && c' < ch && (y' != y || x' != x) ::
                  At3(out.elements, h, w, ch, y', x', c') == At3(old(out.elements), h, w, ch, y', x', c')
    {
      var sum := WindowSum(m, f, k, y, x, c);
      if sum.Err? {
        return Fail(sum.error);
      }
      ghost var before := out.elements;
      Put3(out, y, x, c, g(sum.value));
      At3Update(before, h, w, ch, y, x, c, g(sum.value));
      forall c': nat | c' < c + 1
        ensures At3(out.elements, h, w, ch, y, x, c') == g(ConvAt(m, f, k, y, x, c'))
      {
        if c' < c {
          assert At3(out.elements, h, w, ch, y, x, c') == At3(before, h, w, ch, y, x, c');
        }
      }
      forall y': nat, x': nat, c': nat | y' < h && x' < w && c' < ch && (y' != y || x' != x)
        ensures At3(out.elements, h, w, ch, y', x', c') == At3(old(out.elements), h, w, ch, y', x', c')
      {
        assert At3(out.elements, h, w, ch, y', x', c') == At3(before, h, w, ch, y', x', c');
      }
      c := c + 1;
    }
    o := Pass;
  }

  /** The column loop of output row y: every pixel of row y receives its
      window sums, and no other row changes. */
  method ConvolveRow<V, O>(m: Mat<V>, f: V -> real, k: Mat<real>, g: real -> O, out: Mat<O>, y: nat)
    returns (o: Outcome)
    requires IsImage(m) && IsGrid(k) && IsImage(out) && out.dims == m.dims
    requires (m as object) != (out as object) && (k as object) != (out as object)
    requires y < m.dims[0]
    modifies out
    ensures IsImage(out)
    ensures o.Fail? ==> o.error == OutOfRange && 0 < m.dims[1] && 0 < m.dims[2]
    ensures o.Fail? ==> !Convolvable(m.dims[0], m.dims[1], k.dims[0], k.dims[1])
    ensures o.Pass? && 0 < m.dims[1] && 0 < m.dims[2] ==>
              WindowReadable(m.dims[0], m.dims[1], k.dims[0], k.dims[1], y, 0)
    ensures o.Pass? ==> forall x: nat, c: nat | x < m.dims[1] && c < m.dims[2] ::
              At3(out.elements, m.dims[0], m.dims[1], m.dims[2], y, x, c) == g(ConvAt(m, f, k, y, x, c))
    ensures forall y': nat, x': nat, c': nat | y' < m.dims[0] && x' < m.dims[1] && c' < m.dims[2] && y' != y ::
              At3(out.elements, m.dims[0], m.dims[1], m.dims[2], y', x', c') ==
              At3(old(out.elements), m.dims[0], m.dims[1], m.dims[2], y', x', c')
  {
    var h, w, ch := m.dims[0], m.dims[1], m.dims[2];
    var x := 0;
    while x < w
      invariant 0 <= x <= w
      invariant IsImage(out) && out.dims == [h, w, ch]
      invariant 0 < x && 0 < ch ==> WindowReadable(h, w, k.dims[0], k.dims[1], y, 0)
      invariant forall x': nat, c': nat | x' < x && c' < ch ::
                  At3(out.elements, h, w, ch, y, x', c') == g(ConvAt(m, f, k, y, x', c'))
      invariant forall y': nat, x': nat, c': nat | y' < h && x' < w && c' < ch && y' != y ::
                  At3(out.elements, h, w, ch, y', x', c') == At3(old(out.elements), h, w, ch, y', x', c')
    {
      ghost var before := out.elements;
      var p := ConvolvePixel(m, f, k, g, out, y, x);
      if p.Fail? {
        if Convolvable(h, w, k.dims[0], k.dims[1]) {
          ReadableEverywhere(h, w, k.dims[0], k.dims[1], y, x);
        }
        return p;
      }
      forall x': nat, c': nat | x' < x + 1 && c' < ch
        ensures At3(out.elements, h, w, ch, y, x', c') == g(ConvAt(m, f, k, y, x', c'))
      {
        if x' < x {
          assert At3(out.elements, h, w, ch, y, x', c') == At3(before, h, w, ch, y, x', c');
        }
      }
      forall y': nat, x': nat, c': nat | y' < h && x' < w && c' < ch && y' != y
        ensures At3(out.elements, h, w, ch, y', x', c') == At3(old(out.elements), h, w, ch, y', x', c')
      {
        assert At3(out.elements, h, w, ch, y', x', c') == At3(before, h, w, ch, y', x', c');
      }
      x := x + 1;
    }
    o := Pass;
  }

  /** `convolute<V, O>(input, kernal)`.  The output has the input's shape;
      channel c of output pixel (y, x) is the window sum converted by g.  On
      an image with at least one element the call raises out_of_range
      exactly when the kernel has an even side or a half-side at least as
      long as the image side; an empty image always succeeds.  `zero` is
      the value the output is created with. */
  method Convolute<V, O>(m: Mat<V>, k: Mat<real>, f: V -> real, g: real -> O, zero: O) returns (r: Result<Mat<O>>)
    requires IsImage(m) && IsGrid(k)
    ensures r.Ok? <==>
              m.dims[0] == 0 || m.dims[1] == 0 || m.dims[2] == 0 ||
              Convolvable(m.dims[0], m.dims[1], k.dims[0], k.dims[1])
    ensures r.Err? ==> r.error == OutOfRange
    ensures r.Ok? ==> fresh(r.value) && IsImage(r.value) && r.value.dims == m.dims
    ensures r.Ok? ==> forall y: nat, x: nat, c: nat | y < m.dims[0] && x < m.dims[1] && c < m.dims[2] ::
              At3(r.value.elements, m.dims[0], m.dims[1], m.dims[2], y, x, c) == g(ConvAt(m, f, k, y, x, c))
  {
    var h, w, ch := m.dims[0], m.dims[1], m.dims[2];
    var out := new Mat<O>.Zeros([h, w, ch], zero);
    ImageShape(out);
    assert m.dims == [h, w, ch];
    var y := 0;
    while y < h
      invariant 0 <= y <= h
      invariant fresh(out) && IsImage(out) && out.dims == [h, w, ch]
      invariant 0 < y && 0 < w && 0 < ch ==> WindowReadable(h, w, k.dims[0], k.dims[1], 0, 0)
      invariant forall y': nat, x': nat, c': nat | y' < y && x' < w && c' < ch ::
                  At3(out.elements, h, w, ch, y', x', c') == g(ConvAt(m, f, k, y', x', c'))
    {
      ghost var before := out.elements;
      var o := ConvolveRow(m, f, k, g, out, y);
      if o.Fail? {
        return Err(o.error);
      }
      forall y': nat, x': nat, c': nat | y' < y + 1 && x' < w && c' < ch
        ensures At3(out.elements, h, w, ch, y', x', c') == g(ConvAt(m, f, k, y', x', c'))
      {
        if y' < y {
          assert At3(out.elements, h, w, ch, y', x', c') == At3(before, h, w, ch, y', x', c');
        }
      }
      y := y + 1;
    }
    if 0 < h && 0 < w && 0 < ch {
      ReadableAtOrigin(h, w, k.dims[0], k.dims[1]);
    }
    r := Ok(out);
  }

  /** A kernel `Mat<double>` of the given shape built from a brace list
      of its elements in row-major order. */
  method KernelOf(rows: nat, cols: nat, elems: seq<real>) returns (k: Mat<real>)
    requires |elems| == rows * cols
    ensures fresh(k) && IsGrid(k) && k.dims == [rows, cols] && k.elements == elems
  {
    k := new Mat<real>.FromElements([rows, cols], elems);
    Shape2(rows, cols);
  }

  /** The weights of kernel row ky over its first n columns. */
  function RowWeight(k: Mat<real>, ky: nat, n: nat): real
    reads k
    requires IsGrid(k)
  {
    if n == 0 then 0.0 else RowWeight(k, ky, n - 1) + Weight(k, ky, n - 1)
  }

  /** The weights of the first n kernel rows, over the columns a window
      visits. */
  function KernelWeight(k: Mat<real>, n: nat): real
    reads k
    requires IsGrid(k)
  {
    if n == 0 then 0.0 else KernelWeight(k, n - 1) + RowWeight(k, n - 1, 2 * (k.dims[1] / 2) + 1)
  }

  /** Channel c holds v at every pixel. */
  ghost predicate ChannelConstant<V>(m: Mat<V>, c: nat, v: V)
    reads m
    requires IsImage(m)
  {
    forall y: nat, x: nat | y < m.dims[0] && x < m.dims[1] && c < m.dims[2] ::
      At3(m.elements, m.dims[0], m.dims[1], m.dims[2], y, x, c) == v
  }

  lemma TimesAdd(a: real, b: real, d: real)
    ensures Times(a, b + d) == Times(a, b) + Times(a, d)
  {
  }

  lemma {:induction false} ConstantRow<V>(m: Mat<V>, f: V -> real, k: Mat<real>, y: nat, x: nat, c: nat, ky: nat, n: nat, v: V)
    requires IsImage(m) && IsGrid(k) && y < m.dims[0] && x < m.dims[1] && c < m.dims[2]
    requires WindowReadable(m.dims[0], m.dims[1], k.dims[0], k.dims[1], y, x)
    requires ky <= 2 * (k.dims[0] / 2) && n <= 2 * (k.dims[1] / 2) + 1
    requires ChannelConstant(m, c, v)
    ensures RowTerm(m, f, k, y, x, c, ky, n) == Times(f(v), RowWeight(k, ky, n))
  {
    if n > 0 {
      ConstantRow(m, f, k, y, x, c, ky, n - 1, v);
      var a := Mirror(y - k.dims[0] / 2 + ky, m.dims[0]);
      var b := Mirror(x - k.dims[1] / 2 + (n - 1), m.dims[1]);
      assert 0 <= a < m.dims[0] && 0 <= b < m.dims[1];
      assert Sample(m, f, a, b, c) == f(v);
      TimesAdd(f(v), RowWeight(k, ky, n - 1), Weight(k, ky, n - 1));
    }
  }

  lemma {:induction false} ConstantRows<V>(m: Mat<V>, f: V -> real, k: Mat<real>, y: nat, x: nat, c: nat, n: nat, v: V)
    requires IsImage(m) && IsGrid(k) && y < m.dims[0] && x < m.dims[1] && c < m.dims[2]
    requires WindowReadable(m.dims[0], m.dims[1], k.dims[0], k.dims[1], y, x)
    requires n <= 2 * (k.dims[0] / 2) + 1
    requires ChannelConstant(m, c, v)
    ensures WindowTerm(m, f, k, y, x, c, n) == Times(f(v), KernelWeight(k, n))
  {
    if n > 0 {
      ConstantRows(m, f, k, y, x, c, n - 1, v);
      ConstantRow(m, f, k, y, x, c, n - 1, 2 * (k.dims[1] / 2) + 1, v);
      TimesAdd(f(v), KernelWeight(k, n - 1), RowWeight(k, n - 1, 2 * (k.dims[1] / 2) + 1));
    }
  }

  /** On a channel holding one value everywhere, every readable window sum
      is that value times the sum of the kernel's weights: mirroring never
      brings in anything else. */
  lemma ConstantChannel<V>(m: Mat<V>, f: V -> real, k: Mat<real>, y: nat, x: nat, c: nat, v: V)
    requires IsImage(m) && IsGrid(k) && y < m.dims[0] && x < m.dims[1] && c < m.dims[2]
    requires WindowReadable(m.dims[0], m.dims[1], k.dims[0], k.dims[1], y, x)
    requires ChannelConstant(m, c, v)
    ensures ConvAt(m, f, k, y, x, c) == Times(f(v), KernelWeight(k, 2 * (k.dims[0] / 2) + 1))
  {
    ConstantRows(m, f, k, y, x, c, 2 * (k.dims[0] / 2) + 1, v);
  }

  /** A 1×1 kernel holding 1 reproduces the image. */
  lemma UnitKernel<V>(m: Mat<V>, f: V -> real, k: Mat<real>, y: nat, x: nat, c: nat)
    requires IsImage(m) && IsGrid(k) && y < m.dims[0] && x < m.dims[1] && c < m.dims[2]
    requires k.dims == [1, 1] && At2(k.elements, 1, 1, 0, 0) == 1.0
    ensures ConvAt(m, f, k, y, x, c) == f(At3(m.elements, m.dims[0], m.dims[1], m.dims[2], y, x, c))
  {
    assert WindowTerm(m, f, k, y, x, c, 1) == RowTerm(m, f, k, y, x, c, 0, 1);
    assert RowTerm(m, f, k, y, x, c, 0, 1) ==
             Times(Sample(m, f, Mirror(y, m.dims[0]), Mirror(x, m.dims[1]), c), Weight(k, 0, 0));
  }
}
