/** The older row-buffer filters (filters.hpp): convolution of every channel
    of a row-buffer image with a fixed-size kernel (`Matrix<ROWS, COLS>`,
    here an `array2<real>`), written into a caller's buffer through pixel
    `set`.  `filterToBuffer` mirrors indices at the edges like `convolute`;
    the "unchecked" variant skips the pixels whose window would leave the
    image.  Raw row pointers and `std::array` do no bounds checks, so every
    read or write these loops make must be in range: that is the
    precondition of each method. */
module Filters {
  import opened Mats
  import opened Convolution
  import opened Pixels

  /** Channel c of pixel (a, b) as a real; 0 off the image. */
  function Sample<T>(img: Img<T>, f: T -> real, a: int, b: int, c: nat): real
    reads img.buf
    requires img.Valid()
  {
    if 0 <= a < img.height && 0 <= b < img.width && c < img.channels then f(img.Value(a, b, c)) else 0.0
  }

  /** Kernel cell (ky, kx); 0 off the kernel. */
  function Weight(k: array2<real>, ky: nat, kx: nat): real
    reads k
  {
    if ky < k.Length0 && kx < k.Length1 then k[ky, kx] else 0.0
  }

  /** The mirrored products of kernel row ky for output pixel (y, x), over
      the first n kernel columns. */
  function MirroredRow<T>(img: Img<T>, f: T -> real, k: array2<real>, y: nat, x: nat, c: nat, ky: nat, n: nat): real
    reads img.buf, k
    requires img.Valid()
  {
    if n == 0 then 0.0
    else
      MirroredRow(img, f, k, y, x, c, ky, n - 1) +
      Times(Sample(img, f, Mirror(y - k.Length0 / 2 + ky, img.height), Mirror(x - k.Length1 / 2 + (n - 1), img.width), c),
            Weight(k, ky, n - 1))
  }

  /** The mirrored window sum over the first n kernel rows. */
  function MirroredRows<T>(img: Img<T>, f: T -> real, k: array2<real>, y: nat, x: nat, c: nat, n: nat): real
    reads img.buf, k
    requires img.Valid()
  {
    if n == 0 then 0.0
    else MirroredRows(img, f, k, y, x, c, n - 1) + MirroredRow(img, f, k, y, x, c, n - 1, 2 * (k.Length1 / 2) + 1)
  }

  /** What `filterToBuffer` computes for channel c of pixel (y, x). */
  function MirroredAt<T>(img: Img<T>, f: T -> real, k: array2<real>, y: nat, x: nat, c: nat): real
    reads img.buf, k
    requires img.Valid()
  {
    MirroredRows(img, f, k, y, x, c, 2 * (k.Length0 / 2) + 1)
  }

  /** The unmirrored products of kernel row ky, over the first n columns. */
  function DirectRow<T>(img: Img<T>, f: T -> real, k: array2<real>, y: nat, x: nat, c: nat, ky: nat, n: nat): real
    reads img.buf, k
    requires img.Valid()
  {
    if n == 0 then 0.0
    else
      DirectRow(img, f, k, y, x, c, ky, n - 1) +
      Times(Sample(img, f, y - k.Length0 / 2 + ky, x - k.Length1 / 2 + (n - 1), c), Weight(k, ky, n - 1))
  }

  /** The unmirrored window sum over the first n kernel rows. */
  function DirectRows<T>(img: Img<T>, f: T -> real, k: array2<real>, y: nat, x: nat, c: nat, n: nat): real
    reads img.buf, k
    requires img.Valid()
  {
    if n == 0 then 0.0
    else DirectRows(img, f, k, y, x, c, n - 1) + DirectRow(img, f, k, y, x, c, n - 1, 2 * (k.Length1 / 2) + 1)
  }

  /** What `filterToBufferUnchecked` computes for channel c of pixel (y, x). */
  function DirectAt<T>(img: Img<T>, f: T -> real, k: array2<real>, y: nat, x: nat, c: nat): real
    reads img.buf, k
    requires img.Valid()
  {
    DirectRows(img, f, k, y, x, c, 2 * (k.Length0 / 2) + 1)
  }

  /** The `outOfBound` lambda: the window of pixel (x, y) would leave the
      image on some side. */
  predicate OutOfBound(w: nat, h: nat, halfRows: nat, halfCols: nat, x: nat, y: nat)
  {
    x < halfCols || y < halfRows || x + halfCols >= w || y + halfRows >= h
  }

  /** Away from the edges mirroring changes nothing: at every pixel the
      unchecked variant does not skip, its sum is the mirrored sum. */
  lemma {:induction false} DirectRowIsMirrored<T>(img: Img<T>, f: T -> real, k: array2<real>, y: nat, x: nat, c: nat, ky: nat, n: nat)
    requires img.Valid() && !OutOfBound(img.width, img.height, k.Length0 / 2, k.Length1 / 2, x, y)
    requires ky <= 2 * (k.Length0 / 2) && n <= 2 * (k.Length1 / 2) + 1
    ensures DirectRow(img, f, k, y, x, c, ky, n) == MirroredRow(img, f, k, y, x, c, ky, n)
  {
    if n > 0 {
      DirectRowIsMirrored(img, f, k, y, x, c, ky, n - 1);
      assert Mirror(y - k.Length0 / 2 + ky, img.height) == y - k.Length0 / 2 + ky;
      assert Mirror(x - k.Length1 / 2 + (n - 1), img.width) == x - k.Length1 / 2 + (n - 1);
    }
  }

  lemma {:induction false} DirectRowsAreMirrored<T>(img: Img<T>, f: T -> real, k: array2<real>, y: nat, x: nat, c: nat, n: nat)
    requires img.Valid() && !OutOfBound(img.width, img.height, k.Length0 / 2, k.Length1 / 2, x, y)
    requires n <= 2 * (k.Length0 / 2) + 1
    ensures DirectRows(img, f, k, y, x, c, n) == MirroredRows(img, f, k, y, x, c, n)
  {
    if n > 0 {
      DirectRowsAreMirrored(img, f, k, y, x, c, n - 1);
      DirectRowIsMirrored(img, f, k, y, x, c, n - 1, 2 * (k.Length1 / 2) + 1);
    }
  }

  lemma DirectIsMirrored<T>(img: Img<T>, f: T -> real, k: array2<real>, y: nat, x: nat, c: nat)
    requires img.Valid() && !OutOfBound(img.width, img.height, k.Length0 / 2, k.Length1 / 2, x, y)
    ensures DirectAt(img, f, k, y, x, c) == MirroredAt(img, f, k, y, x, c)
  {
    DirectRowsAreMirrored(img, f, k, y, x, c, 2 * (k.Length0 / 2) + 1);
  }

  /** The two inner loops of `filterToBuffer` for channel c of pixel
      (y, x): the mirrored window sum. */
  method MirroredWindow<T>(img: Img<T>, f: T -> real, k: array2<real>, y: nat, x: nat, c: nat) returns (sum: real)
    requires img.Valid() && y < img.height && x < img.width && c < img.channels
    requires WindowReadable(img.height, img.width, k.Length0, k.Length1, y, x)
    ensures sum == MirroredAt(img, f, k, y, x, c)
  {
    var hr, hc := k.Length0 / 2, k.Length1 / 2;
    sum := 0.0;
    var ky: nat := 0;
    while ky <= 2 * hr
      invariant ky <= 2 * hr + 1
      invariant sum == MirroredRows(img, f, k, y, x, c, ky)
    {
      var a := Mirror(y - hr + ky, img.height);
      ghost var start := sum;
      var kx: nat := 0;
      while kx <= 2 * hc
        invariant kx <= 2 * hc + 1
        invariant sum == start + MirroredRow(img, f, k, y, x, c, ky, kx)
      {
        var b := Mirror(x - hc + kx, img.width);
        var channelVal := f(img.At(a, b).Get(c));
        var kernalVal := k[ky, kx];
        assert Sample(img, f, a, b, c) == channelVal;
        sum := sum + Times(channelVal, kernalVal);
        kx := kx + 1;
      }
      ky := ky + 1;
    }
  }

  /** The two inner loops of `filterToBufferUnchecked` for a pixel it does
      not skip: the plain window sum. */
  method DirectWindow<T>(img: Img<T>, f: T -> real, k: array2<real>, y: nat, x: nat, c: nat) returns (sum: real)
    requires img.Valid() && y < img.height && x < img.width && c < img.channels
    requires !OutOfBound(img.width, img.height, k.Length0 / 2, k.Length1 / 2, x, y)
    requires 2 * (k.Length0 / 2) < k.Length0 && 2 * (k.Length1 / 2) < k.Length1
    ensures sum == DirectAt(img, f, k, y, x, c)
  {
    var hr, hc := k.Length0 / 2, k.Length1 / 2;
    sum := 0.0;
    var i: nat := y - hr;
    var ky: nat := 0;
    while i <= y + hr
      invariant ky == i - (y - hr) && i <= y + hr + 1
      invariant sum == DirectRows(img, f, k, y, x, c, ky)
    {
      ghost var start := sum;
      var j: nat := x - hc;
      var kx: nat := 0;
      while j <= x + hc
        invariant kx == j - (x - hc) && j <= x + hc + 1
        invariant sum == start + DirectRow(img, f, k, y, x, c, ky, kx)
      {
        var channelVal := f(img.At(i, j).Get(c));
        assert Sample(img, f, i, j, c) == channelVal;
        sum := sum + Times(channelVal, k[ky, kx]);
        j, kx := j + 1, kx + 1;
      }
      i, ky := i + 1, ky + 1;
    }
  }

  /** The channel loop of one pixel: `buffer[y][x].set(channel, sum)` for
      every channel of the input's pixel type; every other value of the
      buffer is unchanged. */
  method FilterPixel<T, O>(img: Img<T>, f: T -> real, k: array2<real>, buffer: Img<O>, g: real -> O,
                           y: nat, x: nat, mirrored: bool)
    requires img.Valid() && buffer.Valid() && (img.buf as object) != (buffer.buf as object)
    requires buffer.width == img.width && buffer.height == img.height && img.channels <= buffer.channels
    requires y < img.height && x < img.width
    requires mirrored ==> WindowReadable(img.height, img.width, k.Length0, k.Length1, y, x)
    requires !mirrored ==> !OutOfBound(img.width, img.height, k.Length0 / 2, k.Length1 / 2, x, y) &&
                           2 * (k.Length0 / 2) < k.Length0 && 2 * (k.Length1 / 2) < k.Length1
    modifies buffer.buf
    ensures buffer.Valid()
    ensures forall c: nat | c < img.channels ::
              buffer.Value(y, x, c) == g(if mirrored then MirroredAt(img, f, k, y, x, c) else DirectAt(img, f, k, y, x, c))
    ensures forall y': nat, x': nat, c': nat | y' < img.height && x' < img.width && c' < buffer.channels &&
                                               (y' != y || x' != x || img.channels <= c') ::
              buffer.Value(y', x', c') == old(buffer.Value(y', x', c'))
  {
    var c := 0;
    while c < img.channels
      invariant 0 <= c <= img.channels && buffer.Valid()
      invariant forall c': nat | c' < c :: buffer.Value(y, x, c') == Expected(img, f, k, g, y, x, c', mirrored)
      invariant forall y': nat, x': nat, c': nat | y' < img.height && x' < img.width && c' < buffer.channels &&
                                                   (y' != y || x' != x || c <= c') ::
                  buffer.Value(y', x', c') == old(buffer.Value(y', x', c'))
    {
      FilterChannel(img, f, k, buffer, g, y, x, c, mirrored);
      c := c + 1;
    }
  }

  /** The body of the channel loop: channel c of pixel (y, x) receives its
      converted window sum and nothing else in the buffer changes. */
  method FilterChannel<T, O>(img: Img<T>, f: T -> real, k: array2<real>, buffer: Img<O>, g: real -> O,
                             y: nat, x: nat, c: nat, mirrored: bool)
    requires img.Valid() && buffer.Valid() && (img.buf as object) != (buffer.buf as object)
    requires buffer.width == img.width && buffer.height == img.height && img.channels <= buffer.channels
    requires y < img.height && x < img.width && c < img.channels
    requires mirrored ==> WindowReadable(img.height, img.width, k.Length0, k.Length1, y, x)
    requires !mirrored ==> !OutOfBound(img.width, img.height, k.Length0 / 2, k.Length1 / 2, x, y) &&
                           2 * (k.Length0 / 2) < k.Length0 && 2 * (k.Length1 / 2) < k.Length1
    modifies buffer.buf
    ensures buffer.Valid()
    ensures buffer.Value(y, x, c) == Expected(img, f, k, g, y, x, c, mirrored)
    ensures forall y': nat, x': nat, c': nat | y' < img.height && x' < img.width && c' < buffer.channels &&
                                               (y' != y || x' != x || c' != c) ::
              buffer.Value(y', x', c') == old(buffer.Value(y', x', c'))
  {
    var sum;
    if mirrored {
      sum := MirroredWindow(img, f, k, y, x, c);
    } else {
      sum := DirectWindow(img, f, k, y, x, c);
    }
    ghost var before := buffer.buf.rows;
    ValueUpdate(before, buffer.width, buffer.channels, y, x, c, g(sum));
    buffer.At(y, x).Set(c, g(sum));
    assert buffer.buf.rows == before[y := before[y][buffer.channels * x + c := g(sum)]];
  }

  /** The value `filterToBuffer` (mirrored) or `filterToBufferUnchecked`
      stores in channel c of pixel (y, x). */
  function Expected<T, O>(img: Img<T>, f: T -> real, k: array2<real>, g: real -> O,
                          y: nat, x: nat, c: nat, mirrored: bool): O
    reads img.buf, k
    requires img.Valid()
  {
    g(if mirrored then MirroredAt(img, f, k, y, x, c) else DirectAt(img, f, k, y, x, c))
  }

  /** `filterToBuffer`: every channel of every pixel of the buffer, up to
      the input's channel count, receives the mirrored window sum converted
      by g; the buffer's further channels, if it has more, are unchanged.
      Every mirrored index must land on the image, and the kernel must have
      the rows and columns the window visits. */
  method FilterToBuffer<T, O>(img: Img<T>, k: array2<real>, buffer: Img<O>, f: T -> real, g: real -> O)
    requires img.Valid() && buffer.Valid() && (img.buf as object) != (buffer.buf as object)
    requires buffer.width == img.width && buffer.height == img.height && img.channels <= buffer.channels
    requires img.height == 0 || img.width == 0 || img.channels == 0 ||
             Convolvable(img.height, img.width, k.Length0, k.Length1)
    modifies buffer.buf
    ensures buffer.Valid()
    ensures forall y: nat, x: nat, c: nat | y < img.height && x < img.width && c < img.channels ::
              buffer.Value(y, x, c) == g(MirroredAt(img, f, k, y, x, c))
    ensures forall y: nat, x: nat, c: nat | y < img.height && x < img.width && img.channels <= c < buffer.channels ::
              buffer.Value(y, x, c) == old(buffer.Value(y, x, c))
  {
    var y := 0;
    while y < img.height
      invariant 0 <= y <= img.height && buffer.Valid()
      invariant forall y': nat, x': nat, c': nat | y' < y && x' < img.width && c' < img.channels ::
                  buffer.Value(y', x', c') == g(MirroredAt(img, f, k, y', x', c'))
      invariant forall y': nat, x': nat, c': nat | y' < img.height && x' < img.width && c' < buffer.channels &&
                                                   (y <= y' || img.channels <= c') ::
                  buffer.Value(y', x', c') == old(buffer.Value(y', x', c'))
    {
      var x := 0;
      while x < img.width
        invariant 0 <= x <= img.width && buffer.Valid()
        invariant forall y': nat, x': nat, c': nat | y' < y && x' < img.width && c' < img.channels ::
                    buffer.Value(y', x', c') == g(MirroredAt(img, f, k, y', x', c'))
        invariant forall x': nat, c': nat | x' < x && c' < img.channels ::
                    buffer.Value(y, x', c') == g(MirroredAt(img, f, k, y, x', c'))
        invariant forall y': nat, x': nat, c': nat | y' < img.height && x' < img.width && c' < buffer.channels &&
                                                     ((y < y' || (y == y' && x <= x')) || img.channels <= c') ::
                    buffer.Value(y', x', c') == old(buffer.Value(y', x', c'))
      {
        if 0 < img.channels {
          ReadableEverywhere(img.height, img.width, k.Length0, k.Length1, y, x);
          FilterPixel(img, f, k, buffer, g, y, x, true);
        }
        x := x + 1;
      }
      y := y + 1;
    }
  }

  /** `filter`: a new image of the input's shape, filled by
      `filterToBuffer`.  `initial` stands for the freshly allocated rows,
      whatever they hold: zeros for the vector-backed buffers, whatever was
      in memory for the libpng one. */
  method Filter<T>(img: Img<T>, k: array2<real>, f: T -> real, g: real -> T, initial: seq<seq<T>>) returns (out: Img<T>)
    requires img.Valid()
    requires |initial| == img.height && Rectangular(initial, img.width, img.channels)
    requires img.height == 0 || img.width == 0 || img.channels == 0 ||
             Convolvable(img.height, img.width, k.Length0, k.Length1)
    ensures fresh(out.buf) && out.Valid()
    ensures out.width == img.width && out.height == img.height && out.channels == img.channels
    ensures forall y: nat, x: nat, c: nat | y < img.height && x < img.width && c < img.channels ::
              out.Value(y, x, c) == g(MirroredAt(img, f, k, y, x, c))
  {
    var rows := new Rows(initial);
    out := Img(rows, img.width, img.height, img.channels);
    FilterToBuffer(img, k, out, f, g);
  }

  /** `filterToBufferUnchecked`: a pixel whose window would leave the
      image is skipped and keeps all its values; every channel of any
      other pixel receives the plain window sum, which there equals the
      mirrored one.  The kernel must be odd on both sides unless every
      pixel is skipped or there are no channels. */
  method FilterToBufferUnchecked<T, O>(img: Img<T>, k: array2<real>, buffer: Img<O>, f: T -> real, g: real -> O)
    requires img.Valid() && buffer.Valid() && (img.buf as object) != (buffer.buf as object)
    requires buffer.width == img.width && buffer.height == img.height && img.channels <= buffer.channels
    requires 2 * (k.Length0 / 2) < img.height && 2 * (k.Length1 / 2) < img.width && 0 < img.channels ==>
               2 * (k.Length0 / 2) < k.Length0 && 2 * (k.Length1 / 2) < k.Length1
    modifies buffer.buf
    ensures buffer.Valid()
    ensures forall y: nat, x: nat, c: nat | y < img.height && x < img.width && c < img.channels &&
                                            !OutOfBound(img.width, img.height, k.Length0 / 2, k.Length1 / 2, x, y) ::
              buffer.Value(y, x, c) == g(DirectAt(img, f, k, y, x, c)) &&
              buffer.Value(y, x, c) == g(MirroredAt(img, f, k, y, x, c))
    ensures forall y: nat, x: nat, c: nat | y < img.height && x < img.width && c < buffer.channels &&
                                            (OutOfBound(img.width, img.height, k.Length0 / 2, k.Length1 / 2, x, y) ||
                                             img.channels <= c) ::
              buffer.Value(y, x, c) == old(buffer.Value(y, x, c))
  {
    var hr, hc := k.Length0 / 2, k.Length1 / 2;
    var y := 0;
    while y < img.height
      invariant 0 <= y <= img.height && buffer.Valid()
      invariant forall y': nat, x': nat, c': nat | y' < y && x' < img.width && c' < img.channels &&
                                                   !OutOfBound(img.width, img.height, hr, hc, x', y') ::
                  buffer.Value(y', x', c') == g(DirectAt(img, f, k, y', x', c'))
      invariant forall y': nat, x': nat, c': nat | y' < img.height && x' < img.width && c' < buffer.channels &&
                                                   (y <= y' || OutOfBound(img.width, img.height, hr, hc, x', y') ||
                                                    img.channels <= c') ::
                  buffer.Value(y', x', c') == old(buffer.Value(y', x', c'))
    {
      var x := 0;
      while x < img.width
        invariant 0 <= x <= img.width && buffer.Valid()
        invariant forall y': nat, x': nat, c': nat | y' < y && x' < img.width && c' < img.channels &&
                                                     !OutOfBound(img.width, img.height, hr, hc, x', y') ::
                    buffer.Value(y', x', c') == g(DirectAt(img, f, k, y', x', c'))
        invariant forall x': nat, c': nat | x' < x && c' < img.channels && !OutOfBound(img.width, img.height, hr, hc, x', y) ::
                    buffer.Value(y, x', c') == g(DirectAt(img, f, k, y, x', c'))
        invariant forall y': nat, x': nat, c': nat | y' < img.height && x' < img.width && c' < buffer.channels &&
                                                     ((y < y' || (y == y' && x <= x')) ||
                                                      OutOfBound(img.width, img.height, hr, hc, x', y') ||
                                                      img.channels <= c') ::
                    buffer.Value(y', x', c') == old(buffer.Value(y', x', c'))
      {
        if !OutOfBound(img.width, img.height, hr, hc, x, y) && 0 < img.channels {
          FilterPixel(img, f, k, buffer, g, y, x, false);
        }
        x := x + 1;
      }
      y := y + 1;
    }
    forall y: nat, x: nat, c: nat | y < img.height && x < img.width && c < img.channels &&
                                    !OutOfBound(img.width, img.height, hr, hc, x, y)
      ensures DirectAt(img, f, k, y, x, c) == MirroredAt(img, f, k, y, x, c)
    {
      DirectIsMirrored(img, f, k, y, x, c);
    }
  }

  /** `filterUnchecked`: a new image of the input's shape filled by the
      unchecked variant.  `initial` stands for the freshly allocated rows,
      as in `Filter`; the skipped pixels keep what they hold. */
  method FilterUnchecked<T>(img: Img<T>, k: array2<real>, f: T -> real, g: real -> T, initial: seq<seq<T>>)
    returns (out: Img<T>)
    requires img.Valid()
    requires |initial| == img.height && Rectangular(initial, img.width, img.channels)
    requires 2 * (k.Length0 / 2) < img.height && 2 * (k.Length1 / 2) < img.width && 0 < img.channels ==>
               2 * (k.Length0 / 2) < k.Length0 && 2 * (k.Length1 / 2) < k.Length1
    ensures fresh(out.buf) && out.Valid()
    ensures out.width == img.width && out.height == img.height && out.channels == img.channels
    ensures forall y: nat, x: nat, c: nat | y < img.height && x < img.width && c < img.channels &&
                                            OutOfBound(img.width, img.height, k.Length0 / 2, k.Length1 / 2, x, y) ::
              out.Value(y, x, c) == ValueIn(initial, img.width, img.channels, y, x, c)
    ensures forall y: nat, x: nat, c: nat | y < img.height && x < img.width && c < img.channels &&
                                            !OutOfBound(img.width, img.height, k.Length0 / 2, k.Length1 / 2, x, y) ::
              out.Value(y, x, c) == g(MirroredAt(img, f, k, y, x, c))
  {
    var rows := new Rows(initial);
    out := Img(rows, img.width, img.height, img.channels);
    FilterToBufferUnchecked(img, k, out, f, g);
  }
}
