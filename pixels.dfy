/** Interleaved-channel pixel addressing (pixels.hpp): a pixel is a
    position (x, y) in a buffer of rows, and channel i of it is element
    CHANNELS·x + i of row y.  The row-buffer images the older filters work
    on are addressed the same way. */
module Pixels {
  import opened Mats
  import opened Grids

  /** The rows a pixel points into: libpng's row pointers for the PNG
      pixel types, a vector of vectors for `DoublePixel`.  Pixels and
      images hold a reference to it, so writes through one are seen by all. */
  class Rows<T> {
    var rows: seq<seq<T>>

    constructor (init: seq<seq<T>>)
      ensures rows == init
    {
      rows := init;
    }
  }

  /** `PixelBase(rows, x, y)` with `CHANNELS == channels`. */
  datatype Pixel<T> = Pixel(buf: Rows<T>, channels: nat, x: nat, y: nat)
  {
    /** Where channel i of this pixel sits in its row. */
    function Slot(i: nat): nat
    {
      channels * x + i
    }

    /** Row y exists and reaches element `CHANNELS·x + i`. */
    predicate Reaches(i: nat)
      reads buf
    {
      y < |buf.rows| && Slot(i) < |buf.rows[y]|
    }

    /** All channels of the pixel lie within its row. */
    predicate Fits()
      reads buf
    {
      y < |buf.rows| && channels * x + channels <= |buf.rows[y]|
    }

    /** `get(i)`: no check that i < CHANNELS, a larger i reads the next
        pixel's slot; reading past the row is undefined, hence the
        precondition. */
    function Get(i: nat): (v: T)
      reads buf
      requires Reaches(i)
      ensures v in buf.rows[y]
    {
      buf.rows[y][Slot(i)]
    }

    /** `set(i, v)`: element `CHANNELS·x + i` of row y becomes v and nothing
        else in the buffer changes. */
    method Set(i: nat, v: T)
      requires Reaches(i)
      modifies buf
      ensures Reaches(i) && Get(i) == v
      ensures buf.rows == old(buf.rows)[y := old(buf.rows[y])[Slot(i) := v]]
    {
      buf.rows := buf.rows[y := buf.rows[y][Slot(i) := v]];
    }

    /** `val()`: the pixel's channel values, in channel order. */
    method Val() returns (vals: seq<T>)
      requires Fits()
      ensures |vals| == channels
      ensures forall i: nat | i < channels :: Reaches(i) && vals[i] == Get(i)
    {
      vals := [];
      var i := 0;
      while i < channels
        invariant 0 <= i <= channels && |vals| == i
        invariant forall j: nat | j < i :: Reaches(j) && vals[j] == Get(j)
      {
        vals := vals + [Get(i)];
        i := i + 1;
      }
    }

    /** `val(values)`: channel i becomes values[i] for every i, in turn;
        the rest of the buffer is unchanged. */
    method SetVal(values: seq<T>)
      requires Fits() && |values| == channels
      modifies buf
      ensures Fits()
      ensures forall i: nat | i < channels :: Reaches(i) && Get(i) == values[i]
      ensures |buf.rows| == |old(buf.rows)| && |buf.rows[y]| == |old(buf.rows[y])|
      ensures forall r | 0 <= r < |buf.rows| && r != y :: buf.rows[r] == old(buf.rows[r])
      ensures forall j | 0 <= j < |buf.rows[y]| && !(Slot(0) <= j < Slot(channels)) ::
                buf.rows[y][j] == old(buf.rows[y][j])
    {
      var i := 0;
      while i < channels
        invariant 0 <= i <= channels && Fits()
        invariant |buf.rows| == |old(buf.rows)| && |buf.rows[y]| == |old(buf.rows[y])|
        invariant forall j: nat | j < i :: Reaches(j) && Get(j) == values[j]
        invariant forall r | 0 <= r < |buf.rows| && r != y :: buf.rows[r] == old(buf.rows[r])
        invariant forall j | 0 <= j < |buf.rows[y]| && !(Slot(0) <= j < Slot(i)) ::
                    buf.rows[y][j] == old(buf.rows[y][j])
      {
        Set(i, values[i]);
        i := i + 1;
      }
    }

    /** `red()` of `PixelRGB8` (offset 0 of slot 3x) and of `PixelRGBA8`
        (offset 0 of slot 4x). */
    function Red(): (v: T)
      reads buf
      requires (channels == 3 || channels == 4) && Fits()
      ensures Reaches(0) && v == Get(0)
    {
      if channels == 3 then buf.rows[y][3 * x] else buf.rows[y][4 * x]
    }

    /** `green()`: offset 1. */
    function Green(): (v: T)
      reads buf
      requires (channels == 3 || channels == 4) && Fits()
      ensures Reaches(1) && v == Get(1)
    {
      if channels == 3 then buf.rows[y][3 * x + 1] else buf.rows[y][4 * x + 1]
    }

    /** `blue()`: offset 2. */
    function Blue(): (v: T)
      reads buf
      requires (channels == 3 || channels == 4) && Fits()
      ensures Reaches(2) && v == Get(2)
    {
      if channels == 3 then buf.rows[y][3 * x + 2] else buf.rows[y][4 * x + 2]
    }

    /** `alpha()` of `PixelRGBA8`: offset 3 of slot 4x. */
    function Alpha(): (v: T)
      reads buf
      requires channels == 4 && Fits()
      ensures Reaches(3) && v == Get(3)
    {
      buf.rows[y][4 * x + 3]
    }

    /** `DoublePixel::val()`: the single value at `rows[y][x]`. */
    function DoubleVal(): (v: T)
      reads buf
      requires channels == 1 && Fits()
      ensures Reaches(0) && v == Get(0)
    {
      buf.rows[y][x]
    }

    /** `DoublePixel::val(v)`: `rows[y][x]` becomes v. */
    method SetDoubleVal(v: T)
      requires channels == 1 && Fits()
      modifies buf
      ensures Fits() && DoubleVal() == v
      ensures buf.rows == old(buf.rows)[y := old(buf.rows[y])[x := v]]
    {
      buf.rows := buf.rows[y := buf.rows[y][x := v]];
    }
  }

  /** The channel setters `red(v)`, `green(v)`, `blue(v)` and `alpha(v)`
      write slot `3x + k` (RGB) or `4x + k` (RGBA): exactly `set(k, v)`. */
  lemma NamedChannelSlots<T>(p: Pixel<T>, k: nat)
    requires (p.channels == 3 && k < 3) || (p.channels == 4 && k < 4)
    ensures p.channels == 3 ==> p.Slot(k) == 3 * p.x + k
    ensures p.channels == 4 ==> p.Slot(k) == 4 * p.x + k
    ensures p.Slot(k) < p.Slot(p.channels)
  {
  }

  /** Two pixels of one row at different x occupy disjoint slots. */
  lemma SlotsDisjoint<T>(p: Pixel<T>, q: Pixel<T>, i: nat, j: nat)
    requires p.channels == q.channels && p.y == q.y && p.x != q.x
    requires i < p.channels && j < q.channels
    ensures p.Slot(i) != q.Slot(j)
  {
    if p.Slot(i) == q.Slot(j) {
      assert p.x * p.channels + i == q.x * p.channels + j;
      DigitsUnique(p.x, i, q.x, j, p.channels);
    }
  }

  /** `get(i)` does not check i against CHANNELS: channel CHANNELS + j of
      a pixel is channel j of the pixel to its right in the same row. */
  lemma GetPastChannels<T>(p: Pixel<T>, j: nat)
    requires p.Reaches(p.channels + j)
    ensures Pixel(p.buf, p.channels, p.x + 1, p.y).Reaches(j)
    ensures p.Get(p.channels + j) == Pixel(p.buf, p.channels, p.x + 1, p.y).Get(j)
  {
    assert p.channels * (p.x + 1) == p.channels * p.x + p.channels;
  }

  /** Every row holds w pixels of ch interleaved values. */
  predicate Rectangular<T>(rows: seq<seq<T>>, w: nat, ch: nat)
  {
    forall r | 0 <= r < |rows| :: |rows[r]| == w * ch
  }

  /** Channel c of pixel (y, x) of a rectangular row buffer. */
  function ValueIn<T>(rows: seq<seq<T>>, w: nat, ch: nat, y: nat, x: nat, c: nat): T
    requires Rectangular(rows, w, ch) && y < |rows| && x < w && c < ch
  {
    DigitBound(x, w, c, ch);
    rows[y][ch * x + c]
  }

  /** Writing channel c of pixel (y, x) changes that value and no other
      pixel's or channel's. */
  lemma ValueUpdate<T>(rows: seq<seq<T>>, w: nat, ch: nat, y: nat, x: nat, c: nat, v: T)
    requires Rectangular(rows, w, ch) && y < |rows| && x < w && c < ch
    ensures ch * x + c < |rows[y]|
    ensures Rectangular(rows[y := rows[y][ch * x + c := v]], w, ch)
    ensures ValueIn(rows[y := rows[y][ch * x + c := v]], w, ch, y, x, c) == v
    ensures forall y': nat, x': nat, c': nat | y' < |rows| && x' < w && c' < ch && (y' != y || x' != x || c' != c) ::
              ValueIn(rows[y := rows[y][ch * x + c := v]], w, ch, y', x', c') == ValueIn(rows, w, ch, y', x', c')
  {
    DigitBound(x, w, c, ch);
    var t := rows[y := rows[y][ch * x + c := v]];
    forall y': nat, x': nat, c': nat | y' < |rows| && x' < w && c' < ch && (y' != y || x' != x || c' != c)
      ensures ValueIn(t, w, ch, y', x', c') == ValueIn(rows, w, ch, y', x', c')
    {
      DigitBound(x', w, c', ch);
      if y' == y && x * ch + c == x' * ch + c' {
        DigitsUnique(x, c, x', c', ch);
      }
    }
  }

  /** A channel of another pixel of the same row lies outside the slots
      [ch·x, ch·x + ch) of pixel x. */
  lemma SlotOutside(x: nat, x': nat, c': nat, ch: nat)
    requires x != x' && c' < ch
    ensures !(ch * x <= ch * x' + c' < ch * x + ch)
  {
    if x' < x {
      MulLeq(x' + 1, x, ch);
      assert ch * (x' + 1) == ch * x' + ch;
    } else {
      MulLeq(x + 1, x', ch);
      assert ch * (x + 1) == ch * x + ch;
    }
  }

  /** What `val(values)` on pixel (y, x) of a rectangular buffer does, seen
      pixel by pixel: its channels take the values and every other pixel's
      channels keep theirs. */
  lemma SetValValues<T>(rows: seq<seq<T>>, rows': seq<seq<T>>, w: nat, ch: nat, y: nat, x: nat, values: seq<T>)
    requires Rectangular(rows, w, ch) && y < |rows| && x < w && |values| == ch
    requires |rows'| == |rows| && |rows'[y]| == |rows[y]|
    requires forall r | 0 <= r < |rows'| && r != y :: rows'[r] == rows[r]
    requires forall j | 0 <= j < |rows'[y]| && !(ch * x + 0 <= j < ch * x + ch) :: rows'[y][j] == rows[y][j]
    requires forall i: nat | i < ch :: ch * x + i < |rows'[y]| && rows'[y][ch * x + i] == values[i]
    ensures Rectangular(rows', w, ch)
    ensures forall c: nat | c < ch :: ValueIn(rows', w, ch, y, x, c) == values[c]
    ensures forall y': nat, x': nat, c': nat | y' < |rows| && x' < w && c' < ch && (y' != y || x' != x) ::
              ValueIn(rows', w, ch, y', x', c') == ValueIn(rows, w, ch, y', x', c')
  {
    forall y': nat, x': nat, c': nat | y' < |rows| && x' < w && c' < ch && (y' != y || x' != x)
      ensures ValueIn(rows', w, ch, y', x', c') == ValueIn(rows, w, ch, y', x', c')
    {
      DigitBound(x', w, c', ch);
      if y' == y {
        SlotOutside(x, x', c', ch);
      }
    }
  }

  /** A row-buffer image: `height` rows of `width` pixels of `channels`
      interleaved values each (the buffer libpng allocates). */
  datatype Img<T> = Img(buf: Rows<T>, width: nat, height: nat, channels: nat)
  {
    predicate Valid()
      reads buf
    {
      |buf.rows| == height && Rectangular(buf.rows, width, channels)
    }

    /** `img[y][x]`: the pixel at column x of row y. */
    function At(y: nat, x: nat): (p: Pixel<T>)
      requires Valid() && y < height && x < width
      reads buf
      ensures p.Fits() && p.channels == channels && p.x == x && p.y == y
      ensures forall c: nat | c < channels :: p.Reaches(c) && p.Get(c) == Value(y, x, c)
    {
      MulLeq(x + 1, width, channels);
      Pixel(buf, channels, x, y)
    }

    /** Channel c of pixel (y, x). */
    function Value(y: nat, x: nat, c: nat): T
      requires Valid() && y < height && x < width && c < channels
      reads buf
    {
      ValueIn(buf.rows, width, channels, y, x, c)
    }
  }
}
