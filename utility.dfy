/** Compass directions and the image map (utility.hpp).  Image rows grow
    downwards, so TOP has offset (0, -1).  Angles are radians measured
    anticlockwise from the x axis, as `atan2` returns them. */
module Utility {
  import opened Wrappers
  import opened Mats
  import opened Pixels

  datatype Direction = TopLeft | Top | TopRight | Right | BottomRight | Bottom | BottomLeft | Left

  /** `M_PI`. */
  const PI: real := 3.141592653589793

  function Abs(r: real): real
  {
    if r < 0.0 then -r else r
  }

  /** `findDirection`: the compass sector an angle falls in.  Each sector is
      a quarter of π wide around a multiple of π/4; a boundary on the upper
      half plane belongs to the sector anticlockwise of it, one on the lower
      half to the sector clockwise of it.  Exactly ±7π/8 matches no branch
      and reaches ASSERT_NOT_REACHED, a `logic_error`. */
  function FindDirection(radian: real): (r: Result<Direction>)
    ensures r.Err? <==> radian == 7.0 * PI / 8.0 || radian == -7.0 * PI / 8.0
    ensures r.Err? ==> r.error == LogicError
    ensures r.Ok? && r.value != Left ==> Centre(r.value) - PI / 8.0 <= radian <= Centre(r.value) + PI / 8.0
    ensures r.Ok? && r.value == Left ==> 7.0 * PI / 8.0 < Abs(radian)
  {
    if Abs(radian) < PI / 8.0 then Ok(Right)
    else if PI / 8.0 <= radian < 3.0 * PI / 8.0 then Ok(TopRight)
    else if 3.0 * PI / 8.0 <= radian < 5.0 * PI / 8.0 then Ok(Top)
    else if 5.0 * PI / 8.0 <= radian < 7.0 * PI / 8.0 then Ok(TopLeft)
    else if Abs(radian) > 7.0 * PI / 8.0 then Ok(Left)
    else if -3.0 * PI / 8.0 < radian <= -PI / 8.0 then Ok(BottomRight)
    else if -5.0 * PI / 8.0 < radian <= -3.0 * PI / 8.0 then Ok(Bottom)
    else if -7.0 * PI / 8.0 < radian <= -5.0 * PI / 8.0 then Ok(BottomLeft)
    else Err(LogicError)
  }

  /** The angle a direction points at (LEFT at π). */
  function Centre(d: Direction): real
  {
    match d
    case Right => 0.0
    case TopRight => PI / 4.0
    case Top => PI / 2.0
    case TopLeft => 3.0 * PI / 4.0
    case Left => PI
    case BottomRight => -PI / 4.0
    case Bottom => -PI / 2.0
    case BottomLeft => -3.0 * PI / 4.0
  }

  /** Strictly inside a sector, the angle maps to that sector's direction. */
  lemma NearCentre(radian: real, d: Direction)
    requires d != Left && Abs(radian - Centre(d)) < PI / 8.0
    ensures FindDirection(radian) == Ok(d)
  {
  }

  /** Every angle beyond 7π/8 either way is LEFT. */
  lemma FarLeft(radian: real)
    requires 7.0 * PI / 8.0 < Abs(radian)
    ensures FindDirection(radian) == Ok(Left)
  {
  }

  /** Mirroring a direction across the x axis. */
  function Flip(d: Direction): (e: Direction)
    ensures Offset(e) == (Offset(d).0, -Offset(d).1)
  {
    match d
    case TopLeft => BottomLeft
    case Top => Bottom
    case TopRight => BottomRight
    case Right => Right
    case BottomRight => TopRight
    case Bottom => Top
    case BottomLeft => TopLeft
    case Left => Left
  }

  /** The sectors are symmetric about the x axis, boundaries included:
      negating the angle mirrors the direction. */
  lemma FindDirectionMirror(radian: real)
    ensures FindDirection(-radian).Ok? == FindDirection(radian).Ok?
    ensures FindDirection(radian).Ok? ==> FindDirection(-radian).value == Flip(FindDirection(radian).value)
  {
  }

  /** The angles of the unit-test table. */
  lemma FindDirectionExamples()
    ensures FindDirection(0.0) == Ok(Right) && FindDirection(0.01) == Ok(Right)
    ensures FindDirection(PI) == Ok(Left) && FindDirection(-PI) == Ok(Left)
    ensures FindDirection(-PI / 2.0) == Ok(Bottom) && FindDirection(-PI / 2.0 + 0.01) == Ok(Bottom)
    ensures FindDirection(PI / 2.0) == Ok(Top) && FindDirection(PI / 2.0 - 0.01) == Ok(Top)
    ensures FindDirection(PI / 4.0) == Ok(TopRight) && FindDirection(-PI / 4.0) == Ok(BottomRight)
    ensures FindDirection(3.0 * PI / 4.0) == Ok(TopLeft) && FindDirection(-3.0 * PI / 4.0) == Ok(BottomLeft)
  {
  }

  /** `findOppositeDirection`. */
  function Opposite(d: Direction): (e: Direction)
    ensures e != d
    ensures Offset(e) == (-Offset(d).0, -Offset(d).1)
  {
    match d
    case TopLeft => BottomRight
    case BottomRight => TopLeft
    case Top => Bottom
    case Bottom => Top
    case Left => Right
    case Right => Left
    case TopRight => BottomLeft
    case BottomLeft => TopRight
  }

  /** Taking the opposite twice gives the direction back. */
  lemma OppositeInvolution(d: Direction)
    ensures Opposite(Opposite(d)) == d
  {
  }

  /** `findOrthogonalDirections`: the two directions at right angles to d,
      one the opposite of the other. */
  function Orthogonal(d: Direction): (p: (Direction, Direction))
    ensures p.1 == Opposite(p.0)
    ensures Dot(Offset(d), Offset(p.0)) == 0 && Dot(Offset(d), Offset(p.1)) == 0
  {
    match d
    case TopLeft => (TopRight, BottomLeft)
    case BottomRight => (TopRight, BottomLeft)
    case Top => (Right, Left)
    case Bottom => (Right, Left)
    case Left => (Top, Bottom)
    case Right => (Top, Bottom)
    case TopRight => (TopLeft, BottomRight)
    case BottomLeft => (TopLeft, BottomRight)
  }

  /** A direction and its opposite have the same orthogonal pair. */
  lemma OrthogonalOfOpposite(d: Direction)
    ensures Orthogonal(Opposite(d)) == Orthogonal(d)
  {
  }

  function Dot(a: (int, int), b: (int, int)): int
  {
    a.0 * b.0 + a.1 * b.1
  }

  /** `getOffset`: (dx, dy) of the neighbour in direction d.  The source
      returns the components as `size_t`, so -1 is stored as 2^64 - 1; see
      `SizeTSum` for why adding it to an index still steps back by one.
      The name gives the step: a top direction goes back one row, a bottom
      one forward one row, a left one back one column, a right one forward
      one column, and the other component stays. */
  function Offset(d: Direction): (o: (int, int))
    ensures o.1 == -1 <==> d in {TopLeft, Top, TopRight}
    ensures o.1 == 1 <==> d in {BottomLeft, Bottom, BottomRight}
    ensures o.1 == 0 <==> d in {Left, Right}
    ensures o.0 == -1 <==> d in {TopLeft, Left, BottomLeft}
    ensures o.0 == 1 <==> d in {TopRight, Right, BottomRight}
    ensures o.0 == 0 <==> d in {Top, Bottom}
  {
    match d
    case TopLeft => (-1, -1)
    case BottomRight => (1, 1)
    case Top => (0, -1)
    case Bottom => (0, 1)
    case Left => (-1, 0)
    case Right => (1, 0)
    case TopRight => (1, -1)
    case BottomLeft => (-1, 1)
  }

  /** The eight offsets are the eight cells around the origin: components in
      {-1, 0, 1}, never (0, 0), and no two directions share one. */
  lemma OffsetsDistinct(d: Direction, e: Direction)
    ensures -1 <= Offset(d).0 <= 1 && -1 <= Offset(d).1 <= 1
    ensures Offset(d) != (0, 0)
    ensures d != e ==> Offset(d) != Offset(e)
  {
  }

  const SIZE_T_RANGE: int := 0x1_0000_0000_0000_0000
  const UNSIGNED_RANGE: int := 0x1_0000_0000

  /** A signed offset stored in a `size_t`. */
  function SizeT(o: int): nat
    requires -SIZE_T_RANGE <= o < SIZE_T_RANGE
  {
    if o < 0 then o + SIZE_T_RANGE else o
  }

  /** `i + offset` computed in `size_t` and passed on as an `unsigned`
      index: when the true sum i + o is a valid unsigned value, both
      wrap-arounds cancel and the index is i + o. */
  lemma SizeTSum(i: nat, o: int)
    requires i < UNSIGNED_RANGE && -1 <= o <= 1 && 0 <= i + o < UNSIGNED_RANGE
    ensures (i + SizeT(o)) % SIZE_T_RANGE % UNSIGNED_RANGE == i + o
  {
    if o < 0 {
      assert i + SizeT(o) == (i + o) + SIZE_T_RANGE;
      assert (i + SizeT(o)) % SIZE_T_RANGE == i + o;
    }
  }

  /** The channel values of pixel (y, x) of a row-buffer image. */
  function PixelValues<T>(img: Img<T>, y: nat, x: nat): (v: seq<T>)
    reads img.buf
    requires img.Valid() && y < img.height && x < img.width
    ensures |v| == img.channels
    ensures forall c: nat | c < img.channels :: v[c] == img.Value(y, x, c)
  {
    var rows := img.buf.rows;
    seq(img.channels, c requires 0 <= c < img.channels => ValueIn(rows, img.width, img.channels, y, x, c))
  }

  /** `mapImage`: a new image of the same width and height whose pixel
      (y, x) holds `mapFunction` of the input pixel (y, x).  The map sees the
      pixel's channel values; the new buffer's initial contents are `blank`. */
  method MapImage<T, O>(img: Img<T>, mapFunction: seq<T> -> seq<O>, outChannels: nat, blank: O) returns (ret: Img<O>)
    requires img.Valid()
    requires forall v: seq<T> | |v| == img.channels :: |mapFunction(v)| == outChannels
    ensures fresh(ret.buf) && ret.Valid()
    ensures ret.width == img.width && ret.height == img.height && ret.channels == outChannels
    ensures forall y: nat, x: nat, c: nat | y < img.height && x < img.width && c < outChannels ::
              ret.Value(y, x, c) == mapFunction(PixelValues(img, y, x))[c]
  {
    var rows := new Rows(seq(img.height, _ => seq(img.width * outChannels, _ => blank)));
    ret := Img(rows, img.width, img.height, outChannels);
    var y := 0;
    while y < img.height
      invariant 0 <= y <= img.height && ret.Valid()
      invariant forall y': nat, x': nat, c': nat | y' < y && x' < img.width && c' < outChannels ::
                  ret.Value(y', x', c') == mapFunction(PixelValues(img, y', x'))[c']
    {
      var x := 0;
      while x < img.width
        invariant 0 <= x <= img.width && ret.Valid()
        invariant forall y': nat, x': nat, c': nat | y' < y && x' < img.width && c' < outChannels ::
                    ret.Value(y', x', c') == mapFunction(PixelValues(img, y', x'))[c']
        invariant forall x': nat, c': nat | x' < x && c' < outChannels ::
                    ret.Value(y, x', c') == mapFunction(PixelValues(img, y, x'))[c']
      {
        var values := img.At(y, x).Val();
        assert values == PixelValues(img, y, x);
        var mapped := mapFunction(values);
        ghost var before := rows.rows;
        ret.At(y, x).SetVal(mapped);
        SetValValues(before, rows.rows, img.width, outChannels, y, x, mapped);
        x := x + 1;
      }
      y := y + 1;
    }
  }
}
