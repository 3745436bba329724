/** Row-major pixel positions in rank-2 (height × width) and rank-3
    (height × width × channels) Mats, and the bridge from a full cursor chain
    `m[y][x]` / `m[y][x][c]` to those positions.  The image algorithms read
    and write pixels through these. */
module Grids {
  import opened Wrappers
  import opened Mats

  /** Position of (y, x) in a grid of width w: x past the start of row y,
      each row being w cells long.  It is written as repeated addition so that
      the solver sees no product unless a proof asks for one
      (`Idx2Closed`). */
  function Idx2(w: nat, y: nat, x: nat): nat
  {
    if y == 0 then x else Idx2(w, y - 1, x) + w
  }

  /** Position of channel c of pixel (y, x) in an image of width w with ch
      channels: pixels are blocks of ch consecutive elements. */
  function Idx3(w: nat, ch: nat, y: nat, x: nat, c: nat): nat
  {
    Idx2(ch, Idx2(w, y, x), c)
  }

  lemma {:induction false} Idx2Closed(w: nat, y: nat, x: nat)
    ensures Idx2(w, y, x) == y * w + x
  {
    if y > 0 {
      Idx2Closed(w, y - 1, x);
    }
  }

  /** Quotient and remainder are unique. */
  lemma DigitsUnique(q: nat, r: nat, q': nat, r': nat, d: nat)
    requires r < d && r' < d && q * d + r == q' * d + r'
    ensures q == q' && r == r'
  {
    if q < q' {
      MulLeq(q + 1, q', d);
    } else if q' < q {
      MulLeq(q' + 1, q, d);
    }
  }

  lemma Idx2Bound(h: nat, w: nat, y: nat, x: nat)
    requires y < h && x < w
    ensures Idx2(w, y, x) < h * w
  {
    Idx2Closed(w, y, x);
    DigitBound(y, h, x, w);
  }

  lemma Idx3Bound(h: nat, w: nat, ch: nat, y: nat, x: nat, c: nat)
    requires y < h && x < w && c < ch
    ensures Idx3(w, ch, y, x, c) < h * w * ch
  {
    Idx2Bound(h, w, y, x);
    Idx2Bound(h * w, ch, Idx2(w, y, x), c);
  }

  /** Distinct in-range cells have distinct positions. */
  lemma Idx2Injective(w: nat, y: nat, x: nat, y': nat, x': nat)
    requires x < w && x' < w
    ensures Idx2(w, y, x) == Idx2(w, y', x') <==> y == y' && x == x'
  {
    Idx2Closed(w, y, x);
    Idx2Closed(w, y', x');
    if Idx2(w, y, x) == Idx2(w, y', x') {
      DigitsUnique(y, x, y', x', w);
    }
  }

  lemma Idx3Injective(w: nat, ch: nat, y: nat, x: nat, c: nat, y': nat, x': nat, c': nat)
    requires x < w && x' < w && c < ch && c' < ch
    ensures Idx3(w, ch, y, x, c) == Idx3(w, ch, y', x', c') <==> y == y' && x == x' && c == c'
  {
    Idx2Injective(ch, Idx2(w, y, x), c, Idx2(w, y', x'), c');
    Idx2Injective(w, y, x, y', x');
  }

  /** Position i of a grid of width w is cell (i / w, i % w). */
  lemma Cell(h: nat, w: nat, i: nat)
    requires i < h * w
    ensures 0 < w && i / w < h && i % w < w && Idx2(w, i / w, i % w) == i
  {
    Idx2Closed(w, i / w, i % w);
    if i / w >= h {
      MulLeq(h, i / w, w);
    }
  }

  /** Cell (y, x) sits at a position whose quotient and remainder by the
      width are y and x. */
  lemma CellOf(h: nat, w: nat, y: nat, x: nat)
    requires y < h && x < w
    ensures Idx2(w, y, x) / w == y && Idx2(w, y, x) % w == x
  {
    var i := Idx2(w, y, x);
    Idx2Bound(h, w, y, x);
    Cell(h, w, i);
    Idx2Closed(w, y, x);
    Idx2Closed(w, i / w, i % w);
    DigitsUnique(i / w, i % w, y, x, w);
  }

  lemma Product1(n: nat)
    ensures Product([n]) == n
  {
    assert [n][..0] == [];
  }

  /** Shape bookkeeping of a rank-2 Mat. */
  lemma Shape2(h: nat, w: nat)
    ensures Product([h, w]) == h * w
    ensures Strides([h, w]) == [w, 1]
  {
    var d := [h, w];
    Product1(h);
    Product1(w);
    assert d[..1] == [h];
    assert d[1..] == [w] && d[2..] == [];
    var s := Strides(d);
    assert s[0] == w && s[1] == 1;
  }

  /** Shape bookkeeping of a rank-3 Mat. */
  lemma Shape3(h: nat, w: nat, ch: nat)
    ensures Product([h, w, ch]) == h * w * ch
    ensures Strides([h, w, ch]) == [w * ch, ch, 1]
  {
    var d := [h, w, ch];
    Shape2(h, w);
    Shape2(w, ch);
    Product1(ch);
    assert d[..2] == [h, w];
    assert d[1..] == [w, ch] && d[2..] == [ch] && d[3..] == [];
    var s := Strides(d);
    assert s[0] == w * ch && s[1] == ch && s[2] == 1;
  }

  /** Pixel (y, x) of a height × width grid stored row-major in s. */
  function At2<T>(s: seq<T>, h: nat, w: nat, y: nat, x: nat): T
    requires |s| == h * w && y < h && x < w
  {
    Idx2Bound(h, w, y, x);
    s[Idx2(w, y, x)]
  }

  /** Channel c of pixel (y, x) of a height × width × ch image stored
      row-major in s. */
  function At3<T>(s: seq<T>, h: nat, w: nat, ch: nat, y: nat, x: nat, c: nat): T
    requires |s| == h * w * ch && y < h && x < w && c < ch
  {
    Idx3Bound(h, w, ch, y, x, c);
    s[Idx3(w, ch, y, x, c)]
  }

  /** A grid read as an image with a single channel. */
  lemma SingleChannel<T>(s: seq<T>, h: nat, w: nat, y: nat, x: nat)
    requires |s| == h * w && y < h && x < w
    ensures |s| == h * w * 1 && At3(s, h, w, 1, y, x, 0) == At2(s, h, w, y, x)
  {
    Idx2Closed(1, Idx2(w, y, x), 0);
  }

  /** Storing one cell changes that cell and no other. */
  lemma At2Update<T>(s: seq<T>, h: nat, w: nat, y: nat, x: nat, v: T)
    requires |s| == h * w && y < h && x < w
    ensures Idx2(w, y, x) < |s|
    ensures At2(s[Idx2(w, y, x) := v], h, w, y, x) == v
    ensures forall y': nat, x': nat | y' < h && x' < w && (y' != y || x' != x) ::
              At2(s[Idx2(w, y, x) := v], h, w, y', x') == At2(s, h, w, y', x')
  {
    Idx2Bound(h, w, y, x);
    var t := s[Idx2(w, y, x) := v];
    forall y': nat, x': nat | y' < h && x' < w && (y' != y || x' != x)
      ensures At2(t, h, w, y', x') == At2(s, h, w, y', x')
    {
      Idx2Injective(w, y, x, y', x');
      Idx2Bound(h, w, y', x');
    }
  }

  lemma At3Update<T>(s: seq<T>, h: nat, w: nat, ch: nat, y: nat, x: nat, c: nat, v: T)
    requires |s| == h * w * ch && y < h && x < w && c < ch
    ensures Idx3(w, ch, y, x, c) < |s|
    ensures At3(s[Idx3(w, ch, y, x, c) := v], h, w, ch, y, x, c) == v
    ensures forall y': nat, x': nat, c': nat
              | y' < h && x' < w && c' < ch && (y' != y || x' != x || c' != c) ::
              At3(s[Idx3(w, ch, y, x, c) := v], h, w, ch, y', x', c') == At3(s, h, w, ch, y', x', c')
  {
    Idx3Bound(h, w, ch, y, x, c);
    var t := s[Idx3(w, ch, y, x, c) := v];
    forall y': nat, x': nat, c': nat | y' < h && x' < w && c' < ch && (y' != y || x' != x || c' != c)
      ensures At3(t, h, w, ch, y', x', c') == At3(s, h, w, ch, y', x', c')
    {
      Idx3Injective(w, ch, y, x, c, y', x', c');
      Idx3Bound(h, w, ch, y', x', c');
    }
  }

  /** Two grids with the same cells are the same sequence. */
  lemma GridExtensional<T>(s: seq<T>, t: seq<T>, h: nat, w: nat)
    requires |s| == h * w && |t| == h * w
    requires forall y: nat, x: nat | y < h && x < w :: At2(s, h, w, y, x) == At2(t, h, w, y, x)
    ensures s == t
  {
    forall i | 0 <= i < h * w
      ensures s[i] == t[i]
    {
      Cell(h, w, i);
      assert At2(s, h, w, i / w, i % w) == At2(t, h, w, i / w, i % w);
    }
  }

  /** Two images with the same pixels are the same sequence. */
  lemma ImageExtensional<T>(s: seq<T>, t: seq<T>, h: nat, w: nat, ch: nat)
    requires |s| == h * w * ch && |t| == h * w * ch
    requires forall y: nat, x: nat, c: nat | y < h && x < w && c < ch ::
               At3(s, h, w, ch, y, x, c) == At3(t, h, w, ch, y, x, c)
    ensures s == t
  {
    forall i | 0 <= i < h * w * ch
      ensures s[i] == t[i]
    {
      Cell(h * w, ch, i);
      var p := i / ch;
      Cell(h, w, p);
      assert At3(s, h, w, ch, p / w, p % w, i % ch) == At3(t, h, w, ch, p / w, p % w, i % ch);
    }
  }

  /** Every element is a `uint8_t` value. */
  ghost predicate Bytes(m: Mat<int>)
    reads m
  {
    forall i | 0 <= i < |m.elements| :: 0 <= m.elements[i] <= 255
  }

  /** A rank-3 Mat holding one element per index: an image. */
  ghost predicate IsImage<T>(m: Mat<T>)
    reads m
  {
    m.WellFormed() && |m.dims| == 3 && |m.elements| == m.dims[0] * m.dims[1] * m.dims[2]
  }

  /** A rank-2 Mat holding one element per index: a grid. */
  ghost predicate IsGrid<T>(m: Mat<T>)
    reads m
  {
    m.WellFormed() && |m.dims| == 2 && |m.elements| == m.dims[0] * m.dims[1]
  }

  /** Every well-formed Mat of rank 3 is an image. */
  lemma ImageShape<T>(m: Mat<T>)
    requires m.WellFormed() && |m.dims| == 3
    ensures IsImage(m)
  {
    assert m.dims == [m.dims[0], m.dims[1], m.dims[2]];
    Shape3(m.dims[0], m.dims[1], m.dims[2]);
  }

  /** Every well-formed Mat of rank 2 is a grid. */
  lemma GridShape<T>(m: Mat<T>)
    requires m.WellFormed() && |m.dims| == 2
    ensures IsGrid(m)
  {
    assert m.dims == [m.dims[0], m.dims[1]];
    Shape2(m.dims[0], m.dims[1]);
  }

  /** The cursor offset of (y, x, c) is the pixel position. */
  lemma Offset3(h: nat, w: nat, ch: nat, y: nat, x: nat, c: nat)
    ensures Offset([h, w, ch], [y, x, c]) == Idx3(w, ch, y, x, c)
  {
    Shape3(h, w, ch);
    var st := [w * ch, ch, 1];
    var idx := [y, x, c];
    assert st[1..] == [ch, 1] && idx[1..] == [x, c];
    assert [ch, 1][1..] == [1] && [x, c][1..] == [c];
    assert [1][1..] == [] && [c][1..] == [];
    assert StridedSum([1], [c]) == c;
    assert StridedSum([ch, 1], [x, c]) == x * ch + c;
    assert StridedSum(st, idx) == y * (w * ch) + (x * ch + c);
    assert y * (w * ch) + x * ch == (y * w + x) * ch;
    Idx2Closed(w, y, x);
    Idx2Closed(ch, Idx2(w, y, x), c);
  }

  /** The cursor offset of (y, x) is the cell position. */
  lemma Offset2(h: nat, w: nat, y: nat, x: nat)
    ensures Offset([h, w], [y, x]) == Idx2(w, y, x)
  {
    Shape2(h, w);
    var st := [w, 1];
    var idx := [y, x];
    assert st[1..] == [1] && idx[1..] == [x];
    assert [1][1..] == [] && [x][1..] == [];
    assert StridedSum([1], [x]) == x;
    assert StridedSum(st, idx) == y * w + x;
    Idx2Closed(w, y, x);
  }

  /** `m[y][x][c]` on an image reads channel c of pixel (y, x), and raises
      out_of_range for any index past its axis. */
  lemma Get3<T>(m: Mat<T>, y: nat, x: nat, c: nat)
    requires IsImage(m)
    ensures Get(m, [y, x, c]) ==
              if y < m.dims[0] && x < m.dims[1] && c < m.dims[2]
              then Ok(At3(m.elements, m.dims[0], m.dims[1], m.dims[2], y, x, c))
              else Err(OutOfRange)
  {
    var idx := [y, x, c];
    var h, w, ch := m.dims[0], m.dims[1], m.dims[2];
    assert m.dims == [h, w, ch];
    LocateFull(m, idx);
    Offset3(h, w, ch, y, x, c);
    assert InRange(m.dims, idx) <==> y < h && x < w && c < ch by {
      assert idx[0] == y && idx[1] == x && idx[2] == c;
    }
  }

  /** `m[y][x]` on a grid reads cell (y, x), and raises out_of_range for any
      index past its axis. */
  lemma Get2<T>(m: Mat<T>, y: nat, x: nat)
    requires IsGrid(m)
    ensures Get(m, [y, x]) ==
              if y < m.dims[0] && x < m.dims[1]
              then Ok(At2(m.elements, m.dims[0], m.dims[1], y, x))
              else Err(OutOfRange)
  {
    var idx := [y, x];
    var h, w := m.dims[0], m.dims[1];
    assert m.dims == [h, w];
    LocateFull(m, idx);
    Offset2(h, w, y, x);
    assert InRange(m.dims, idx) <==> y < h && x < w by {
      assert idx[0] == y && idx[1] == x;
    }
  }

  /** `m[y][x]` on an image stops on the column axis: turning that accessor
      into a value trips the last-axis assertion. */
  lemma TwoIndexRead<T>(m: Mat<T>, y: nat, x: nat)
    requires IsImage(m) && y < m.dims[0] && x < m.dims[1]
    ensures Get(m, [y, x]) == Err(AssertionFailure)
  {
    var c := m.Index(y).value;
    assert [y, x][1..] == [x];
    assert TailInRange(m.dims, 1, [x]);
    ChasePartial(c, [x]);
  }

  /** `m[y][x][c] = v` through the cursor chain, on an in-range index. */
  method Put3<T>(m: Mat<T>, y: nat, x: nat, c: nat, v: T)
    requires IsImage(m) && y < m.dims[0] && x < m.dims[1] && c < m.dims[2]
    modifies m
    ensures IsImage(m)
    ensures Idx3(m.dims[1], m.dims[2], y, x, c) < |old(m.elements)|
    ensures m.elements == old(m.elements)[Idx3(m.dims[1], m.dims[2], y, x, c) := v]
  {
    var idx := [y, x, c];
    var h, w, ch := m.dims[0], m.dims[1], m.dims[2];
    assert m.dims == [h, w, ch];
    assert InRange(m.dims, idx) by {
      assert idx[0] == y && idx[1] == x && idx[2] == c;
    }
    LocateFull(m, idx);
    Offset3(h, w, ch, y, x, c);
    var o := Put(m, idx, v);
  }

  /** `m[y][x][c] = v` through the cursor chain on any index: it stores v at
      pixel (y, x), channel c, or raises out_of_range and changes nothing. */
  method Store3<T>(m: Mat<T>, y: nat, x: nat, c: nat, v: T) returns (o: Outcome)
    requires IsImage(m)
    modifies m
    ensures IsImage(m)
    ensures o.Pass? <==> y < m.dims[0] && x < m.dims[1] && c < m.dims[2]
    ensures o.Fail? ==> o.error == OutOfRange && m.elements == old(m.elements)
    ensures o.Pass? ==> Idx3(m.dims[1], m.dims[2], y, x, c) < |old(m.elements)| &&
                        m.elements == old(m.elements)[Idx3(m.dims[1], m.dims[2], y, x, c) := v]
  {
    var idx := [y, x, c];
    var h, w, ch := m.dims[0], m.dims[1], m.dims[2];
    assert m.dims == [h, w, ch];
    assert InRange(m.dims, idx) <==> y < h && x < w && c < ch by {
      assert idx[0] == y && idx[1] == x && idx[2] == c;
    }
    LocateFull(m, idx);
    Offset3(h, w, ch, y, x, c);
    o := Put(m, idx, v);
  }

  /** `m[y][x] = v` through the cursor chain, on an in-range index. */
  method Put2<T>(m: Mat<T>, y: nat, x: nat, v: T)
    requires IsGrid(m) && y < m.dims[0] && x < m.dims[1]
    modifies m
    ensures IsGrid(m)
    ensures Idx2(m.dims[1], y, x) < |old(m.elements)|
    ensures m.elements == old(m.elements)[Idx2(m.dims[1], y, x) := v]
  {
    var idx := [y, x];
    var h, w := m.dims[0], m.dims[1];
    assert m.dims == [h, w];
    assert InRange(m.dims, idx) by {
      assert idx[0] == y && idx[1] == x;
    }
    LocateFull(m, idx);
    Offset2(h, w, y, x);
    var o := Put(m, idx, v);
  }
}
