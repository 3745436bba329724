/** Row-major pixel iteration (image_traverser.hpp).  The image is reached
    through a pointer; its rows are views fetched by index, so an iterator
    caches a row by remembering which one it fetched.  Pixel (x, y) of an
    image is given by its `pixel` function, column first as in the source. */
module ImageTraversal {
  import opened Wrappers
  import opened Grids

  /** An image as the iterator sees it: width, height and the pixel at
      each (x, y). */
  class Image<P> {
    const width: nat
    const height: nat
    const pixel: (nat, nat) -> P

    constructor (width: nat, height: nat, pixel: (nat, nat) -> P)
      ensures this.width == width && this.height == height && this.pixel == pixel
    {
      this.width, this.height, this.pixel := width, height, pixel;
    }
  }

  class PixelIterator<P> {
    const img: Image?<P>
    var rowCache: Option<nat>
    var x: nat
    var y: nat
    var isEnd: bool

    /** `PixelIterator(img, x, y, isEnd)`: with an image it caches row 0,
        whatever y is; without one the cache is an empty row. */
    constructor (img: Image?<P>, x: nat, y: nat, isEnd: bool)
      ensures this.img == img && this.x == x && this.y == y && this.isEnd == isEnd
      ensures rowCache == if img != null then Some(0) else None
    {
      this.img, this.x, this.y, this.isEnd := img, x, y, isEnd;
      rowCache := if img != null then Some(0) else None;
    }

    /** `operator*`: the pixel of the cached row at column x, with the
        coordinates (x, y). */
    function Deref(): (v: (P, (nat, nat)))
      reads this
      requires img != null && rowCache.Some?
      ensures v.1 == (x, y)
      ensures rowCache == Some(y) ==> v.0 == img.pixel(x, y)
    {
      (img.pixel(x, rowCache.value), (x, y))
    }

    /** `operator==`: two end iterators are equal; otherwise the image
        pointers and both coordinates must agree. */
    predicate Equals(other: PixelIterator<P>)
      reads this, other
    {
      if isEnd && other.isEnd then true
      else img == other.img && x == other.x && y == other.y
    }

    /** `operator++`: one column on; at the end of a row back to column 0 of
        the next row, whose view is fetched (even the row past the last);
        reaching row `height` marks the end. */
    method Increment()
      requires img != null
      modifies this
      ensures old(x) + 1 < img.width || old(x) + 1 > img.width ==>
                x == old(x) + 1 && y == old(y) && rowCache == old(rowCache)
      ensures old(x) + 1 == img.width ==> x == 0 && y == old(y) + 1 && rowCache == Some(y)
      ensures isEnd == (old(isEnd) || y == img.height)
    {
      x := x + 1;
      if x == img.width {
        x := 0;
        y := y + 1;
        rowCache := Some(y);
      }
      if y == img.height {
        isEnd := true;
      }
    }
  }

  /** `operator==` is reflexive and symmetric, two end iterators are
      equal, and an iterator over an image equals the null `end()` exactly
      when it has been marked as the end. */
  lemma EqualsAtEnd<P>(a: PixelIterator<P>, b: PixelIterator<P>)
    ensures a.Equals(a)
    ensures a.Equals(b) <==> b.Equals(a)
    ensures a.isEnd && b.isEnd ==> a.Equals(b)
    ensures a.img != null && b.img == null ==> (a.Equals(b) <==> a.isEnd && b.isEnd)
  {
  }

  /** `pixels(img)` with its `begin` and `end`. */
  datatype ImageTraverser<P> = ImageTraverser(img: Image<P>)
  {
    method Begin() returns (it: PixelIterator<P>)
      ensures fresh(it) && it.img == img && it.x == 0 && it.y == 0 && !it.isEnd && it.rowCache == Some(0)
    {
      it := new PixelIterator(img, 0, 0, false);
    }

    method End() returns (it: PixelIterator<P>)
      ensures fresh(it) && it.img == null && it.isEnd
    {
      it := new PixelIterator(null, 0, 0, true);
    }
  }

  /** Row y as the iterator yields it: each pixel with its coordinates. */
  function Row<P>(img: Image<P>, y: nat): (r: seq<(P, (nat, nat))>)
    ensures |r| == img.width
    ensures forall x | 0 <= x < img.width :: r[x] == (img.pixel(x, y), (x, y))
  {
    seq(img.width, x requires 0 <= x < img.width => (img.pixel(x, y), (x, y)))
  }

  /** Rows 0..n-1 in order. */
  function Rows<P>(img: Image<P>, n: nat): seq<(P, (nat, nat))>
  {
    if n == 0 then [] else Rows(img, n - 1) + Row(img, n - 1)
  }

  /** Pixel (x, y) sits at the row-major position y·width + x. */
  lemma {:induction false} RowsAt<P>(img: Image<P>, n: nat, y: nat, x: nat)
    requires y < n && x < img.width
    ensures |Rows(img, n)| == n * img.width
    ensures Idx2(img.width, y, x) < |Rows(img, n)|
    ensures Rows(img, n)[Idx2(img.width, y, x)] == (img.pixel(x, y), (x, y))
  {
    var w := img.width;
    RowsLength(img, n - 1);
    assert |Rows(img, n)| == (n - 1) * w + w == n * w;
    if y < n - 1 {
      RowsAt(img, n - 1, y, x);
      assert Rows(img, n)[Idx2(w, y, x)] == Rows(img, n - 1)[Idx2(w, y, x)];
    } else {
      Idx2Closed(w, y, x);
      assert Idx2(w, y, x) == |Rows(img, n - 1)| + x;
      assert Rows(img, n)[Idx2(w, y, x)] == Row(img, n - 1)[x];
    }
  }

  lemma {:induction false} RowsLength<P>(img: Image<P>, n: nat)
    ensures |Rows(img, n)| == n * img.width
  {
    if n > 0 {
      RowsLength(img, n - 1);
    }
  }

  /** `for (auto [p, xy] : pixels(img))`: every pixel with its coordinates,
      row by row, left to right, width · height of them. */
  method Traverse<P>(img: Image<P>) returns (visited: seq<(P, (nat, nat))>)
    requires 0 < img.width && 0 < img.height
    ensures visited == Rows(img, img.height)
    ensures |visited| == img.width * img.height
    ensures forall y: nat, x: nat | y < img.height && x < img.width ::
              Idx2(img.width, y, x) < |visited| && visited[Idx2(img.width, y, x)] == (img.pixel(x, y), (x, y))
  {
    var t := ImageTraverser(img);
    var it := t.Begin();
    var last := t.End();
    visited := [];
    while !it.Equals(last)
      invariant fresh(it) && it != last && it.img == img && last.img == null && last.isEnd
      invariant it.isEnd <==> it.y == img.height
      invariant it.y < img.height ==> it.x < img.width && it.rowCache == Some(it.y)
      invariant it.y == img.height ==> it.x == 0
      invariant it.y <= img.height
      invariant visited == Rows(img, it.y) + Row(img, it.y)[..it.x]
      decreases img.height - it.y, img.width - it.x
    {
      visited := visited + [it.Deref()];
      it.Increment();
      if it.x == 0 {
        assert Row(img, it.y - 1)[..img.width] == Row(img, it.y - 1);
      }
    }
    RowsLength(img, img.height);
    forall y: nat, x: nat | y < img.height && x < img.width
      ensures Idx2(img.width, y, x) < |visited| && visited[Idx2(img.width, y, x)] == (img.pixel(x, y), (x, y))
    {
      RowsAt(img, img.height, y, x);
    }
  }
}
