/** `IntegralImage` (integral_image.hpp): the summed-area table of channel 0
    of an image, built by a row pass and then a column pass over a zeroed
    height × width Mat. */
module IntegralImages {
  import opened Wrappers
  import opened Mats
  import opened Grids
  import opened MatViews

  /** Channel 0 of pixel (y, x): what the view hands the constructor. */
  function Px(m: Mat<int>, y: nat, x: nat): int
    reads m
    requires IsImage(m) && y < m.dims[0] && x < m.dims[1] && 0 < m.dims[2]
  {
    At3(m.elements, m.dims[0], m.dims[1], m.dims[2], y, x, 0)
  }

  /** Sum of the first n pixels of row y. */
  function RowPrefix(m: Mat<int>, y: nat, n: nat): int
    reads m
    requires IsImage(m) && y < m.dims[0] && n <= m.dims[1] && 0 < m.dims[2]
  {
    if n == 0 then 0 else RowPrefix(m, y, n - 1) + Px(m, y, n - 1)
  }

  /** Sum of the first k pixels of each of the first n rows. */
  function RectPrefix(m: Mat<int>, n: nat, k: nat): int
    reads m
    requires IsImage(m) && n <= m.dims[0] && k <= m.dims[1] && 0 < m.dims[2]
  {
    if n == 0 then 0 else RectPrefix(m, n - 1, k) + RowPrefix(m, n - 1, k)
  }

  /** Sum of row y over the columns x0 ≤ x < x1. */
  function RowRange(m: Mat<int>, y: nat, x0: nat, x1: nat): int
    reads m
    requires IsImage(m) && y < m.dims[0] && x1 <= m.dims[1] && 0 < m.dims[2]
    decreases x1
  {
    if x1 <= x0 then 0 else RowRange(m, y, x0, x1 - 1) + Px(m, y, x1 - 1)
  }

  /** Sum of the pixels of the block y0 ≤ y < y1, x0 ≤ x < x1. */
  function BlockSum(m: Mat<int>, y0: nat, y1: nat, x0: nat, x1: nat): int
    reads m
    requires IsImage(m) && y1 <= m.dims[0] && x1 <= m.dims[1] && 0 < m.dims[2]
    decreases y1
  {
    if y1 <= y0 then 0 else BlockSum(m, y0, y1 - 1, x0, x1) + RowRange(m, y1 - 1, x0, x1)
  }

  /** A row range is the difference of two row prefixes. */
  lemma {:induction false} RowRangeByPrefixes(m: Mat<int>, y: nat, x0: nat, x1: nat)
    requires IsImage(m) && y < m.dims[0] && x0 <= x1 <= m.dims[1] && 0 < m.dims[2]
    ensures RowRange(m, y, x0, x1) == RowPrefix(m, y, x1) - RowPrefix(m, y, x0)
    decreases x1
  {
    if x0 < x1 {
      RowRangeByPrefixes(m, y, x0, x1 - 1);
    }
  }

  /** The summed-area identity: any block's sum is recovered from four table
      entries. */
  lemma {:induction false} BlockByCorners(m: Mat<int>, y0: nat, y1: nat, x0: nat, x1: nat)
    requires IsImage(m) && y0 <= y1 <= m.dims[0] && x0 <= x1 <= m.dims[1] && 0 < m.dims[2]
    ensures BlockSum(m, y0, y1, x0, x1) ==
              RectPrefix(m, y1, x1) - RectPrefix(m, y0, x1) - RectPrefix(m, y1, x0) + RectPrefix(m, y0, x0)
    decreases y1
  {
    if y0 < y1 {
      BlockByCorners(m, y0, y1 - 1, x0, x1);
      RowRangeByPrefixes(m, y1 - 1, x0, x1);
    }
  }

  /** Row y of the row pass: cell (y, x) becomes the sum of the first x + 1
      pixels of row y; no other cell changes.  The first view read raises
      out_of_range when the image has no channels. */
  method PrefixRow(src: Mat<int>, t: Mat<int>, y: nat) returns (o: Outcome)
    requires IsImage(src) && IsGrid(t) && t.dims == src.dims[..2] && t != src
    requires y < src.dims[0]
    modifies t
    ensures IsGrid(t)
    ensures o.Fail? <==> 0 < src.dims[1] && src.dims[2] == 0
    ensures o.Fail? ==> o.error == OutOfRange
    ensures o.Pass? ==>
              forall j: nat | j < src.dims[1] ::
                At2(t.elements, src.dims[0], src.dims[1], y, j) == RowPrefix(src, y, j + 1)
    ensures forall i: nat, j: nat | i < src.dims[0] && i != y && j < src.dims[1] ::
              At2(t.elements, src.dims[0], src.dims[1], i, j) == At2(old(t.elements), src.dims[0], src.dims[1], i, j)
  {
    var h, w, ch := src.dims[0], src.dims[1], src.dims[2];
    assert src.dims[..2] == [h, w];
    var view := View(src);
    var sum := 0;
    var x := 0;
    while x < w
      invariant 0 <= x <= w
      invariant IsGrid(t) && t.dims == [h, w]
      invariant 0 < x ==> 0 < ch && sum == RowPrefix(src, y, x)
      invariant x == 0 ==> sum == 0
      invariant forall j: nat | j < x :: At2(t.elements, h, w, y, j) == RowPrefix(src, y, j + 1)
      invariant forall i: nat, j: nat | i < h && i != y && j < w ::
                  At2(t.elements, h, w, i, j) == At2(old(t.elements), h, w, i, j)
    {
      var px := view.Read(y, x);
      ViewReadsChannelZero(view, y, x);
      if px.Err? {
        return Fail(px.error);
      }
      sum := sum + px.value;
      assert sum == RowPrefix(src, y, x + 1);
      ghost var before := t.elements;
      Put2(t, y, x, sum);
      At2Update(before, h, w, y, x, sum);
      forall j: nat | j < x + 1
        ensures At2(t.elements, h, w, y, j) == RowPrefix(src, y, j + 1)
      {
        if j < x {
          assert At2(t.elements, h, w, y, j) == At2(before, h, w, y, j);
        }
      }
      x := x + 1;
    }
    o := Pass;
  }

  /** Column x of the column pass: given a column of row sums, cell (y, x)
      becomes the sum of the row sums above and at y; no other cell
      changes. */
  method AccumulateColumn(src: Mat<int>, t: Mat<int>, x: nat)
    requires IsImage(src) && IsGrid(t) && t.dims == src.dims[..2] && t != src
    requires x < src.dims[1] && (0 < src.dims[0] ==> 0 < src.dims[2])
    requires forall i: nat | i < src.dims[0] ::
               At2(t.elements, src.dims[0], src.dims[1], i, x) == RowPrefix(src, i, x + 1)
    modifies t
    ensures IsGrid(t)
    ensures forall i: nat | i < src.dims[0] ::
              At2(t.elements, src.dims[0], src.dims[1], i, x) == RectPrefix(src, i + 1, x + 1)
    ensures forall i: nat, j: nat | i < src.dims[0] && j < src.dims[1] && j != x ::
              At2(t.elements, src.dims[0], src.dims[1], i, j) == At2(old(t.elements), src.dims[0], src.dims[1], i, j)
  {
    var h, w := src.dims[0], src.dims[1];
    assert src.dims[..2] == [h, w];
    var sum := 0;
    var y := 0;
    while y < h
      invariant 0 <= y <= h
      invariant IsGrid(t) && t.dims == [h, w]
      invariant 0 < y ==> sum == RectPrefix(src, y, x + 1)
      invariant y == 0 ==> sum == 0
      invariant forall i: nat | i < y :: At2(t.elements, h, w, i, x) == RectPrefix(src, i + 1, x + 1)
      invariant forall i: nat | y <= i < h :: At2(t.elements, h, w, i, x) == RowPrefix(src, i, x + 1)
      invariant forall i: nat, j: nat | i < h && j < w && j != x ::
                  At2(t.elements, h, w, i, j) == At2(old(t.elements), h, w, i, j)
    {
      var cell := Get(t, [y, x]);
      Get2(t, y, x);
      assert cell.value == RowPrefix(src, y, x + 1);
      sum := sum + cell.value;
      ghost var before := t.elements;
      Put2(t, y, x, sum);
      At2Update(before, h, w, y, x, sum);
      forall i: nat | i < y + 1
        ensures At2(t.elements, h, w, i, x) == RectPrefix(src, i + 1, x + 1)
      {
        if i < y {
          assert At2(t.elements, h, w, i, x) == At2(before, h, w, i, x);
        }
      }
      forall i: nat | y + 1 <= i < h
        ensures At2(t.elements, h, w, i, x) == RowPrefix(src, i, x + 1)
      {
        assert At2(t.elements, h, w, i, x) == At2(before, h, w, i, x);
      }
      y := y + 1;
    }
  }

  /** The constructor.  The table has the view's height and width; cell
      (y, x) ends up holding the sum of channel 0 over rows ≤ y and columns
      ≤ x.  An image with pixels but no channels makes the first view read
      raise out_of_range. */
  method IntegralImage(src: Mat<int>) returns (r: Result<Mat<int>>)
    requires IsImage(src)
    ensures r.Err? <==> 0 < src.dims[0] && 0 < src.dims[1] && src.dims[2] == 0
    ensures r.Err? ==> r.error == OutOfRange
    ensures r.Ok? ==> fresh(r.value) && IsGrid(r.value) && r.value.dims == src.dims[..2]
    ensures r.Ok? ==>
              forall y: nat, x: nat | y < src.dims[0] && x < src.dims[1] ::
                At2(r.value.elements, src.dims[0], src.dims[1], y, x) == RectPrefix(src, y + 1, x + 1)
  {
    var h, w, ch := src.dims[0], src.dims[1], src.dims[2];
    var t := new Mat<int>.Zeros([h, w], 0);
    GridShape(t);
    assert src.dims[..2] == [h, w];

    // Row pass: running sums along each row.
    var y := 0;
    while y < h
      invariant 0 <= y <= h
      invariant fresh(t) && IsGrid(t) && t.dims == [h, w]
      invariant 0 < y && 0 < w ==> 0 < ch
      invariant forall i: nat, j: nat | i < y && j < w :: At2(t.elements, h, w, i, j) == RowPrefix(src, i, j + 1)
    {
      var o := PrefixRow(src, t, y);
      if o.Fail? {
        return Err(o.error);
      }
      y := y + 1;
    }

    // Column pass: running sums of the row sums down each column.
    var x := 0;
    while x < w
      invariant 0 <= x <= w
      invariant fresh(t) && IsGrid(t) && t.dims == [h, w]
      invariant 0 < h && 0 < w ==> 0 < ch
      invariant forall i: nat, j: nat | i < h && j < x :: At2(t.elements, h, w, i, j) == RectPrefix(src, i + 1, j + 1)
      invariant forall i: nat, j: nat | i < h && x <= j < w :: At2(t.elements, h, w, i, j) == RowPrefix(src, i, j + 1)
    {
      AccumulateColumn(src, t, x);
      x := x + 1;
    }
    r := Ok(t);
  }

  lemma {:induction false} RectPrefixZeroWidth(m: Mat<int>, n: nat)
    requires IsImage(m) && n <= m.dims[0] && 0 < m.dims[2]
    ensures RectPrefix(m, n, 0) == 0
  {
    if n > 0 {
      RectPrefixZeroWidth(m, n - 1);
    }
  }

  /** The bottom-right cell of the table holds the sum of channel 0 over the
      whole image. */
  lemma CornerIsTotal(src: Mat<int>, table: Mat<int>)
    requires IsImage(src) && IsGrid(table) && table.dims == src.dims[..2]
    requires 0 < src.dims[0] && 0 < src.dims[1] && 0 < src.dims[2]
    requires forall y: nat, x: nat | y < src.dims[0] && x < src.dims[1] ::
               At2(table.elements, src.dims[0], src.dims[1], y, x) == RectPrefix(src, y + 1, x + 1)
    ensures At2(table.elements, src.dims[0], src.dims[1], src.dims[0] - 1, src.dims[1] - 1) ==
              BlockSum(src, 0, src.dims[0], 0, src.dims[1])
  {
    BlockByCorners(src, 0, src.dims[0], 0, src.dims[1]);
    RectPrefixZeroWidth(src, src.dims[0]);
  }
}
