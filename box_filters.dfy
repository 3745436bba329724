/** Signed rectangles and lists of them (box_filters.hpp).  A box covers the
    cells x0..x1 × y0..y1, both ends included, with an `int8_t` weight. */
module BoxFilters {

  const UNSIGNED_RANGE: int := 0x1_0000_0000

  /** `Box`, a value type: `BoxFilter` stores boxes by value, so transposing
      one in place is modelled as replacing it by its transposed value. */
  datatype Box = Box(x0: nat, y0: nat, x1: nat, y1: nat, val: int)
  {
    /** `transpose`: swaps x0 with y0 and x1 with y1; the weight stays. */
    function Transposed(): (b: Box)
      ensures b.val == val
      ensures forall x: int, y: int :: b.Contains(y, x) == Contains(x, y)
    {
      Box(y0, x0, y1, x1, val)
    }

    /** The box covers cell (x, y). */
    predicate Contains(x: int, y: int)
    {
      x0 <= x <= x1 && y0 <= y <= y1
    }

    /** `area`: (x1 - x0 + 1)·(y1 - y0 + 1) in `unsigned` arithmetic. */
    function Area(): (a: nat)
      ensures a < UNSIGNED_RANGE
      ensures x0 <= x1 && y0 <= y1 && (x1 - x0 + 1) * (y1 - y0 + 1) < UNSIGNED_RANGE ==>
                a == (x1 - x0 + 1) * (y1 - y0 + 1)
    {
      ((x1 - x0 + 1) * (y1 - y0 + 1)) % UNSIGNED_RANGE
    }
  }

  /** Transposing twice gives the box back, and keeps weight and area. */
  lemma TransposeInvolution(b: Box)
    ensures b.Transposed().Transposed() == b
    ensures b.Transposed().val == b.val
    ensures b.Transposed().Area() == b.Area()
  {
    assert (b.y1 - b.y0 + 1) * (b.x1 - b.x0 + 1) == (b.x1 - b.x0 + 1) * (b.y1 - b.y0 + 1);
  }

  /** Every box of bs, transposed. */
  function TransposeAll(bs: seq<Box>): (ts: seq<Box>)
    ensures |ts| == |bs|
    ensures forall i | 0 <= i < |bs| :: ts[i] == bs[i].Transposed()
  {
    seq(|bs|, i requires 0 <= i < |bs| => bs[i].Transposed())
  }

  /** `BoxFilter`: a list of boxes; `begin`/`end` iterate it in insertion
      order, which is the order of `boxes`. */
  class BoxFilter {
    var boxes: seq<Box>

    constructor ()
      ensures boxes == []
    {
      boxes := [];
    }

    /** `addBox`: appends a copy of the box. */
    method AddBox(box: Box)
      modifies this
      ensures boxes == old(boxes) + [box]
    {
      boxes := boxes + [box];
    }

    /** `transpose`: every box is transposed in place; count, order and
        weights stay. */
    method Transpose()
      modifies this
      ensures boxes == TransposeAll(old(boxes))
    {
      var i := 0;
      while i < |boxes|
        invariant 0 <= i <= |boxes| == |old(boxes)|
        invariant forall j | 0 <= j < i :: boxes[j] == old(boxes[j]).Transposed()
        invariant forall j | i <= j < |boxes| :: boxes[j] == old(boxes[j])
      {
        boxes := boxes[i := boxes[i].Transposed()];
        i := i + 1;
      }
    }
  }

  /** Transposing a whole list twice restores it, and keeps each box's
      weight and area. */
  lemma TransposeAllInvolution(bs: seq<Box>)
    ensures TransposeAll(TransposeAll(bs)) == bs
    ensures forall i | 0 <= i < |bs| ::
              TransposeAll(bs)[i].val == bs[i].val && TransposeAll(bs)[i].Area() == bs[i].Area()
  {
    forall i | 0 <= i < |bs| ensures TransposeAll(TransposeAll(bs))[i] == bs[i] {
      TransposeInvolution(bs[i]);
    }
    forall i | 0 <= i < |bs| ensures TransposeAll(bs)[i].val == bs[i].val && TransposeAll(bs)[i].Area() == bs[i].Area() {
      TransposeInvolution(bs[i]);
    }
  }
}
