/** The 8-neighbour iterator (neighbours.hpp): a position, a current
    direction and an end flag; `++` walks the compass clockwise from
    TOP_LEFT and sets the end flag after LEFT. */
module Neighbours {
  import opened Utility

  /** The order `++` visits the directions in. */
  const ORDER: seq<Direction> := [TopLeft, Top, TopRight, Right, BottomRight, Bottom, BottomLeft, Left]

  /** Where direction d sits in ORDER. */
  function Rank(d: Direction): (i: nat)
    ensures i < |ORDER| && ORDER[i] == d
  {
    match d
    case TopLeft => 0
    case Top => 1
    case TopRight => 2
    case Right => 3
    case BottomRight => 4
    case Bottom => 5
    case BottomLeft => 6
    case Left => 7
  }

  /** The direction `++` moves to from d; LEFT has none and stays. */
  function Successor(d: Direction): (e: Direction)
    ensures d != Left ==> Rank(e) == Rank(d) + 1
    ensures d == Left ==> e == Left
  {
    match d
    case TopLeft => Top
    case Top => TopRight
    case TopRight => Right
    case Right => BottomRight
    case BottomRight => Bottom
    case Bottom => BottomLeft
    case BottomLeft => Left
    case Left => Left
  }

  class NeighbourIterator {
    var dir: Direction
    var x: int
    var y: int
    var isEnd: bool

    /** `NeighbourIterator(x, y, isEnd)`: starts at TOP_LEFT. */
    constructor (x: int, y: int, isEnd: bool)
      ensures this.x == x && this.y == y && this.isEnd == isEnd && dir == TopLeft
    {
      this.x, this.y, this.isEnd := x, y, isEnd;
      dir := TopLeft;
    }

    /** `operator++`: the next direction clockwise; from LEFT it sets the
        end flag and keeps the direction.  It also advances an iterator that
        is already at its end. */
    method Increment()
      modifies this
      ensures x == old(x) && y == old(y)
      ensures old(dir) != Left ==> Rank(dir) == Rank(old(dir)) + 1 && isEnd == old(isEnd)
      ensures old(dir) == Left ==> dir == Left && isEnd
    {
      if dir == Left {
        isEnd := true;
      } else {
        dir := Successor(dir);
      }
    }

    /** `operator*`: the neighbouring cell in the current direction. */
    function Cell(): (c: (int, int))
      reads this
      ensures c != (x, y)
      ensures -1 <= c.0 - x <= 1 && -1 <= c.1 - y <= 1
    {
      OffsetsDistinct(dir, dir);
      (x + Offset(dir).0, y + Offset(dir).1)
    }

    /** `operator==`: all end iterators are equal and differ from every
        other; two live iterators are equal when direction and position
        agree. */
    predicate Equals(other: NeighbourIterator)
      reads this, other
    {
      if isEnd && other.isEnd then true
      else if isEnd || other.isEnd then false
      else dir == other.dir && x == other.x && y == other.y
    }
  }

  /** `operator==` is an equivalence: reflexive, symmetric and transitive,
      with every end iterator in one class of its own. */
  lemma EqualsIsEquivalence(a: NeighbourIterator, b: NeighbourIterator, c: NeighbourIterator)
    ensures a.Equals(a)
    ensures a.Equals(b) <==> b.Equals(a)
    ensures a.Equals(b) && b.Equals(c) ==> a.Equals(c)
    ensures a.isEnd && b.isEnd ==> a.Equals(b)
    ensures a.isEnd != b.isEnd ==> !a.Equals(b)
  {
  }

  /** `Neighbours(x, y)` with its `begin` and `end`. */
  datatype Neighbourhood = Neighbourhood(x: int, y: int)
  {
    method Begin() returns (it: NeighbourIterator)
      ensures fresh(it) && it.x == x && it.y == y && !it.isEnd && it.dir == TopLeft
    {
      it := new NeighbourIterator(x, y, false);
    }

    method End() returns (it: NeighbourIterator)
      ensures fresh(it) && it.x == x && it.y == y && it.isEnd
    {
      it := new NeighbourIterator(x, y, true);
    }
  }

  /** The cells a range-for over `neighbours(x, y)` visits, in order. */
  function Visited(x: int, y: int): seq<(int, int)>
  {
    seq(|ORDER|, i requires 0 <= i < |ORDER| => (x + Offset(ORDER[i]).0, y + Offset(ORDER[i]).1))
  }

  /** `for (auto cell : neighbours(x, y))`: the loop from `begin` to `end`
      yields the eight cells around (x, y) in the order of ORDER, each
      once and never (x, y) itself. */
  method Traverse(x: int, y: int) returns (cells: seq<(int, int)>)
    ensures cells == Visited(x, y)
    ensures |cells| == 8
    ensures forall i, j | 0 <= i < j < |cells| :: cells[i] != cells[j]
    ensures forall i | 0 <= i < |cells| ::
              cells[i] != (x, y) && -1 <= cells[i].0 - x <= 1 && -1 <= cells[i].1 - y <= 1
  {
    var hood := Neighbourhood(x, y);
    var it := hood.Begin();
    var last := hood.End();
    cells := [];
    while !it.Equals(last)
      invariant fresh(it) && it != last && it.x == x && it.y == y && last.isEnd
      invariant |cells| <= |ORDER| && cells == Visited(x, y)[..|cells|]
      invariant !it.isEnd ==> Rank(it.dir) == |cells|
      invariant it.isEnd <==> |cells| == |ORDER|
      decreases |ORDER| - |cells|
    {
      cells := cells + [it.Cell()];
      it.Increment();
    }
    forall i, j | 0 <= i < j < |cells| ensures cells[i] != cells[j] {
      OffsetsDistinct(ORDER[i], ORDER[j]);
    }
    forall i | 0 <= i < |cells|
      ensures cells[i] != (x, y) && -1 <= cells[i].0 - x <= 1 && -1 <= cells[i].1 - y <= 1
    {
      OffsetsDistinct(ORDER[i], ORDER[i]);
    }
  }
}
