/** Row-first iteration over a nested array (flatten.hpp).  The array is a
    sequence of rows of possibly different lengths; an iterator holds a
    pointer to the array (None for the null pointer), the position its
    column iterator points at, as (row, column), and the row it is working
    through.  Positions stand for the column iterators: two iterators are
    equal when they point at the same position. */
module Flatten {
  import opened Wrappers

  /** The elements of rows, row by row, left to right. */
  function Concat<T>(rows: seq<seq<T>>): seq<T>
  {
    if rows == [] then [] else Concat(rows[..|rows| - 1]) + rows[|rows| - 1]
  }

  lemma {:induction false} ConcatAppend<T>(a: seq<seq<T>>, b: seq<seq<T>>)
    ensures Concat(a + b) == Concat(a) + Concat(b)
    decreases |b|
  {
    if b != [] {
      assert (a + b)[..|a + b| - 1] == a + b[..|b| - 1];
      ConcatAppend(a, b[..|b| - 1]);
    } else {
      assert a + b == a;
    }
  }

  /** The elements before position (r, c): whole rows 0..r-1, then the
      first c elements of row r. */
  function Prefix<T>(rows: seq<seq<T>>, r: nat, c: nat): seq<T>
    requires r < |rows| && c <= |rows[r]|
  {
    Concat(rows[..r]) + rows[r][..c]
  }

  /** Element c of row r is element |Prefix(rows, r, c)| of the
      flattening. */
  lemma PrefixIndex<T>(rows: seq<seq<T>>, r: nat, c: nat)
    requires r < |rows| && c < |rows[r]|
    ensures |Prefix(rows, r, c)| < |Concat(rows)|
    ensures Concat(rows)[|Prefix(rows, r, c)|] == rows[r][c]
  {
    assert rows == rows[..r + 1] + rows[r + 1..];
    ConcatAppend(rows[..r + 1], rows[r + 1..]);
    assert rows[..r + 1][..r] == rows[..r];
    assert Concat(rows[..r + 1]) == Concat(rows[..r]) + rows[r];
    assert rows[r] == rows[r][..c] + rows[r][c..];
  }

  /** The `while` loop of `operator++` from column iterator (r, c) in row
      r: it moves past exhausted rows to the start of the next one, and
      stops at the end of the last row once the row counter reaches the
      row count.  The result is (row counter, row, column). */
  function Settle<T>(rows: seq<seq<T>>, r: nat, c: nat): (s: (nat, nat, nat))
    requires r < |rows| && c <= |rows[r]|
    ensures s.0 <= |rows| && s.1 < |rows| && s.2 <= |rows[s.1]| && r <= s.1
    ensures s.0 < |rows| ==> s.0 == s.1 && s.2 < |rows[s.1]|
    ensures s.0 == |rows| ==> s.1 == |rows| - 1 && s.2 == |rows[s.1]|
    ensures c < |rows[r]| ==> s == (r, r, c)
    decreases |rows| - r
  {
    if c < |rows[r]| then (r, r, c)
    else if r + 1 == |rows| then (r + 1, r, c)
    else Settle(rows, r + 1, 0)
  }

  /** Settling never skips an element: the elements before the position
      stay the same, and a finished iterator has all of them behind it. */
  lemma {:induction false} SettleKeepsPrefix<T>(rows: seq<seq<T>>, r: nat, c: nat)
    requires r < |rows| && c <= |rows[r]|
    ensures var s := Settle(rows, r, c); Prefix(rows, s.1, s.2) == Prefix(rows, r, c)
    ensures Settle(rows, r, c).0 == |rows| ==> Prefix(rows, r, c) == Concat(rows)
    decreases |rows| - r
  {
    if c == |rows[r]| {
      assert rows[r][..c] == rows[r];
      if r + 1 == |rows| {
        assert rows[..r + 1] == rows;
        assert rows[..r + 1][..r] == rows[..r];
      } else {
        SettleKeepsPrefix(rows, r + 1, 0);
        assert rows[..r + 1][..r] == rows[..r];
        assert Prefix(rows, r + 1, 0) == Concat(rows[..r + 1]);
      }
    }
  }

  class RowFirstIterator<T> {
    const arr: Option<seq<seq<T>>>
    var iter: Option<(nat, nat)>
    var currRow: nat

    /** `RowFirstIterator(arr, iter)`: the row counter starts at 0. */
    constructor (arr: Option<seq<seq<T>>>, iter: Option<(nat, nat)>)
      ensures this.arr == arr && this.iter == iter && currRow == 0
    {
      this.arr, this.iter := arr, iter;
      currRow := 0;
    }

    /** The iterator points into row currRow, at a column of it or at its
        end: the state `operator++` expects. */
    predicate InRow()
      reads this
    {
      arr.Some? && iter.Some? && currRow < |arr.value| && iter.value.0 == currRow &&
      iter.value.1 <= |arr.value[currRow]|
    }

    /** The iterator points at an element. */
    predicate Live()
      reads this
    {
      InRow() && iter.value.1 < |arr.value[currRow]|
    }

    /** The `while` loop of `operator++`. */
    method SkipExhausted()
      requires InRow()
      modifies this
      ensures var s := Settle(arr.value, old(currRow), old(iter.value.1));
              currRow == s.0 && iter == Some((s.1, s.2))
    {
      var rows := arr.value;
      while iter.value.1 == |rows[currRow]|
        invariant InRow()
        invariant Settle(rows, currRow, iter.value.1) == Settle(rows, old(currRow), old(iter.value.1))
        decreases |rows| - currRow
      {
        currRow := currRow + 1;
        if currRow == |rows| {
          return;
        }
        iter := Some((currRow, 0));
      }
    }

    /** `operator++`: a no-op without an array; otherwise one column on,
        then past any exhausted rows.  The elements behind the iterator grow
        by the one it pointed at. */
    method Increment()
      requires arr.Some? ==> Live()
      modifies this
      ensures arr.None? ==> iter == old(iter) && currRow == old(currRow)
      ensures arr.Some? ==>
                var s := Settle(arr.value, old(currRow), old(iter.value.1) + 1);
                currRow == s.0 && iter == Some((s.1, s.2)) &&
                Prefix(arr.value, s.1, s.2) ==
                  Prefix(arr.value, old(currRow), old(iter.value.1)) + [arr.value[old(currRow)][old(iter.value.1)]]
    {
      if arr.None? {
        return;
      }
      ghost var r, c := currRow, iter.value.1;
      iter := Some((currRow, iter.value.1 + 1));
      SkipExhausted();
      SettleKeepsPrefix(arr.value, r, c + 1);
      assert arr.value[r][..c + 1] == arr.value[r][..c] + [arr.value[r][c]];
    }

    /** `operator*`: the element pointed at, which is the element of the
        flattening with as many elements before it as the position has. */
    function Deref(): (v: T)
      reads this
      requires arr.Some? && iter.Some? && iter.value.0 < |arr.value| && iter.value.1 < |arr.value[iter.value.0]|
      ensures |Prefix(arr.value, iter.value.0, iter.value.1)| < |Concat(arr.value)| &&
              v == Concat(arr.value)[|Prefix(arr.value, iter.value.0, iter.value.1)|]
    {
      PrefixIndex(arr.value, iter.value.0, iter.value.1);
      arr.value[iter.value.0][iter.value.1]
    }

    /** `operator==`: two iterators without an array are equal; otherwise
        the column iterators are compared. */
    predicate Equals(other: RowFirstIterator<T>)
      reads this, other
    {
      if arr.None? && other.arr.None? then true else iter == other.iter
    }
  }

  /** The position of the column iterator `end()` returns: the end of the
      last row, past every element of the flattening. */
  function EndPos<T>(rows: seq<seq<T>>): (p: (nat, nat))
    requires rows != []
    ensures p.0 < |rows| && p.1 <= |rows[p.0]| && Prefix(rows, p.0, p.1) == Concat(rows)
  {
    assert rows[..|rows| - 1] + [rows[|rows| - 1]] == rows;
    assert rows[|rows| - 1][..|rows[|rows| - 1]|] == rows[|rows| - 1];
    (|rows| - 1, |rows[|rows| - 1]|)
  }

  /** `operator==` on the iterators of one array: two iterators without an
      array are equal, equality is reflexive and symmetric, and an iterator
      pointing at an element never equals `end()`. */
  lemma EqualsAtEnd<T>(a: RowFirstIterator<T>, b: RowFirstIterator<T>, rows: seq<seq<T>>)
    ensures a.Equals(a)
    ensures a.Equals(b) <==> b.Equals(a)
    ensures a.arr.None? && b.arr.None? ==> a.Equals(b)
    ensures rows != [] && b.arr == Some(rows) && b.iter == Some(EndPos(rows)) &&
            a.iter.Some? && a.iter.value.0 < |rows| && a.iter.value.1 < |rows[a.iter.value.0]| ==>
              !a.Equals(b)
  {
    if rows != [] && b.arr == Some(rows) && b.iter == Some(EndPos(rows)) &&
       a.iter.Some? && a.iter.value.0 < |rows| && a.iter.value.1 < |rows[a.iter.value.0]| {
      var (r, c) := a.iter.value;
      var e := EndPos(rows);
      assert r < e.0 || (r == e.0 && c < e.1);
    }
  }

  /** `flattened(arr)` with its `begin` and `end`. */
  datatype RowFirstIterGenerator<T> = RowFirstIterGenerator(arr: seq<seq<T>>)
  {
    /** `begin`: null for an empty array, else the start of row 0, whether
        or not row 0 has elements. */
    method Begin() returns (it: RowFirstIterator<T>)
      ensures fresh(it) && it.currRow == 0
      ensures arr == [] ==> it.arr.None? && it.iter.None?
      ensures arr != [] ==> it.arr == Some(arr) && it.iter == Some((0, 0))
    {
      if |arr| == 0 {
        it := new RowFirstIterator(None, None);
      } else {
        it := new RowFirstIterator(Some(arr), Some((0, 0)));
      }
    }

    /** `end`: null for an empty array, else the end of the last row. */
    method End() returns (it: RowFirstIterator<T>)
      ensures fresh(it) && it.currRow == 0
      ensures arr == [] ==> it.arr.None? && it.iter.None?
      ensures arr != [] ==> it.arr == Some(arr) && it.iter == Some(EndPos(arr))
    {
      if |arr| == 0 {
        it := new RowFirstIterator(None, None);
      } else {
        it := new RowFirstIterator(Some(arr), Some(EndPos(arr)));
      }
    }

    /** A `begin` that settles like `operator++` does: it starts at the
        first element, or at the end when there is none. */
    method SettledBegin() returns (it: RowFirstIterator<T>)
      ensures fresh(it)
      ensures arr == [] ==> it.arr.None? && it.iter.None?
      ensures arr != [] ==>
                var s := Settle(arr, 0, 0);
                it.arr == Some(arr) && it.currRow == s.0 && it.iter == Some((s.1, s.2))
    {
      it := Begin();
      if |arr| != 0 {
        it.SkipExhausted();
      }
    }
  }

  /** The positions a range-for visits while it has not met `end`, with the
      elements behind each. */
  ghost predicate Visiting<T>(it: RowFirstIterator<T>, last: RowFirstIterator<T>, rows: seq<seq<T>>, vals: seq<T>)
    reads it, last
    requires rows != []
  {
    it.arr == Some(rows) && last.arr == Some(rows) && last.iter == Some(EndPos(rows)) &&
    it.iter.Some? && it.iter.value.0 < |rows| && it.iter.value.1 <= |rows[it.iter.value.0]| &&
    vals == Prefix(rows, it.iter.value.0, it.iter.value.1) &&
    (it.iter != Some(EndPos(rows)) ==> it.Live()) &&
    (it.iter == Some(EndPos(rows)) ==> vals == Concat(rows))
  }

  /** One pass of the range-for: `*it` is appended, then `++it`. */
  method Advance<T>(it: RowFirstIterator<T>, last: RowFirstIterator<T>, rows: seq<seq<T>>, vals: seq<T>)
    returns (vals': seq<T>)
    requires rows != [] && it != last && Visiting(it, last, rows, vals) && !it.Equals(last)
    modifies it
    ensures Visiting(it, last, rows, vals') && |vals'| == |vals| + 1 <= |Concat(rows)|
  {
    PrefixIndex(rows, it.iter.value.0, it.iter.value.1);
    vals' := vals + [it.Deref()];
    ghost var r, c := it.currRow, it.iter.value.1;
    it.Increment();
    ghost var s := Settle(rows, r, c + 1);
    assert it.currRow == s.0 && it.iter == Some((s.1, s.2));
    SettleKeepsPrefix(rows, s.1, s.2);
  }

  /** `for (auto v : flattened(rows))` as written: with the first row
      non-empty (or the only one) it visits every element once, row by row,
      skipping empty rows. */
  method Traverse<T>(rows: seq<seq<T>>) returns (vals: seq<T>)
    requires |rows| <= 1 || rows[0] != []
    ensures vals == Concat(rows)
  {
    var gen := RowFirstIterGenerator(rows);
    var it := gen.Begin();
    var last := gen.End();
    vals := [];
    if |rows| == 0 {
      assert it.Equals(last);
      return;
    }
    if |rows[0]| == 0 {
      assert rows == [[]];
      assert it.Equals(last);
      return;
    }
    while !it.Equals(last)
      invariant fresh(it) && it != last && Visiting(it, last, rows, vals)
      decreases |Concat(rows)| - |vals|
    {
      vals := Advance(it, last, rows, vals);
    }
  }

  /** The same loop from the settled `begin`: every array, including one
      whose first row is empty, is visited in full. */
  method TraverseSettled<T>(rows: seq<seq<T>>) returns (vals: seq<T>)
    ensures vals == Concat(rows)
  {
    var gen := RowFirstIterGenerator(rows);
    var it := gen.SettledBegin();
    var last := gen.End();
    vals := [];
    if |rows| == 0 {
      assert it.Equals(last);
      return;
    }
    SettleKeepsPrefix(rows, 0, 0);
    while !it.Equals(last)
      invariant fresh(it) && it != last && Visiting(it, last, rows, vals)
      decreases |Concat(rows)| - |vals|
    {
      vals := Advance(it, last, rows, vals);
    }
  }

  /** With an empty first row and elements after it, `begin` as written is
      not `end` yet points at no element: the first dereference reads past
      the end of row 0. */
  lemma EmptyFirstRow()
    ensures var rows: seq<seq<int>> := [[], [7]];
            (0, 0) != EndPos(rows) && !(0 < |rows[0]|) && Concat(rows) == [7]
  {
    var rows: seq<seq<int>> := [[], [7]];
    assert rows[..1] == [[]];
    assert rows[..1][..0] == [];
  }
}
