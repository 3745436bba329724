/** The dense N-dimensional array `Mat<E>` (mat.hpp) and the partial-index
    cursors that its `operator[]` hands out (mat_accessor.hpp).

    Elements are stored row-major in one flat sequence; `strides[k]` is the
    distance between consecutive indices on axis k.  The template's element
    operations (`+`, `-`, `T(e)`, `Element(0)`) are passed in as parameters. */
module Mats {
  import opened Wrappers

  // ---------------------------------------------------------------- shape

  /** Element count of an array with dimensions `dims`, accumulated from the
      first dimension to the last as the constructor's loop does. */
  function Product(dims: seq<nat>): nat
  {
    if |dims| == 0 then 1 else Product(dims[..|dims| - 1]) * dims[|dims| - 1]
  }

  /** The product can also be taken by peeling off the first dimension. */
  lemma {:induction false} ProductCons(dims: seq<nat>)
    requires |dims| >= 1
    ensures Product(dims) == dims[0] * Product(dims[1..])
  {
    if |dims| == 1 {
      assert dims[1..] == [];
      assert dims[..0] == [];
    } else {
      var init := dims[..|dims| - 1];
      var last := dims[|dims| - 1];
      ProductCons(init);
      assert init[1..] == dims[1..][..|dims[1..]| - 1];
      assert Product(dims[1..]) == Product(init[1..]) * last;
      calc {
        Product(dims);
        Product(init) * last;
        (dims[0] * Product(init[1..])) * last;
        dims[0] * (Product(init[1..]) * last);
        dims[0] * Product(dims[1..]);
      }
    }
  }

  /** Row-major stride of every axis: the product of the dimensions after it. */
  function Strides(dims: seq<nat>): (s: seq<nat>)
    ensures |s| == |dims|
  {
    seq(|dims|, i requires 0 <= i < |dims| => Product(dims[i + 1..]))
  }

  /** The last axis has stride 1 and each other stride is the next stride
      times the next dimension. */
  lemma StridesShape(dims: seq<nat>)
    requires |dims| >= 1
    ensures Strides(dims)[|dims| - 1] == 1
    ensures forall i :: 0 <= i < |dims| - 1 ==>
              Strides(dims)[i] == Strides(dims)[i + 1] * dims[i + 1]
  {
    assert dims[|dims|..] == [];
    forall i | 0 <= i < |dims| - 1
      ensures Strides(dims)[i] == Strides(dims)[i + 1] * dims[i + 1]
    {
      ProductCons(dims[i + 1..]);
      assert dims[i + 1..][1..] == dims[i + 2..];
    }
  }

  /** Dimension i times stride i is the stride of axis i - 1, or the
      product of all dimensions for axis 0. */
  lemma DimensionStride(dims: seq<nat>, i: nat)
    requires i < |dims|
    ensures dims[i] * Strides(dims)[i] == if i == 0 then Product(dims) else Strides(dims)[i - 1]
  {
    var s := Strides(dims);
    if i == 0 {
      assert dims[0] * s[0] == Product(dims) by {
        ProductCons(dims);
        assert s[0] == Product(dims[1..]);
      }
    } else {
      assert dims[i] * s[i] == s[i - 1] by {
        StridesShape(dims);
      }
    }
  }

  /** The strides of `dims` are the first stride followed by the strides of the
      remaining dimensions. */
  lemma StridesTail(dims: seq<nat>)
    requires |dims| >= 1
    ensures Strides(dims) == [Product(dims[1..])] + Strides(dims[1..])
  {
    var a := Strides(dims);
    var t := Strides(dims[1..]);
    var b := [Product(dims[1..])] + t;
    assert |a| == |b|;
    forall i | 0 <= i < |dims|
      ensures a[i] == b[i]
    {
      assert a[i] == Product(dims[i + 1..]);
      if i > 0 {
        assert b[i] == t[i - 1] == Product(dims[1..][i..]);
        assert dims[1..][i..] == dims[i + 1..];
      }
    }
  }

  /** Flat position Σ idx[k]·strides[k]. */
  function StridedSum(strides: seq<nat>, idx: seq<nat>): nat
    requires |idx| <= |strides|
  {
    if |idx| == 0 then 0 else idx[0] * strides[0] + StridedSum(strides[1..], idx[1..])
  }

  /** Row-major flat offset of a full or partial index chain. */
  function Offset(dims: seq<nat>, idx: seq<nat>): nat
    requires |idx| <= |dims|
  {
    StridedSum(Strides(dims), idx)
  }

  /** Every index is below its axis's dimension. */
  predicate InRange(dims: seq<nat>, idx: seq<nat>)
  {
    |idx| == |dims| && forall k :: 0 <= k < |idx| ==> idx[k] < dims[k]
  }

  lemma MulLeq(a: nat, b: nat, c: nat)
    requires a <= b
    ensures a * c <= b * c
  {
  }

  /** Mixed-radix bound: a digit below d followed by a remainder below p stays
      below d·p. */
  lemma DigitBound(a: nat, d: nat, r: nat, p: nat)
    requires a < d && r < p
    ensures a * p + r < d * p
  {
    MulLeq(a + 1, d, p);
    assert (a + 1) * p == a * p + p;
  }

  /** Offset of a chain on `dims` is its first index times the first stride
      plus the offset of the rest on the remaining dimensions. */
  lemma OffsetCons(dims: seq<nat>, idx: seq<nat>)
    requires 1 <= |idx| <= |dims|
    ensures Offset(dims, idx) == idx[0] * Product(dims[1..]) + Offset(dims[1..], idx[1..])
  {
    StridesTail(dims);
    assert Strides(dims)[1..] == Strides(dims[1..]);
  }

  /** An in-range index chain lands inside the element storage. */
  lemma {:induction false} OffsetBelowProduct(dims: seq<nat>, idx: seq<nat>)
    requires InRange(dims, idx)
    ensures Offset(dims, idx) < Product(dims)
  {
    if |dims| > 0 {
      ProductCons(dims);
      OffsetCons(dims, idx);
      assert InRange(dims[1..], idx[1..]) by {
        forall k | 0 <= k < |idx[1..]| ensures idx[1..][k] < dims[1..][k] {
          assert idx[1..][k] == idx[k + 1] && dims[1..][k] == dims[k + 1];
        }
      }
      OffsetBelowProduct(dims[1..], idx[1..]);
      DigitBound(idx[0], dims[0], Offset(dims[1..], idx[1..]), Product(dims[1..]));
    }
  }

  /** A chain whose first index is at least the first dimension lands at or
      past the end of the element storage. */
  lemma OffsetPastFirstAxis(dims: seq<nat>, idx: seq<nat>)
    requires |dims| >= 1 && |idx| == |dims| && idx[0] >= dims[0]
    ensures Offset(dims, idx) >= Product(dims)
  {
    OffsetCons(dims, idx);
    ProductCons(dims);
    MulLeq(dims[0], idx[0], Product(dims[1..]));
  }

  // ---------------------------------------------------------------- cursors

  /** A partial index into a Mat: the accessor's (matrix reference, axis,
      index, offset).  It refers to the matrix and copies no element. */
  datatype Cursor<E> = Cursor(mat: Mat<E>, axis: nat, index: nat, offset: nat)
  {
    /** `cursor[i]`: range-checks i against the next axis (the NDEBUG-off
        `assertRange`), then moves one axis down, folding the current index
        into the offset with the current axis's stride. */
    function IndexFurther(i: nat): (r: Result<Cursor<E>>)
      requires mat.Valid() && axis + 1 < |mat.dims|
      ensures r.Err? <==> mat.dims[axis + 1] <= i
      ensures r.Err? ==> r.error == OutOfRange
      ensures r.Ok? ==> r.value.mat == mat && r.value.axis == axis + 1 && r.value.index == i
    {
      if i >= mat.dims[axis + 1] then Err(OutOfRange)
      else Ok(Cursor(mat, axis + 1, i, offset + index * mat.strides[axis]))
    }

    /** The element position a read or write goes to: only a cursor on the
        last axis may be used (an `assert`), and the position goes through
        `vector::at`. */
    function Position(): (r: Result<nat>)
      reads mat
      requires mat.Valid()
      ensures r.Ok? ==> r.value < |mat.elements|
      ensures r.Err? && r.error == AssertionFailure <==> axis != |mat.dims| - 1
      ensures r.Err? ==> r.error == AssertionFailure || r.error == OutOfRange
    {
      if axis != |mat.dims| - 1 then Err(AssertionFailure)
      else if offset + index >= |mat.elements| then Err(OutOfRange)
      else Ok(offset + index)
    }

    /** `operator E`: the element under the cursor. */
    function Read(): (r: Result<E>)
      reads mat
      requires mat.Valid()
      ensures r.Ok? <==> Position().Ok?
      ensures r.Ok? ==> r.value == mat.elements[Position().value]
      ensures r.Err? ==> r.error == Position().error
    {
      match Position()
      case Err(e) => Err(e)
      case Ok(p) => Ok(mat.elements[p])
    }

    /** `MatAccessor::operator=`: stores v at the cursor's position; exactly
        that one element changes. */
    method Write(v: E) returns (o: Outcome)
      requires mat.Valid()
      modifies mat
      ensures o.Pass? <==> old(Position()).Ok?
      ensures o.Pass? ==> mat.elements == old(mat.elements)[old(Position()).value := v]
      ensures o.Fail? ==> mat.elements == old(mat.elements) && o.error == old(Position()).error
    {
      var p := Position();
      match p {
        case Err(e) => o := Fail(e);
        case Ok(pos) =>
          mat.elements := mat.elements[pos := v];
          o := Pass;
      }
    }
  }

  /** Where the chain `c[rest[0]][rest[1]]…` ends up, or what it raises. */
  function Chase<E>(c: Cursor<E>, rest: seq<nat>): (r: Result<nat>)
    reads c.mat
    requires c.mat.Valid() && c.axis + |rest| < |c.mat.dims|
    ensures r.Ok? ==> r.value < |c.mat.elements|
    decreases |rest|
  {
    if |rest| == 0 then c.Position()
    else
      match c.IndexFurther(rest[0])
      case Err(e) => Err(e)
      case Ok(next) => Chase(next, rest[1..])
  }

  /** Where the chain `m[idx[0]][idx[1]]…` ends up, or what it raises. */
  function Locate<E>(m: Mat<E>, idx: seq<nat>): (r: Result<nat>)
    reads m
    requires m.Valid() && 1 <= |idx| <= |m.dims|
    ensures r.Ok? ==> r.value < |m.elements|
  {
    match m.Index(idx[0])
    case Err(e) => Err(e)
    case Ok(c) => Chase(c, idx[1..])
  }

  /** Reading `m[idx[0]][idx[1]]…`. */
  function Get<E>(m: Mat<E>, idx: seq<nat>): Result<E>
    reads m
    requires m.Valid() && 1 <= |idx| <= |m.dims|
  {
    match Locate(m, idx)
    case Err(e) => Err(e)
    case Ok(p) => Ok(m.elements[p])
  }

  /** The indices `rest` are each below the dimension of their axis, the
      first of them sitting on axis `from`. */
  predicate TailInRange(dims: seq<nat>, from: nat, rest: seq<nat>)
  {
    from + |rest| <= |dims| && forall j :: 0 <= j < |rest| ==> rest[j] < dims[from + j]
  }

  lemma TailInRangeCons(dims: seq<nat>, from: nat, rest: seq<nat>)
    requires |rest| >= 1 && from + |rest| <= |dims|
    ensures TailInRange(dims, from, rest) <==>
              rest[0] < dims[from] && TailInRange(dims, from + 1, rest[1..])
  {
    if rest[0] < dims[from] && TailInRange(dims, from + 1, rest[1..]) {
      forall j | 0 <= j < |rest| ensures rest[j] < dims[from + j] {
        if j > 0 {
          assert rest[j] == rest[1..][j - 1];
        }
      }
    }
  }

  lemma InRangeCons(dims: seq<nat>, idx: seq<nat>)
    requires |idx| == |dims| >= 1
    ensures InRange(dims, idx) <==> idx[0] < dims[0] && TailInRange(dims, 1, idx[1..])
  {
    if idx[0] < dims[0] && TailInRange(dims, 1, idx[1..]) {
      forall k | 0 <= k < |idx| ensures idx[k] < dims[k] {
        if k > 0 {
          assert idx[k] == idx[1..][k - 1];
        }
      }
    }
  }

  lemma StridedSumCons(s: seq<nat>, i: nat, rest: seq<nat>)
    requires |rest| + 1 <= |s|
    ensures StridedSum(s, [i] + rest) == i * s[0] + StridedSum(s[1..], rest)
  {
    assert ([i] + rest)[1..] == rest;
  }

  /** A chain that runs to the last axis reaches the strided offset, or raises
      out_of_range; it never trips the last-axis assertion. */
  lemma {:induction false} ChaseFull<E>(c: Cursor<E>, rest: seq<nat>)
    requires c.mat.Valid() && c.axis + |rest| == |c.mat.dims| - 1
    ensures var p := c.offset + StridedSum(c.mat.strides[c.axis..], [c.index] + rest);
            Chase(c, rest) ==
              if TailInRange(c.mat.dims, c.axis + 1, rest) && p < |c.mat.elements|
              then Ok(p) else Err(OutOfRange)
    decreases |rest|
  {
    var m := c.mat;
    var s := m.strides[c.axis..];
    if |rest| == 0 {
      assert StridedSum(s, [c.index]) == c.index by {
        StridedSumCons(s, c.index, rest);
        StridesShape(m.dims);
        assert s[0] == 1;
      }
    } else {
      TailInRangeCons(m.dims, c.axis + 1, rest);
      if rest[0] < m.dims[c.axis + 1] {
        var next := Cursor(m, c.axis + 1, rest[0], c.offset + c.index * m.strides[c.axis]);
        assert c.IndexFurther(rest[0]) == Ok(next);
        assert Chase(c, rest) == Chase(next, rest[1..]);
        ChaseFull(next, rest[1..]);
        assert next.offset + StridedSum(m.strides[next.axis..], [next.index] + rest[1..]) ==
               c.offset + StridedSum(s, [c.index] + rest) by {
          StridedSumCons(s, c.index, rest);
          assert m.strides[next.axis..] == s[1..];
          assert [rest[0]] + rest[1..] == rest;
        }
      } else {
        assert c.IndexFurther(rest[0]).Err?;
      }
    }
  }

  /** A full index chain on a well-formed Mat: it reads the row-major offset
      when every index is in range and raises out_of_range otherwise, the
      first axis included (an index equal to dimension(0) slips past
      `Mat::operator[]` but `vector::at` catches it). */
  lemma LocateFull<E>(m: Mat<E>, idx: seq<nat>)
    requires m.WellFormed() && |idx| == |m.dims|
    ensures Locate(m, idx) ==
              if InRange(m.dims, idx) then Ok(Offset(m.dims, idx)) else Err(OutOfRange)
  {
    InRangeCons(m.dims, idx);
    if idx[0] <= m.dims[0] {
      var c := Cursor(m, 0, idx[0], 0);
      assert m.Index(idx[0]) == Ok(c);
      ChaseFull(c, idx[1..]);
      assert [idx[0]] + idx[1..] == idx;
      assert m.strides[0..] == Strides(m.dims);
      if InRange(m.dims, idx) {
        OffsetBelowProduct(m.dims, idx);
      } else if TailInRange(m.dims, 1, idx[1..]) {
        OffsetPastFirstAxis(m.dims, idx);
      }
    }
  }

  /** The flat `operator()(index)` and the indexed read agree: on a
      well-formed Mat an in-range full index reads the element at its
      row-major offset, which is within the element vector. */
  lemma FlatReadAtOffset<E>(m: Mat<E>, idx: seq<nat>)
    requires m.WellFormed() && |idx| == |m.dims| && InRange(m.dims, idx)
    ensures Offset(m.dims, idx) < |m.elements|
    ensures Get(m, idx) == Ok(m.At(Offset(m.dims, idx)))
  {
    LocateFull(m, idx);
  }

  /** A chain that stops before the last axis and stays in range ends at the
      last-axis assertion. */
  lemma {:induction false} ChasePartial<E>(c: Cursor<E>, rest: seq<nat>)
    requires c.mat.Valid() && c.axis + |rest| < |c.mat.dims| - 1
    requires TailInRange(c.mat.dims, c.axis + 1, rest)
    ensures Chase(c, rest) == Err(AssertionFailure)
    decreases |rest|
  {
    if |rest| > 0 {
      TailInRangeCons(c.mat.dims, c.axis + 1, rest);
      var next := c.IndexFurther(rest[0]).value;
      ChasePartial(next, rest[1..]);
    }
  }

  /** Writing `m[idx[0]][idx[1]]… = v` by walking cursors as the source does:
      it changes exactly the element the chain locates, or nothing when the
      chain raises. */
  method Put<E>(m: Mat<E>, idx: seq<nat>, v: E) returns (o: Outcome)
    requires m.Valid() && 1 <= |idx| <= |m.dims|
    modifies m
    ensures o.Pass? <==> old(Locate(m, idx)).Ok?
    ensures o.Pass? ==> m.elements == old(m.elements)[old(Locate(m, idx)).value := v]
    ensures o.Fail? ==> m.elements == old(m.elements) && o.error == old(Locate(m, idx)).error
  {
    var first := m.Index(idx[0]);
    if first.Err? {
      return Fail(first.error);
    }
    var c := first.value;
    var k := 1;
    while k < |idx|
      invariant 1 <= k <= |idx|
      invariant c.mat == m && c.axis == k - 1
      invariant Chase(c, idx[k..]) == Locate(m, idx)
    {
      assert idx[k..][1..] == idx[k + 1..];
      var r := c.IndexFurther(idx[k]);
      if r.Err? {
        return Fail(r.error);
      }
      c := r.value;
      k := k + 1;
    }
    o := c.Write(v);
  }

  // ---------------------------------------------------------------- the array

  /** Row-major element count, computed as the constructor does. */
  method ComputeSize(dims: seq<nat>) returns (size: nat)
    ensures size == Product(dims)
  {
    size := 1;
    var i := 0;
    while i < |dims|
      invariant 0 <= i <= |dims|
      invariant size == Product(dims[..i])
    {
      assert dims[..i + 1][..i] == dims[..i];
      size := size * dims[i];
      i := i + 1;
    }
    assert dims[..|dims|] == dims;
  }

  /** The offset multipliers: the last is 1, and the scan runs from the back,
      multiplying in one dimension per step. */
  method ComputeStrides(dims: seq<nat>) returns (strides: seq<nat>)
    requires |dims| >= 1
    ensures strides == Strides(dims)
  {
    var n := |dims|;
    StridesShape(dims);
    strides := [1];
    var k := n - 1;
    while k > 0
      invariant 0 <= k <= n - 1
      invariant strides == Strides(dims)[k..]
    {
      strides := [strides[0] * dims[k]] + strides;
      k := k - 1;
    }
  }

  /** `Mat<Element>`: dimensions, strides and size are fixed at construction;
      only the elements change. */
  class Mat<E> {
    const dims: seq<nat>
    const strides: seq<nat>
    const size: nat
    var elements: seq<E>

    /** The shape bookkeeping agrees with the dimensions.  The element list
        constructor does not check the list's length, so this says nothing
        about `elements`. */
    ghost predicate Valid()
    {
      |dims| >= 1 && strides == Strides(dims) && size == Product(dims)
    }

    /** A valid Mat that holds exactly one element per index. */
    ghost predicate WellFormed()
      reads this
    {
      Valid() && |elements| == size
    }

    /** `Mat(dimensions, elements)`: copies the list without comparing its
        length with the product of the dimensions. */
    constructor FromElements(dimensions: seq<nat>, elems: seq<E>)
      requires |dimensions| >= 1
      ensures Valid() && dims == dimensions && elements == elems
    {
      var sz := ComputeSize(dimensions);
      var st := ComputeStrides(dimensions);
      dims, strides, size := dimensions, st, sz;
      elements := elems;
    }

    /** `Mat(dimensions)`: size() copies of Element(0). */
    constructor Zeros(dimensions: seq<nat>, zero: E)
      requires |dimensions| >= 1
      ensures WellFormed() && dims == dimensions
      ensures elements == seq(Product(dimensions), _ => zero)
    {
      var sz := ComputeSize(dimensions);
      var st := ComputeStrides(dimensions);
      dims, strides, size := dimensions, st, sz;
      elements := seq(sz, _ => zero);
    }

    /** `Mat(dimensions, generator)`: element i is generator(i), the generator
        being called for i = 0, 1, … in turn. */
    constructor Generate(dimensions: seq<nat>, generator: nat -> E)
      requires |dimensions| >= 1
      ensures WellFormed() && dims == dimensions
      ensures |elements| == Product(dimensions)
      ensures forall i :: 0 <= i < |elements| ==> elements[i] == generator(i)
    {
      var sz := ComputeSize(dimensions);
      var st := ComputeStrides(dimensions);
      dims, strides, size := dimensions, st, sz;
      elements := [];
      new;
      var i := 0;
      while i < sz
        invariant 0 <= i <= sz
        invariant |elements| == i
        invariant forall j :: 0 <= j < i ==> elements[j] == generator(j)
      {
        elements := elements + [generator(i)];
        i := i + 1;
      }
    }

    /** `size()`: the element count fixed at construction, the product of
        the dimensions. */
    function Size(): (n: nat)
      ensures Valid() ==> n == Product(dims)
    {
      size
    }

    /** `dimensions()`: the rank, which is at least 1 and is the number of
        strides. */
    function Dimensions(): (n: nat)
      ensures Valid() ==> 1 <= n && |strides| == n
    {
      |dims|
    }

    /** `dimension(i)`; an axis past the rank is undefined behaviour.  It
        is the number of axis-i strides that make up one stride of the axis
        before, or the whole size for axis 0. */
    function Dimension(i: nat): (d: nat)
      requires i < |dims|
      ensures Valid() ==> d * strides[i] == if i == 0 then size else strides[i - 1]
    {
      DimensionStride(dims, i);
      dims[i]
    }

    /** First-axis `operator[]`.  The check is `index > dimension(0)`, so
        index == dimension(0) is let through. */
    function Index(i: nat): (r: Result<Cursor<E>>)
      requires Valid()
      ensures r.Err? <==> dims[0] < i
      ensures r.Err? ==> r.error == OutOfRange
      ensures r.Ok? ==> r.value.mat == this && r.value.axis == 0 && r.value.index == i
    {
      if i > dims[0] then Err(OutOfRange) else Ok(Cursor(this, 0, i, 0))
    }

    /** Flat `operator()(index)`; no range check.  On a well-formed matrix
        the flat read at the row-major offset of an index is what the
        indexed read returns (`FlatReadAtOffset`). */
    function At(i: nat): (v: E)
      reads this
      requires i < |elements|
      ensures v in elements
    {
      elements[i]
    }

    /** Flat `operator()(index, value)`. */
    method SetAt(i: nat, v: E)
      requires i < |elements|
      modifies this
      ensures elements == old(elements)[i := v]
    {
      elements := elements[i := v];
    }

    /** `operator()({i0, i1, …})` as written: the position is Σ dims[k]·i_k. */
    method BraceRead(indices: seq<nat>) returns (r: Result<E>)
      requires Valid()
      requires |indices| == |dims| ==> BraceOffset(dims, indices) < |elements|
      ensures |indices| != |dims| ==> r == Err(AssertionFailure)
      ensures |indices| == |dims| ==> r == Ok(elements[BraceOffset(dims, indices)])
    {
      if |indices| != |dims| {
        return Err(AssertionFailure);
      }
      var index := 0;
      var i := 0;
      while i < |indices|
        invariant 0 <= i <= |indices|
        invariant index == BraceOffset(dims[..i], indices[..i])
      {
        BraceOffsetSnoc(dims[..i + 1], indices[..i + 1]);
        assert dims[..i + 1][..i] == dims[..i] && indices[..i + 1][..i] == indices[..i];
        index := index + dims[i] * indices[i];
        i := i + 1;
      }
      assert dims[..i] == dims && indices[..i] == indices;
      r := Ok(elements[index]);
    }

    /** The brace read with the position the other accessors use:
        Σ strides[k]·i_k.  It agrees with the cursor chain. */
    method BraceReadRowMajor(indices: seq<nat>) returns (r: Result<E>)
      requires WellFormed()
      ensures |indices| != |dims| ==> r == Err(AssertionFailure)
      ensures InRange(dims, indices) ==> r == Get(this, indices)
      ensures |indices| == |dims| && !InRange(dims, indices) ==> r == Err(OutOfRange)
    {
      if |indices| != |dims| {
        return Err(AssertionFailure);
      }
      var index := 0;
      var i := |indices|;
      while i > 0
        invariant 0 <= i <= |indices|
        invariant index == StridedSum(strides[i..], indices[i..])
      {
        i := i - 1;
        index := indices[i] * strides[i] + index;
        assert strides[i..][1..] == strides[i + 1..] && indices[i..][1..] == indices[i + 1..];
      }
      LocateFull(this, indices);
      if index < |elements| {
        r := Ok(elements[index]);
      } else {
        r := Err(OutOfRange);
      }
      if InRange(dims, indices) {
        OffsetBelowProduct(dims, indices);
      } else {
        var k :| 0 <= k < |indices| && indices[k] >= dims[k];
        if k == 0 {
          OffsetPastFirstAxis(dims, indices);
        } else {
          r := Err(OutOfRange);
        }
      }
    }

    /** `operator=(list)`: the list must be exactly as long as the elements
        (an assert); element i becomes list[i]. */
    method AssignList(list: seq<E>) returns (o: Outcome)
      modifies this
      ensures |list| != old(|elements|) ==> o == Fail(AssertionFailure) && elements == old(elements)
      ensures |list| == old(|elements|) ==> o == Pass && elements == list
    {
      if |elements| != |list| {
        return Fail(AssertionFailure);
      }
      var i := 0;
      while i < |list|
        invariant 0 <= i <= |list| && |elements| == |list|
        invariant elements[..i] == list[..i]
        invariant elements[i..] == old(elements)[i..]
      {
        elements := elements[i := list[i]];
        i := i + 1;
      }
      o := Pass;
    }

    /** `operator+=(list)`: element i becomes add(element i, list[i]). */
    method AddAssignList(list: seq<E>, add: (E, E) -> E) returns (o: Outcome)
      modifies this
      ensures |list| != old(|elements|) ==> o == Fail(AssertionFailure) && elements == old(elements)
      ensures |list| == old(|elements|) ==> o == Pass && |elements| == |list|
      ensures |list| == old(|elements|) ==>
                forall i :: 0 <= i < |list| ==> elements[i] == add(old(elements)[i], list[i])
    {
      if |elements| != |list| {
        return Fail(AssertionFailure);
      }
      var i := 0;
      while i < |list|
        invariant 0 <= i <= |list| && |elements| == |list|
        invariant forall j :: 0 <= j < i ==> elements[j] == add(old(elements)[j], list[j])
        invariant elements[i..] == old(elements)[i..]
      {
        elements := elements[i := add(elements[i], list[i])];
        i := i + 1;
      }
      o := Pass;
    }

    /** The shape test of `+=`, `+` and `-`: each of this Mat's dimensions is
        compared with the other's (an assert), so the other may have extra
        trailing axes. */
    predicate SameLeadingDims(other: Mat<E>)
      requires |other.dims| >= |dims|
    {
      other.dims[..|dims|] == dims
    }

    /** `operator+=(Mat)`: element i becomes add(element i, other's element i);
        `other` may be this very Mat. */
    method AddAssign(other: Mat<E>, add: (E, E) -> E) returns (o: Outcome)
      requires |other.dims| >= |dims|
      requires SameLeadingDims(other) ==> |other.elements| >= |elements|
      modifies this
      ensures !SameLeadingDims(other) ==> o == Fail(AssertionFailure) && elements == old(elements)
      ensures SameLeadingDims(other) ==> o == Pass && |elements| == old(|elements|)
      ensures SameLeadingDims(other) ==>
                forall i :: 0 <= i < |elements| ==> elements[i] == add(old(elements)[i], old(other.elements)[i])
    {
      if !SameLeadingDims(other) {
        return Fail(AssertionFailure);
      }
      var n := |elements|;
      var i := 0;
      while i < n
        invariant 0 <= i <= n && |elements| == n
        invariant forall j :: 0 <= j < i ==> elements[j] == add(old(elements)[j], old(other.elements)[j])
        invariant elements[i..] == old(elements)[i..]
        invariant other != this ==> other.elements == old(other.elements)
      {
        elements := elements[i := add(elements[i], other.elements[i])];
        i := i + 1;
      }
      o := Pass;
    }

    /** Shared body of `operator+` and `operator-`: a new Mat with this Mat's
        dimensions whose element i is op(element i, other's element i). */
    method Combine(other: Mat<E>, op: (E, E) -> E) returns (r: Result<Mat<E>>)
      requires Valid()
      requires |other.dims| >= |dims|
      requires SameLeadingDims(other) ==> |elements| >= size && |other.elements| >= size
      ensures !SameLeadingDims(other) ==> r == Err(AssertionFailure)
      ensures SameLeadingDims(other) ==>
                r.Ok? && fresh(r.value) && r.value.WellFormed() && r.value.dims == dims
      ensures SameLeadingDims(other) ==>
                forall i :: 0 <= i < size ==> r.value.elements[i] == op(elements[i], other.elements[i])
    {
      if !SameLeadingDims(other) {
        return Err(AssertionFailure);
      }
      var out: seq<E> := [];
      var i := 0;
      while i < size
        invariant 0 <= i <= size
        invariant |out| == i
        invariant forall j :: 0 <= j < i ==> out[j] == op(elements[j], other.elements[j])
      {
        out := out + [op(elements[i], other.elements[i])];
        i := i + 1;
      }
      var m := new Mat<E>.FromElements(dims, out);
      r := Ok(m);
    }

    /** `operator+(Mat)`. */
    method Plus(other: Mat<E>, add: (E, E) -> E) returns (r: Result<Mat<E>>)
      requires Valid()
      requires |other.dims| >= |dims|
      requires SameLeadingDims(other) ==> |elements| >= size && |other.elements| >= size
      ensures !SameLeadingDims(other) ==> r == Err(AssertionFailure)
      ensures SameLeadingDims(other) ==>
                r.Ok? && fresh(r.value) && r.value.WellFormed() && r.value.dims == dims
      ensures SameLeadingDims(other) ==>
                forall i :: 0 <= i < size ==> r.value.elements[i] == add(elements[i], other.elements[i])
    {
      r := Combine(other, add);
    }

    /** `operator-(Mat)`. */
    method Minus(other: Mat<E>, sub: (E, E) -> E) returns (r: Result<Mat<E>>)
      requires Valid()
      requires |other.dims| >= |dims|
      requires SameLeadingDims(other) ==> |elements| >= size && |other.elements| >= size
      ensures !SameLeadingDims(other) ==> r == Err(AssertionFailure)
      ensures SameLeadingDims(other) ==>
                r.Ok? && fresh(r.value) && r.value.WellFormed() && r.value.dims == dims
      ensures SameLeadingDims(other) ==>
                forall i :: 0 <= i < size ==> r.value.elements[i] == sub(elements[i], other.elements[i])
    {
      r := Combine(other, sub);
    }

    /** `clone<T>()`: same dimensions, element i is the plain conversion
        cast(element i); nothing is clamped. */
    method Clone<T>(cast: E -> T) returns (c: Mat<T>)
      requires Valid() && |elements| >= size
      ensures fresh(c) && c.WellFormed() && c.dims == dims
      ensures forall i :: 0 <= i < size ==> c.elements[i] == cast(elements[i])
    {
      c := new Mat<T>.FromElements(dims, []);
      var i := 0;
      while i < size
        invariant 0 <= i <= size
        invariant |c.elements| == i
        invariant forall j :: 0 <= j < i ==> c.elements[j] == cast(elements[j])
      {
        c.elements := c.elements + [cast(elements[i])];
        i := i + 1;
      }
    }
  }

  /** Position the brace-list read computes: Σ dims[k]·indices[k]. */
  function BraceOffset(dims: seq<nat>, indices: seq<nat>): nat
    requires |indices| == |dims|
  {
    if |dims| == 0 then 0
    else BraceOffset(dims[..|dims| - 1], indices[..|dims| - 1]) + dims[|dims| - 1] * indices[|dims| - 1]
  }

  lemma BraceOffsetSnoc(dims: seq<nat>, indices: seq<nat>)
    requires |indices| == |dims| >= 1
    ensures BraceOffset(dims, indices) ==
            BraceOffset(dims[..|dims| - 1], indices[..|dims| - 1]) + dims[|dims| - 1] * indices[|dims| - 1]
  {
  }

  /** The brace read's position is not the row-major one: on a 2×2 array the
      index pair (0, 1) is sent to position 2 instead of 1. */
  lemma BraceOffsetMisplacesElement()
    ensures BraceOffset([2, 2], [0, 1]) == 2
    ensures Offset([2, 2], [0, 1]) == 1
  {
    assert [2, 2][..1] == [2] && [0, 1][..1] == [0];
    assert [2][..0] == [] && [0][..0] == [];
    assert Strides([2, 2]) == [2, 1] by {
      assert [2, 2][1..] == [2] && [2, 2][2..] == [];
      assert [2][..0] == [];
    }
  }
}
