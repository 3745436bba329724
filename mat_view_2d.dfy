/** `MatView2D` (mat_view_2d.hpp): a non-owning two-dimensional view onto
    channel 0 of a Mat of rank three or more. */
module MatViews {
  import opened Wrappers
  import opened Mats
  import opened Grids

  /** The view holds a reference to its Mat and nothing else. */
  datatype View<E> = View(mat: Mat<E>)
  {
    /** `dimensions()`: a view is two-dimensional whatever the Mat's rank. */
    function Dimensions(): nat
    {
      2
    }

    /** `size()`: the underlying Mat's element count. */
    function Size(): nat
    {
      mat.size
    }

    /** `height()`: the Mat's first dimension. */
    function Height(): nat
      requires |mat.dims| >= 1
    {
      mat.dims[0]
    }

    /** `width()`: the Mat's second dimension. */
    function Width(): nat
      requires |mat.dims| >= 2
    {
      mat.dims[1]
    }

    /** `view[y][x]` read: the chain `mat[y][x][0]`. */
    function Read(y: nat, x: nat): Result<E>
      reads mat
      requires mat.Valid() && |mat.dims| >= 3
    {
      Get(mat, [y, x, 0])
    }

    /** `view[y][x] = v`: the chain `mat[y][x][0] = v`.  On an image it
        stores v in channel 0 of pixel (y, x) and changes nothing else. */
    method Write(y: nat, x: nat, v: E) returns (o: Outcome)
      requires mat.Valid() && |mat.dims| >= 3
      modifies mat
      ensures o.Pass? <==> old(Locate(mat, [y, x, 0])).Ok?
      ensures o.Pass? ==> mat.elements == old(mat.elements)[old(Locate(mat, [y, x, 0])).value := v]
      ensures o.Fail? ==> mat.elements == old(mat.elements)
      ensures old(IsImage(mat)) ==> (o.Pass? <==> y < Height() && x < Width() && 0 < mat.dims[2])
      ensures old(IsImage(mat)) && o.Pass? ==>
                IsImage(mat) &&
                Idx3(Width(), mat.dims[2], y, x, 0) < |old(mat.elements)| &&
                mat.elements == old(mat.elements)[Idx3(Width(), mat.dims[2], y, x, 0) := v]
    {
      if IsImage(mat) {
        LocateFull(mat, [y, x, 0]);
        Offset3(mat.dims[0], mat.dims[1], mat.dims[2], y, x, 0);
        assert mat.dims == [mat.dims[0], mat.dims[1], mat.dims[2]];
        assert InRange(mat.dims, [y, x, 0]) <==> y < Height() && x < Width() && 0 < mat.dims[2];
      }
      o := Put(mat, [y, x, 0], v);
    }
  }

  /** The view's shape: rank 2, the Mat's full element count as its size,
      and the Mat's first two dimensions as height and width. */
  lemma ViewShape<E>(v: View<E>)
    requires v.mat.Valid() && |v.mat.dims| == 3
    ensures v.Dimensions() == 2
    ensures v.Size() == v.Height() * v.Width() * v.mat.dims[2]
  {
    assert v.mat.dims == [v.mat.dims[0], v.mat.dims[1], v.mat.dims[2]];
    Shape3(v.mat.dims[0], v.mat.dims[1], v.mat.dims[2]);
  }

  /** Reading `view[y][x]` on an image yields channel 0 of pixel (y, x);
      an index past the height or width, or an image without channels,
      raises out_of_range. */
  lemma ViewReadsChannelZero<E>(v: View<E>, y: nat, x: nat)
    requires IsImage(v.mat)
    ensures v.Read(y, x) ==
              if y < v.Height() && x < v.Width() && 0 < v.mat.dims[2]
              then Ok(At3(v.mat.elements, v.Height(), v.Width(), v.mat.dims[2], y, x, 0))
              else Err(OutOfRange)
  {
    Get3(v.mat, y, x, 0);
  }
}
