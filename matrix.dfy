/** Compile-time square-matrix generation (matrix.hpp).  `Matrix<ROWS, COLS>`
    is a fixed-size array of doubles, modelled as an `array2<real>`; the
    template recursion over ROW and COL becomes recursion over ordinary
    parameters. */
module Matrices {

  /** `fillCols<ROW, COL>`: cell (row, col) gets generator(row, col), then
      the columns below col, from col down to 0.  Nothing outside row `row`
      and columns 0..col changes. */
  method FillCols(generator: (nat, nat) -> real, matrix: array2<real>, row: nat, col: nat)
    requires row < matrix.Length0 && col < matrix.Length1
    modifies matrix
    ensures forall c: nat | c <= col :: matrix[row, c] == generator(row, c)
    ensures forall r: nat, c: nat | r < matrix.Length0 && c < matrix.Length1 && (r != row || col < c) ::
              matrix[r, c] == old(matrix[r, c])
    decreases col
  {
    matrix[row, col] := generator(row, col);
    if col != 0 {
      FillCols(generator, matrix, row, col - 1);
    }
  }

  /** `fillRows<ROW>`: every column of the row count's range is filled in
      row `row`, then in the rows below it down to 0.  The last column
      filled is `matrix.size() - 1`, the ROW COUNT minus one, so the matrix
      must have at least as many columns as rows. */
  method FillRows(generator: (nat, nat) -> real, matrix: array2<real>, row: nat)
    requires row < matrix.Length0 <= matrix.Length1
    modifies matrix
    ensures forall r: nat, c: nat | r <= row && c < matrix.Length0 :: matrix[r, c] == generator(r, c)
    ensures forall r: nat, c: nat | r < matrix.Length0 && c < matrix.Length1 && (row < r || matrix.Length0 <= c) ::
              matrix[r, c] == old(matrix[r, c])
    decreases row
  {
    FillCols(generator, matrix, row, matrix.Length0 - 1);
    if row != 0 {
      FillRows(generator, matrix, row - 1);
    }
  }

  /** `generateMatrix<SIZE>(generator)`: a size × size matrix whose cell
      (r, c) is generator(r, c); a zero size gives the empty matrix. */
  method GenerateMatrix(size: nat, generator: (nat, nat) -> real) returns (m: array2<real>)
    ensures fresh(m) && m.Length0 == size && m.Length1 == size
    ensures forall r: nat, c: nat | r < size && c < size :: m[r, c] == generator(r, c)
  {
    m := new real[size, size]((_, _) => 0.0);
    if size != 0 {
      FillRows(generator, m, size - 1);
    }
  }
}
