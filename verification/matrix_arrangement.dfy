/** How a matrix is laid out in memory (`row_major` and `column_major`):
 *  the translation between a (row, column) pair and a flat index, the
 *  shape that `try_reshape` changes, and the row, column and diagonal
 *  slices, each a first index, a past-the-last index, a stride and a count.
 *  Indices are unbounded naturals here. */
module MatrixArrangements {
  import opened Errors
  import opened Arithmetic

  datatype Order = RowMajor | ColumnMajor

  /** The layout and the two dimensions of a matrix. */
  datatype Shape = Shape(order: Order, height: nat, width: nat)

  /** size(): the number of elements. */
  function Size(s: Shape): (n: nat)
    ensures n == 0 <==> s.height == 0 || s.width == 0
  {
    s.height * s.width
  }

  /** square_size(): the smaller dimension. */
  function SquareSize(s: Shape): (n: nat)
    ensures n <= s.height && n <= s.width
    ensures n == s.height || n == s.width
  {
    if s.height < s.width then s.height else s.width
  }

  /** empty(): no elements. */
  predicate IsEmpty(s: Shape)
    ensures IsEmpty(s) <==> s.height == 0 || s.width == 0
  {
    Size(s) == 0
  }

  /** flatten(row, column): no range validation, as in the source. */
  function Flatten(s: Shape, row: nat, column: nat): nat
  {
    match s.order
    case RowMajor => row * s.width + column
    case ColumnMajor => column * s.height + row
  }

  /** The dimension whose remainder reconstruct takes: the width for a
   *  row-major matrix, the height for a column-major one. */
  function Minor(s: Shape): nat
  {
    match s.order
    case RowMajor => s.width
    case ColumnMajor => s.height
  }

  /** reconstruct(flat): the remainder gives the fast-moving index and the
   *  exact quotient of the rest the slow one. Division by zero being
   *  undefined in the source, the fast-moving dimension must not be 0. */
  function Reconstruct(s: Shape, flat: nat): (rc: (nat, nat))
    requires Minor(s) > 0
  {
    QuotientBounds(flat, Minor(s));
    var fast := flat % Minor(s);
    var slow := (flat - fast) / Minor(s);
    match s.order
    case RowMajor => (slow, fast)
    case ColumnMajor => (fast, slow)
  }

  /** The remainder is at most the dividend, and the exact quotient of the
   *  rest is a natural number. */
  lemma QuotientBounds(i: nat, n: nat)
    requires n > 0
    ensures i % n <= i && (i - i % n) / n >= 0
  {
    if i / n < 0 {
      MulAtLeast(-(i / n), n);
    }
    DivMod(i, n, i / n, i % n);
  }

  /** The quotient of a flat index below m * n is below m. */
  lemma QuotientBelow(i: nat, n: nat, m: nat)
    requires n > 0 && i < m * n
    ensures 0 <= (i - i % n) / n < m
    ensures i == (i - i % n) / n * n + i % n
  {
    QuotientBounds(i, n);
    DivMod(i, n, i / n, i % n);
    if i / n >= m {
      MulMonotone(m, i / n, n);
    }
  }

  /** A slow index below its bound times the fast bound, plus a fast index
   *  below the fast bound, stays below the product. */
  lemma Below(slow: nat, fast: nat, slowBound: nat, fastBound: nat)
    requires slow < slowBound && fast < fastBound
    ensures slow * fastBound + fast < slowBound * fastBound
  {
    assert (slow + 1) * fastBound == slow * fastBound + fastBound;
    MulMonotone(slow + 1, slowBound, fastBound);
  }

  /** An in-range pair flattens into the matrix and reconstructs to itself. */
  lemma ReconstructFlatten(s: Shape, row: nat, column: nat)
    requires row < s.height && column < s.width
    ensures Flatten(s, row, column) < Size(s)
    ensures Reconstruct(s, Flatten(s, row, column)) == (row, column)
  {
    var i := Flatten(s, row, column);
    match s.order
    case RowMajor =>
      Below(row, column, s.height, s.width);
      DivMod(i, s.width, row, column);
    case ColumnMajor =>
      Below(column, row, s.width, s.height);
      assert s.width * s.height == s.height * s.width;
      DivMod(i, s.height, column, row);
  }

  /** A flat index inside the matrix reconstructs to an in-range pair that
   *  flattens back to it. */
  lemma FlattenReconstruct(s: Shape, flat: nat)
    requires flat < Size(s)
    ensures Minor(s) > 0
    ensures var (row, column) := Reconstruct(s, flat);
      row < s.height && column < s.width && Flatten(s, row, column) == flat
  {
    var n := Minor(s);
    var other := if s.order.RowMajor? then s.height else s.width;
    assert Size(s) == other * n;
    QuotientBelow(flat, n, other);
  }

  /** try_reshape(height, width): the new shape is taken iff it has as many
   *  elements as the old one. */
  function Reshaped(s: Shape, height: nat, width: nat): (r: (bool, Shape))
    ensures r.0 <==> height * width == Size(s)
    ensures r.1.order == s.order && Size(r.1) == Size(s)
    ensures r.0 ==> r.1.height == height && r.1.width == width
    ensures !r.0 ==> r.1 == s
  {
    if height * width != Size(s) then (false, s) else (true, Shape(s.order, height, width))
  }

  /** A slice of the underlying storage, as the matrix_slice it builds. */
  datatype Slice = Slice(first: nat, pastTheLast: nat, stride: nat, count: nat)

  /** The k-th element a slice visits. */
  function At(slice: Slice, k: nat): nat
  {
    slice.first + k * slice.stride
  }

  /** The strides of the three kinds of slices. */
  function RowStride(s: Shape): nat
  {
    if s.order.RowMajor? then 1 else s.height
  }

  function ColumnStride(s: Shape): nat
  {
    if s.order.RowMajor? then s.width else 1
  }

  function DiagonalStride(s: Shape): nat
  {
    if s.order.RowMajor? then s.width + 1 else s.height + 1
  }

  /** row_slice(row): an out-of-range row throws out_of_range. */
  function RowSlice(s: Shape, row: nat): (r: Result<Slice>)
    ensures r.Err? <==> row >= s.height
    ensures r.Err? ==> r.failure == OutOfRange
    ensures r.Ok? ==> r.value.count == s.width
  {
    if row >= s.height then Err(OutOfRange)
    else Ok(Slice(Flatten(s, row, 0), Flatten(s, row, s.width), RowStride(s), s.width))
  }

  /** column_slice(column): an out-of-range column throws out_of_range. */
  function ColumnSlice(s: Shape, column: nat): (r: Result<Slice>)
    ensures r.Err? <==> column >= s.width
    ensures r.Err? ==> r.failure == OutOfRange
    ensures r.Ok? ==> r.value.count == s.height
  {
    if column >= s.width then Err(OutOfRange)
    else Ok(Slice(Flatten(s, 0, column), Flatten(s, s.height, column), ColumnStride(s), s.height))
  }

  /** diagonal_slice(index): a non-negative index starts in the first row at
   *  that column, a negative one in the first column at row -index; a start
   *  beyond the matrix throws out_of_range, and the count is cut to the
   *  square size. */
  function DiagonalSlice(s: Shape, index: int): (r: Result<Slice>)
    ensures r.Err? <==> index > s.width as int || -index > s.height as int
    ensures r.Err? ==> r.failure == OutOfRange
    ensures r.Ok? ==> r.value.count <= SquareSize(s)
  {
    var firstRow: nat := if index >= 0 then 0 else -index;
    var firstColumn: nat := if index >= 0 then index else 0;
    if firstRow > s.height then Err(OutOfRange)
    else if firstColumn > s.width then Err(OutOfRange)
    else
      var count := if index >= 0 then s.width - firstColumn else s.height - firstRow;
      var count := if count > SquareSize(s) then SquareSize(s) else count;
      Ok(Slice(Flatten(s, firstRow, firstColumn), Flatten(s, firstRow + count, firstColumn + count),
               DiagonalStride(s), count))
  }

  /** A row slice visits exactly the row, column by column, and ends where
   *  its stride would take it next. */
  lemma RowSliceVisitsRow(s: Shape, row: nat)
    requires row < s.height
    ensures var slice := RowSlice(s, row).value;
      && (forall k :: 0 <= k < slice.count ==> At(slice, k) == Flatten(s, row, k))
      && slice.pastTheLast == At(slice, slice.count)
  {
    var slice := RowSlice(s, row).value;
    forall k | 0 <= k <= slice.count
      ensures At(slice, k) == Flatten(s, row, k)
    {
      if s.order.ColumnMajor? {
        assert Flatten(s, row, 0) == row;
      }
    }
  }

  /** A column slice visits exactly the column, row by row. */
  lemma ColumnSliceVisitsColumn(s: Shape, column: nat)
    requires column < s.width
    ensures var slice := ColumnSlice(s, column).value;
      && (forall k :: 0 <= k < slice.count ==> At(slice, k) == Flatten(s, k, column))
      && slice.pastTheLast == At(slice, slice.count)
  {
    var slice := ColumnSlice(s, column).value;
    forall k | 0 <= k <= slice.count
      ensures At(slice, k) == Flatten(s, k, column)
    {
      if s.order.RowMajor? {
        assert Flatten(s, 0, column) == column;
      }
    }
  }

  /** A diagonal slice visits in-range cells only, each one row and one
   *  column further than the previous. */
  lemma DiagonalSliceInRange(s: Shape, index: int)
    requires DiagonalSlice(s, index).Ok?
    ensures var slice := DiagonalSlice(s, index).value;
      var firstRow: nat := if index >= 0 then 0 else -index;
      var firstColumn: nat := if index >= 0 then index else 0;
      && (forall k :: 0 <= k < slice.count ==>
            firstRow + k < s.height && firstColumn + k < s.width
            && At(slice, k) == Flatten(s, firstRow + k, firstColumn + k))
      && slice.pastTheLast == At(slice, slice.count)
  {
    var slice := DiagonalSlice(s, index).value;
    var firstRow: nat := if index >= 0 then 0 else -index;
    var firstColumn: nat := if index >= 0 then index else 0;
    forall k | 0 <= k <= slice.count
      ensures At(slice, k) == Flatten(s, firstRow + k, firstColumn + k)
    {
      DiagonalStep(s, firstRow, firstColumn, k);
    }
  }

  lemma DiagonalStep(s: Shape, row: nat, column: nat, k: nat)
    ensures Flatten(s, row, column) + k * DiagonalStride(s) == Flatten(s, row + k, column + k)
  {
    match s.order
    case RowMajor =>
      assert k * (s.width + 1) == k * s.width + k;
      assert (row + k) * s.width == row * s.width + k * s.width;
    case ColumnMajor =>
      assert k * (s.height + 1) == k * s.height + k;
      assert (column + k) * s.height == column * s.height + k * s.height;
  }

  /** The layout of `row_major` or `column_major`: the order is the type's,
   *  the two dimensions are the fields `try_reshape` changes. */
  class MatrixArrangement {
    const order: Order
    var height: nat
    var width: nat

    function Layout(): Shape
      reads this
    {
      Shape(order, height, width)
    }

    constructor (order: Order, height: nat, width: nat)
      ensures Layout() == Shape(order, height, width)
    {
      this.order := order;
      this.height := height;
      this.width := width;
    }

    /** try_reshape(height, width): changes the dimensions only when the
     *  number of elements stays the same. */
    method TryReshape(newHeight: nat, newWidth: nat) returns (success: bool)
      modifies this
      ensures (success, Layout()) == Reshaped(old(Layout()), newHeight, newWidth)
    {
      if newHeight * newWidth != height * width {
        return false;
      }
      height := newHeight;
      width := newWidth;
      return true;
    }
  }
}
