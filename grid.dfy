/** The table's storage (src/grid.rs): one flat vector read and written
    through a `(row, col)` pair, row by row. The constructor checks nothing,
    and the column is never compared with the column count, so the shape
    `|internal| == rows * cols` is the caller's business. */
module Grids {

  /** The position of `(row, col)` in the flat vector. */
  function FlatIndex(cols: nat, row: nat, col: nat): nat {
    cols * row + col
  }

  /** A pair inside the shape lands inside the vector. */
  lemma IndexInBounds(rows: nat, cols: nat, row: nat, col: nat)
    requires row < rows && col < cols
    ensures FlatIndex(cols, row, col) < rows * cols
  {
    calc {
      FlatIndex(cols, row, col);
    <  cols * row + cols;
    == cols * (row + 1);
    <= { MultiplyMonotone(cols, row + 1, rows); }
      cols * rows;
    }
  }

  lemma MultiplyMonotone(k: nat, a: nat, b: nat)
    requires a <= b
    ensures k * a <= k * b
  {
  }

  /** Inside the column count, distinct pairs use distinct slots. */
  lemma IndexInjective(cols: nat, r1: nat, c1: nat, r2: nat, c2: nat)
    requires c1 < cols && c2 < cols
    ensures FlatIndex(cols, r1, c1) == FlatIndex(cols, r2, c2) <==> r1 == r2 && c1 == c2
  {
    if r1 < r2 {
      MultiplyMonotone(cols, r1 + 1, r2);
    } else if r2 < r1 {
      MultiplyMonotone(cols, r2 + 1, r1);
    }
  }

  /** Every slot of a well-shaped vector is addressed by exactly one pair:
      its row is the quotient and its column the remainder. */
  lemma IndexOnto(rows: nat, cols: nat, i: nat)
    requires i < rows * cols
    ensures cols > 0
    ensures i / cols < rows && i % cols < cols
    ensures FlatIndex(cols, i / cols, i % cols) == i
  {
    if cols == 0 {
      assert false;
    }
    if i / cols >= rows {
      MultiplyMonotone(cols, rows, i / cols);
    }
  }

  /** A column past the column count is not rejected: it reaches a slot
      of a later row. */
  lemma ColumnAliases(cols: nat, row: nat, col: nat)
    requires col >= cols
    ensures FlatIndex(cols, row, col) == FlatIndex(cols, row + 1, col - cols)
  {
  }

  /** `Grid<T>`: `internal` is the flat vector, `rows` and `cols` the shape
      it was built with. */
  class Grid<T> {
    var internal: seq<T>
    const rows: nat
    const cols: nat

    /** `Grid::new`: stores what it is given. */
    constructor(rows: nat, cols: nat, internal: seq<T>)
      ensures this.rows == rows && this.cols == cols && this.internal == internal
    {
      this.rows := rows;
      this.cols := cols;
      this.internal := internal;
    }

    /** The source's shape invariant. */
    predicate Shaped()
      reads this
    {
      |internal| == rows * cols
    }

    /** `Index`: the slot at `(row, col)`. */
    function Get(row: nat, col: nat): (v: T)
      reads this
      requires FlatIndex(cols, row, col) < |internal|
      ensures v == internal[cols * row + col]
    {
      internal[FlatIndex(cols, row, col)]
    }

    /** `IndexMut` followed by an assignment: exactly one slot changes. */
    method Set(row: nat, col: nat, v: T)
      requires FlatIndex(cols, row, col) < |internal|
      modifies this
      ensures internal == old(internal)[FlatIndex(cols, row, col) := v]
    {
      internal := internal[FlatIndex(cols, row, col) := v];
    }
  }

  /** Reading after a write in the shape gives the value written at that
      pair and the old value at every other pair. */
  lemma ReadAfterWrite<T>(internal: seq<T>, rows: nat, cols: nat, row: nat, col: nat, v: T, r: nat, c: nat)
    requires |internal| == rows * cols
    requires row < rows && col < cols && r < rows && c < cols
    ensures FlatIndex(cols, row, col) < |internal| && FlatIndex(cols, r, c) < |internal|
    ensures internal[FlatIndex(cols, row, col) := v][FlatIndex(cols, r, c)]
         == if (r, c) == (row, col) then v else internal[FlatIndex(cols, r, c)]
  {
    IndexInBounds(rows, cols, row, col);
    IndexInBounds(rows, cols, r, c);
    IndexInjective(cols, row, col, r, c);
  }
}
