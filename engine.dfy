/**
 * The part of libdrizzle the Ruby layer reads a result through. The protocol
 * engine itself is an oracle: a buffered result is its contents (the wire
 * record) plus the positions of the column and row iterators and a count of
 * how often `drizzle_result_free` was called on it.
 */
module Engine {
  import opened Wrappers

  /** The `uint64` that `result_insert_id` and `result_affected_rows` return. */
  newtype u64 = x: int | 0 <= x < 0x1_0000_0000_0000_0000

  /** One field of a row: a C string, or a NULL pointer (`nil`). */
  type Field = Option<string>

  /** A row as the engine holds it. */
  type WireRow = seq<Field>

  /** What a buffered result holds. */
  datatype Wire = Wire(insertId: u64, affectedRows: u64, columns: seq<string>, rows: seq<WireRow>)

  /** The engine gives every row at least one field per column. */
  predicate WellFormed(w: Wire)
  {
    forall i :: 0 <= i < |w.rows| ==> |w.columns| <= |w.rows[i]|
  }

  /** A `drizzle_result_st` pointer, read through its iterators. */
  class ResultHandle {
    const wire: Wire
    var columnCursor: nat
    var rowCursor: nat
    var freed: nat

    ghost predicate Valid()
      reads this
    {
      columnCursor <= |wire.columns| && rowCursor <= |wire.rows|
    }

    /** A freshly buffered result: both iterators at the start, not yet freed. */
    constructor (w: Wire)
      ensures Valid() && wire == w
      ensures columnCursor == 0 && rowCursor == 0 && freed == 0
    {
      wire := w;
      columnCursor, rowCursor, freed := 0, 0, 0;
    }

    /** `drizzle_column_next` followed by `drizzle_column_name`; None is the NULL column. */
    method ColumnNext() returns (name: Option<string>)
      requires Valid()
      modifies this`columnCursor
      ensures Valid()
      ensures old(columnCursor) < |wire.columns| ==>
                name == Some(wire.columns[old(columnCursor)]) && columnCursor == old(columnCursor) + 1
      ensures old(columnCursor) == |wire.columns| ==>
                name == None && columnCursor == old(columnCursor)
    {
      if columnCursor < |wire.columns| {
        name := Some(wire.columns[columnCursor]);
        columnCursor := columnCursor + 1;
      } else {
        name := None;
      }
    }

    /** `drizzle_row_next`; None is the NULL row that ends the iteration. */
    method RowNext() returns (row: Option<WireRow>)
      requires Valid()
      modifies this`rowCursor
      ensures Valid()
      ensures old(rowCursor) < |wire.rows| ==>
                row == Some(wire.rows[old(rowCursor)]) && rowCursor == old(rowCursor) + 1
      ensures old(rowCursor) == |wire.rows| ==>
                row == None && rowCursor == old(rowCursor)
    {
      if rowCursor < |wire.rows| {
        row := Some(wire.rows[rowCursor]);
        rowCursor := rowCursor + 1;
      } else {
        row := None;
      }
    }

    /** `drizzle_result_free`. */
    method Free()
      modifies this`freed
      ensures freed == old(freed) + 1
    {
      freed := freed + 1;
    }
  }
}
