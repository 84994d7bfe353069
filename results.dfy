/**
 * `Drizzle::Result`: an owned copy of a buffered result, built by draining
 * the engine's column and row iterators and then freeing the handle.
 */
module Results {
  import opened Wrappers
  import opened Engine

  /** A materialised row, one field per column. */
  type Row = seq<Field>

  /** The attributes `columns`, `rows`, `affected_rows` and `insert_id`. */
  datatype Result = Result(columns: seq<string>, rows: seq<Row>, affectedRows: u64, insertId: u64)

  /** `row.get_array_of_string(0, n)` for each row in turn, keeping their order. */
  function CopyRows(rows: seq<WireRow>, n: nat): (r: seq<Row>)
    requires forall i :: 0 <= i < |rows| ==> n <= |rows[i]|
    ensures |r| == |rows|
    ensures forall i :: 0 <= i < |rows| ==> |r[i]| == n
  {
    if rows == [] then []
    else CopyRows(rows[..|rows| - 1], n) + [rows[|rows| - 1][..n]]
  }

  /** Row i of the copy is the first n fields of row i of the engine. */
  lemma {:induction false} CopyRowsAt(rows: seq<WireRow>, n: nat, i: nat)
    requires forall k :: 0 <= k < |rows| ==> n <= |rows[k]|
    requires i < |rows|
    ensures CopyRows(rows, n)[i] == rows[i][..n]
  {
    if i < |rows| - 1 {
      CopyRowsAt(rows[..|rows| - 1], n, i);
    }
  }

  /** Copying one more row appends its first n fields. */
  lemma CopyRowsAppend(rows: seq<WireRow>, row: WireRow, n: nat)
    requires forall k :: 0 <= k < |rows| ==> n <= |rows[k]|
    requires n <= |row|
    ensures CopyRows(rows + [row], n) == CopyRows(rows, n) + [row[..n]]
  {
    assert (rows + [row])[..|rows|] == rows;
  }

  /** The part of a wire result that iterators at the given positions have not yet produced. */
  function Unread(w: Wire, columnCursor: nat, rowCursor: nat): (u: Wire)
    requires columnCursor <= |w.columns| && rowCursor <= |w.rows|
    requires WellFormed(w)
    ensures WellFormed(u)
  {
    Wire(w.insertId, w.affectedRows, w.columns[columnCursor..], w.rows[rowCursor..])
  }

  /**
   * The Result that `Result.new` builds from a handle holding `w`: the
   * columns in server order, each row cut to one field per column, the
   * counters as the handle reports them.
   */
  function Materialized(w: Wire): (r: Result)
    requires WellFormed(w)
    ensures r.columns == w.columns
    ensures r.insertId == w.insertId && r.affectedRows == w.affectedRows
    ensures |r.rows| == |w.rows|
    ensures forall i :: 0 <= i < |r.rows| ==> |r.rows[i]| == |r.columns| && r.rows[i] == w.rows[i][..|w.columns|]
  {
    var rows := CopyRows(w.rows, |w.columns|);
    assert forall i :: 0 <= i < |rows| ==> rows[i] == w.rows[i][..|w.columns|] by {
      forall i | 0 <= i < |rows| ensures rows[i] == w.rows[i][..|w.columns|] {
        CopyRowsAt(w.rows, |w.columns|, i);
      }
    }
    Result(w.columns, rows, w.affectedRows, w.insertId)
  }

  /** The wire record a Result describes. */
  function ToWire(r: Result): Wire
  {
    Wire(r.insertId, r.affectedRows, r.columns, r.rows)
  }

  /** When the engine's rows are exactly one field per column, nothing is lost in the copy. */
  lemma MaterializedLossless(w: Wire)
    requires forall i :: 0 <= i < |w.rows| ==> |w.rows[i]| == |w.columns|
    ensures WellFormed(w)
    ensures ToWire(Materialized(w)) == w
  {
    var r := Materialized(w);
    assert forall i :: 0 <= i < |w.rows| ==> r.rows[i] == w.rows[i] by {
      forall i | 0 <= i < |w.rows| ensures r.rows[i] == w.rows[i] {
        assert w.rows[i][..|w.columns|] == w.rows[i];
      }
    }
  }

  /**
   * `Result#initialize`: read the counters, drain the columns until the
   * iterator yields NULL, drain the rows copying `columns.size` fields of
   * each, free the handle.
   */
  method Materialize(h: ResultHandle) returns (r: Result)
    requires h.Valid() && WellFormed(h.wire)
    modifies h
    ensures r == Materialized(Unread(h.wire, old(h.columnCursor), old(h.rowCursor)))
    ensures h.Valid() && h.columnCursor == |h.wire.columns| && h.rowCursor == |h.wire.rows|
    ensures h.freed == old(h.freed) + 1
  {
    ghost var c0, r0 := h.columnCursor, h.rowCursor;
    var columns: seq<string> := [];
    var rows: seq<Row> := [];
    var insertId := h.wire.insertId;
    var affectedRows := h.wire.affectedRows;

    while true
      invariant h.Valid() && c0 <= h.columnCursor && h.rowCursor == r0 && h.freed == old(h.freed)
      invariant columns == h.wire.columns[c0..h.columnCursor]
      decreases |h.wire.columns| - h.columnCursor
    {
      var column := h.ColumnNext();
      if column.None? {
        break;
      }
      columns := columns + [column.value];
    }
    assert columns == h.wire.columns[c0..];

    while true
      invariant h.Valid() && r0 <= h.rowCursor && h.columnCursor == |h.wire.columns| && h.freed == old(h.freed)
      invariant |columns| <= |h.wire.columns|
      invariant rows == CopyRows(h.wire.rows[r0..h.rowCursor], |columns|)
      decreases |h.wire.rows| - h.rowCursor
    {
      ghost var before := h.rowCursor;
      var row := h.RowNext();
      if row.None? {
        break;
      }
      assert h.wire.rows[r0..h.rowCursor] == h.wire.rows[r0..before] + [row.value];
      CopyRowsAppend(h.wire.rows[r0..before], row.value, |columns|);
      rows := rows + [row.value[..|columns|]];
    }
    assert h.wire.rows[r0..h.rowCursor] == h.wire.rows[r0..];

    h.Free();
    r := Result(columns, rows, affectedRows, insertId);
  }

  /**
   * `Result#each`: the rows handed to the block, in order (none without a
   * block), and the value it returns, which is the stored row array.
   */
  method Each(r: Result, blockGiven: bool) returns (yielded: seq<Row>, returned: seq<Row>)
    ensures yielded == if blockGiven then r.rows else []
    ensures returned == r.rows
  {
    yielded := [];
    for i := 0 to |r.rows|
      invariant yielded == if blockGiven then r.rows[..i] else []
    {
      if blockGiven {
        yielded := yielded + [r.rows[i]];
      }
    }
    returned := r.rows;
  }
}
