/** Matrix: a grid whose rows the program appends to in place, with its width
    and height cached and recomputed after every change. */
module Matrices {
  import opened Wrappers
  import opened Errors
  import opened Grids
  import Parsers

  class Matrix {
    var data: Rows
    var xSize: nat
    var ySize: nat

    /** The cached sizes are those of the stored rows. */
    ghost predicate Valid()
      reads this
    {
      ySize == |data| && xSize == Width(data)
    }

    /** Matrix.new(data): keeps the rows as given (no length check) and caches
        their sizes; with no rows both sizes are 0. */
    constructor (rows: Rows)
      ensures Valid() && data == rows
      ensures ySize == |rows| && xSize == Width(rows)
      ensures rows == [] ==> xSize == 0 && ySize == 0
    {
      data := rows;
      new;
      RecalculateSize();
    }

    /** recalculate_size: y_size is the row count, x_size the first row's
        length or 0. */
    method RecalculateSize()
      modifies this
      ensures Valid() && data == old(data)
      ensures ySize == |data| && (|data| == 0 ==> xSize == 0) && (|data| > 0 ==> xSize == |data[0]|)
    {
      ySize := |data|;
      xSize := if |data| == 0 then 0 else |data[0]|;
    }

    /** valid_position?: 0 <= x <= x_size - 1 and 0 <= y <= y_size - 1. */
    predicate ValidPosition(x: int, y: int)
      reads this
      ensures Valid() && !ValidPosition(x, y) ==> CellOf(data, x, y).None?
      ensures Valid() && Rectangular(data) && ValidPosition(x, y) ==> CellOf(data, x, y).Some?
    {
      0 <= x <= xSize - 1 && 0 <= y <= ySize - 1
    }

    /** cell_at: nil outside the cached bounds (negative indices never wrap),
        otherwise the stored cell of row y, column x (nil for a short row). */
    function CellAt(x: int, y: int): (c: Option<int>)
      reads this
      requires Valid()
      ensures c == CellOf(data, x, y)
      ensures x < 0 || x >= xSize || y < 0 || y >= ySize ==> c == None
    {
      if ValidPosition(x, y) then (if x < |data[y]| then Some(data[y][x]) else None) else None
    }

    /** add_line: appends one row at the end; earlier rows are unchanged, the
        height grows by one and the width stays that of the first row. */
    method AddLine(line: seq<int>)
      requires Valid()
      modifies this
      ensures Valid() && data == old(data) + [line]
      ensures ySize == old(ySize) + 1
      ensures old(ySize) > 0 ==> xSize == old(xSize)
      ensures forall x, y :: 0 <= y < old(ySize) ==> CellAt(x, y) == old(CellAt(x, y))
    {
      data := data + [line];
      RecalculateSize();
    }

    /** load_data: a nil parser raises before anything is parsed; a parse
        error propagates and leaves the matrix as it was; otherwise the parsed
        rows replace the data and the sizes are recomputed. */
    method LoadData(text: Option<string>, parser: Option<Parsers.Parser>) returns (outcome: Outcome<Error>)
      requires Valid()
      modifies this
      ensures Valid()
      ensures parser.None? ==> outcome == Fail(ArgumentError("Parser cannot be nil")) && data == old(data)
      ensures parser.Some? && Parsers.Parse(parser.value, text).Failure? ==>
                outcome == Fail(Parsers.Parse(parser.value, text).error) && data == old(data)
      ensures parser.Some? && Parsers.Parse(parser.value, text).Success? ==>
                outcome == Pass && data == Parsers.Parse(parser.value, text).value
                && Rectangular(data) && xSize > 0 && ySize > 0
    {
      if parser.None? {
        return Fail(ArgumentError("Parser cannot be nil"));
      }
      var parsed := Parsers.Parse(parser.value, text);
      if parsed.Failure? {
        return Fail(parsed.error);
      }
      data := parsed.value;
      RecalculateSize();
      outcome := Pass;
    }

    /** to_a: the stored rows, as a value the caller cannot use to change the matrix. */
    method ToA() returns (rows: Rows)
      ensures rows == data
    {
      rows := data;
    }
  }
}
