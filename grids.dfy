/** Grids as values: a sequence of rows of cells (1 filled, 0 empty, -1 unknown).
    These are the definitions the Matrix class caches and the scorer reads. */
module Grids {
  import opened Wrappers

  type Rows = seq<seq<int>>

  /** The width recalculate_size caches: the first row's length, or 0 with no rows. */
  function Width(rows: Rows): nat
  {
    if |rows| == 0 then 0 else |rows[0]|
  }

  /** Every row is as long as the first one. */
  predicate Rectangular(rows: Rows)
  {
    forall y :: 0 <= y < |rows| ==> |rows[y]| == Width(rows)
  }

  /** The bounds-checked lookup of cell_at: None (Ruby's nil) unless
      0 <= x < Width and 0 <= y < |rows|; inside those bounds a row shorter
      than the first one also yields None. */
  function CellOf(rows: Rows, x: int, y: int): (c: Option<int>)
    ensures x < 0 || x >= Width(rows) || y < 0 || y >= |rows| ==> c == None
    ensures c.Some? ==> 0 <= y < |rows| && 0 <= x < |rows[y]| && c.value == rows[y][x]
    ensures Rectangular(rows) && 0 <= x < Width(rows) && 0 <= y < |rows| ==> c == Some(rows[y][x])
    ensures 0 <= y < |rows| && |rows[y]| <= x ==> c == None
  {
    if 0 <= x < Width(rows) && 0 <= y < |rows| && x < |rows[y]| then Some(rows[y][x]) else None
  }
}
