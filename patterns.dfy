/** Pattern: a matrix and its four clockwise quarter turns, computed on first
    request and kept in the pattern. */
module Patterns {
  import opened Grids
  import opened Matrices

  /** The quarter turn clockwise as a value: an R-row, C-column grid becomes C
      rows of length R, and the cell of row i, column j goes to row j,
      column R-1-i. */
  function Rotate(g: Rows): (r: Rows)
    requires Rectangular(g)
    ensures |r| == Width(g) && Rectangular(r)
    ensures |r| > 0 ==> Width(r) == |g|
    ensures forall a, b :: 0 <= a < Width(g) && 0 <= b < |g| ==> r[a][b] == g[|g| - 1 - b][a]
  {
    seq(Width(g), j requires 0 <= j < Width(g) => seq(|g|, k requires 0 <= k < |g| => g[|g| - 1 - k][j]))
  }

  /** With no columns the turn collapses to a grid with no rows. */
  lemma RotateWithoutColumns(g: Rows)
    requires Rectangular(g) && Width(g) == 0
    ensures Rotate(g) == []
  {
  }

  /** rotate_90_degrees' assignment, read from the original grid's side: the
      cell of row i, column j lands in row j, column R-1-i. */
  lemma QuarterTurnMovesCell(g: Rows, i: int, j: int)
    requires Rectangular(g) && 0 <= i < |g| && 0 <= j < Width(g)
    ensures |Rotate(g)| == Width(g) && |Rotate(g)[j]| == |g|
    ensures Rotate(g)[j][|g| - 1 - i] == g[i][j]
  {
  }

  /** Two quarter turns: a grid of the same shape holding the original turned
      upside down and mirrored. */
  lemma {:induction false} HalfTurn(g: Rows)
    requires Rectangular(g) && (|g| == 0 || Width(g) > 0)
    ensures var h := Rotate(Rotate(g));
            && |h| == |g| && Rectangular(h) && Width(h) == Width(g)
            && forall a, b :: 0 <= a < |g| && 0 <= b < Width(g) ==> h[a][b] == g[|g| - 1 - a][Width(g) - 1 - b]
  {
    var R, C := |g|, Width(g);
    var r1 := Rotate(g);
    assert |r1| == C && (C > 0 ==> Width(r1) == R);
    var h := Rotate(r1);
    forall a, b | 0 <= a < R && 0 <= b < C
      ensures h[a][b] == g[R - 1 - a][C - 1 - b]
    {
      assert h[a][b] == r1[C - 1 - b][a];
    }
  }

  /** Four quarter turns give back the grid, cell by cell, when it has at
      least one column (with no rows the turn gives no rows back as well). */
  lemma {:induction false} FourTurnsAreIdentity(g: Rows)
    requires Rectangular(g) && (|g| == 0 || Width(g) > 0)
    ensures Rotate(Rotate(Rotate(Rotate(g)))) == g
  {
    var R, C := |g|, Width(g);
    HalfTurn(g);
    var h := Rotate(Rotate(g));
    HalfTurn(h);
    var f := Rotate(Rotate(h));
    assert |f| == R;
    forall a | 0 <= a < R
      ensures f[a] == g[a]
    {
      assert |f[a]| == C;
      forall b | 0 <= b < C
        ensures f[a][b] == g[a][b]
      {
        assert f[a][b] == h[R - 1 - a][C - 1 - b];
      }
    }
  }

  /** The four turns a pattern keeps: ms[0] is the base matrix and each next
      entry holds the quarter turn of the one before. */
  ghost predicate IsRotationChain(ms: seq<Matrix>)
    reads ms
  {
    && |ms| == 4
    && (forall k :: 0 <= k < 4 ==> ms[k].Valid() && Rectangular(ms[k].data))
    && (forall k :: 0 <= k < 3 ==> ms[k + 1].data == Rotate(ms[k].data))
  }

  /** The rows of a two-dimensional array, first index first. */
  function RowsOf(a: array2<int>): (rows: Rows)
    reads a
    ensures |rows| == a.Length0
    ensures forall i, j :: 0 <= i < a.Length0 && 0 <= j < a.Length1 ==> |rows[i]| == a.Length1 && rows[i][j] == a[i, j]
  {
    seq(a.Length0, i requires 0 <= i < a.Length0 reads a => seq(a.Length1, j requires 0 <= j < a.Length1 reads a => a[i, j]))
  }

  /** rotate_90_degrees: fills a fresh cols-by-rows array, initially all 0, by
      writing the cell of row i, column j at [j][rows-1-i], and wraps it in a
      new matrix. */
  method Rotate90Degrees(m: Matrix) returns (r: Matrix)
    requires m.Valid() && Rectangular(m.data)
    ensures fresh(r) && r.Valid() && r.data == Rotate(m.data)
  {
    var rows := m.ySize;
    var cols := m.xSize;
    var rotated := new int[cols, rows]((j, k) => 0);
    var i := 0;
    while i < rows
      invariant 0 <= i <= rows
      invariant forall a, b :: 0 <= a < cols && 0 <= b < rows ==>
                  rotated[a, b] == if rows - 1 - b < i then m.data[rows - 1 - b][a] else 0
    {
      var j := 0;
      while j < cols
        invariant 0 <= j <= cols
        invariant forall a, b :: 0 <= a < cols && 0 <= b < rows ==>
                    rotated[a, b] == if rows - 1 - b < i || (rows - 1 - b == i && a < j) then m.data[rows - 1 - b][a] else 0
      {
        var c := m.CellAt(j, i);
        rotated[j, rows - 1 - i] := c.value;
        j := j + 1;
      }
      i := i + 1;
    }
    var data := RowsOf(rotated);
    ghost var expected := Rotate(m.data);
    assert |data| == |expected|;
    forall a | 0 <= a < cols
      ensures data[a] == expected[a]
    {
      assert |data[a]| == rows;
    }
    r := new Matrix(data);
  }

  /** generate_rotations: the base matrix, then three times the quarter turn of
      the latest entry. */
  method GenerateRotations(m: Matrix) returns (rs: seq<Matrix>)
    requires m.Valid() && Rectangular(m.data)
    ensures IsRotationChain(rs) && rs[0] == m
    ensures forall k :: 1 <= k < 4 ==> fresh(rs[k])
  {
    rs := [m];
    var current := m;
    var n := 0;
    while n < 3
      invariant 0 <= n <= 3 && |rs| == n + 1 && rs[0] == m && current == rs[n]
      invariant forall k :: 0 <= k <= n ==> rs[k].Valid() && Rectangular(rs[k].data)
      invariant forall k :: 0 <= k < n ==> rs[k + 1].data == Rotate(rs[k].data)
      invariant forall k :: 1 <= k <= n ==> fresh(rs[k])
    {
      current := Rotate90Degrees(current);
      rs := rs + [current];
      n := n + 1;
    }
  }

  class Pattern {
    const matrix: Matrix
    /** @rotations: empty until rotations is first called. */
    var cache: seq<Matrix>

    /** The base matrix keeps its cached sizes, and a filled cache is the
        rotation chain of the base matrix. */
    ghost predicate Valid()
      reads this, matrix, cache
    {
      matrix.Valid() && (cache != [] ==> IsRotationChain(cache) && cache[0] == matrix)
    }

    /** Pattern.new(matrix): wraps the matrix; nothing is computed yet. */
    constructor (m: Matrix)
      requires m.Valid()
      ensures Valid() && matrix == m && cache == []
    {
      matrix := m;
      cache := [];
    }

    /** rotations: the four turns, always four, the first being the base
        matrix itself; computed on the first call and returned unchanged from
        the cache on every later call. */
    method Rotations() returns (rs: seq<Matrix>)
      requires Valid() && Rectangular(matrix.data)
      modifies this
      ensures Valid() && cache == rs
      ensures IsRotationChain(rs) && rs[0] == matrix
      ensures old(cache) != [] ==> rs == old(cache)
      ensures old(cache) == [] ==> forall k :: 1 <= k < 4 ==> fresh(rs[k])
    {
      if cache == [] {
        cache := GenerateRotations(matrix);
      }
      rs := cache;
    }
  }
}
