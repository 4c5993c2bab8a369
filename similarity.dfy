/** SimilarityCalculator: the score of one placement of a pattern on the radar.
    Each pattern cell scores as an exact match, an adjacent match or bounded
    noise; the sum is divided by the pattern's full area. The random draws of
    Kernel#rand are an argument: draws(x, y) is the draw for pattern cell
    (x, y). */
module Similarity {
  import opened Wrappers
  import opened Grids
  import opened Matrices

  /** The weights hash: exact, adjacent and noise. */
  datatype Weights = Weights(exact: real, adjacent: real, noise: real)

  /** Matcher::DEFAULT_WEIGHTS. */
  const DefaultWeights := Weights(1.0, 0.2, 0.2)

  /** All three weights lie in [0, 1]. */
  predicate UnitWeights(w: Weights)
  {
    0.0 <= w.exact <= 1.0 && 0.0 <= w.adjacent <= 1.0 && 0.0 <= w.noise <= 1.0
  }

  /** Draws as Kernel#rand gives them: in [0, 1). */
  ghost predicate UnitDraws(draws: (int, int) -> real)
  {
    forall x, y :: 0.0 <= draws(x, y) < 1.0
  }

  /** A pattern, the radar, and the radar coordinate of the pattern's cell (0, 0). */
  datatype Placement = Placement(pattern: Rows, radar: Rows, startX: int, startY: int)

  /** exact_match?: the pattern value equals the radar value (-1 matches -1;
      a nil pattern value never equals a radar value). */
  predicate ExactMatch(patternValue: Option<int>, radarValue: int)
    ensures ExactMatch(patternValue, radarValue) ==> patternValue.Some?
    ensures patternValue.Some? ==> (ExactMatch(patternValue, radarValue) <==> patternValue.value == radarValue)
  {
    patternValue == Some(radarValue)
  }

  /** The eight neighbour offsets in the order adjacent_match? visits them:
      dx from -1 to 1, and for each dx, dy from -1 to 1, skipping (0, 0). */
  const Neighbours: seq<(int, int)> := [(-1, -1), (-1, 0), (-1, 1), (0, -1), (0, 1), (1, -1), (1, 0), (1, 1)]

  /** The radar cell at offset (dx, dy) from (x, y), nil when off the grid. */
  function Neighbour(radar: Rows, x: int, y: int, dx: int, dy: int): Option<int>
  {
    CellOf(radar, x + dx, y + dy)
  }

  /** The early-return search of adjacent_match?, from the k-th neighbour on. */
  function SearchNeighbours(patternValue: Option<int>, radar: Rows, x: int, y: int, k: nat): (found: bool)
    requires k <= |Neighbours|
    decreases |Neighbours| - k
    ensures found <==> exists n :: k <= n < |Neighbours| && Neighbour(radar, x, y, Neighbours[n].0, Neighbours[n].1) == patternValue
  {
    if k == |Neighbours| then false
    else if Neighbour(radar, x, y, Neighbours[k].0, Neighbours[k].1) == patternValue then true
    else SearchNeighbours(patternValue, radar, x, y, k + 1)
  }

  /** adjacent_match?: one of the eight neighbours of (x, y) holds the pattern
      value. A neighbour off the grid reads as nil, so it never matches a
      pattern value, but it does match the nil of a short pattern row. */
  function AdjacentMatch(patternValue: Option<int>, radar: Rows, x: int, y: int): (found: bool)
    ensures found <==> exists dx, dy :: -1 <= dx <= 1 && -1 <= dy <= 1 && (dx != 0 || dy != 0)
                                        && Neighbour(radar, x, y, dx, dy) == patternValue
  {
    NeighbourOffsetsAreTheEight(patternValue, radar, x, y);
    SearchNeighbours(patternValue, radar, x, y, 0)
  }

  /** The eight entries of Neighbours are exactly the offsets (dx, dy) in
      {-1, 0, 1}^2 other than (0, 0), so searching them finds the pattern
      value exactly when some neighbour holds it. */
  lemma NeighbourOffsetsAreTheEight(patternValue: Option<int>, radar: Rows, x: int, y: int)
    ensures (exists n :: 0 <= n < |Neighbours| && Neighbour(radar, x, y, Neighbours[n].0, Neighbours[n].1) == patternValue)
            <==> (exists dx, dy :: -1 <= dx <= 1 && -1 <= dy <= 1 && (dx != 0 || dy != 0)
                                   && Neighbour(radar, x, y, dx, dy) == patternValue)
  {
    if n :| 0 <= n < |Neighbours| && Neighbour(radar, x, y, Neighbours[n].0, Neighbours[n].1) == patternValue {
      var dx, dy := Neighbours[n].0, Neighbours[n].1;
      assert -1 <= dx <= 1 && -1 <= dy <= 1 && (dx != 0 || dy != 0);
    }
    if dx, dy :| -1 <= dx <= 1 && -1 <= dy <= 1 && (dx != 0 || dy != 0) && Neighbour(radar, x, y, dx, dy) == patternValue {
      var n := 3 * (dx + 1) + (dy + 1);
      var k := if n < 4 then n else n - 1;
      assert Neighbours[k] == (dx, dy);
    }
  }

  /** An off-grid neighbour never matches a stored pattern value. */
  lemma OffGridNeighbourNeverMatches(v: int, radar: Rows, x: int, y: int, dx: int, dy: int)
    requires CellOf(radar, x + dx, y + dy).None?
    ensures Neighbour(radar, x, y, dx, dy) != Some(v)
  {
  }

  /** calculate_cell_score: 0 when the radar has no cell there; otherwise the
      exact weight, else the adjacent weight, else noise * (r * noise). */
  function CellScore(w: Weights, patternValue: Option<int>, radar: Rows, x: int, y: int, r: real): (s: real)
    ensures CellOf(radar, x, y).None? ==> s == 0.0
    ensures CellOf(radar, x, y).Some? && CellOf(radar, x, y) == patternValue ==> s == w.exact
    ensures (CellOf(radar, x, y).Some? && CellOf(radar, x, y) != patternValue
             && AdjacentMatch(patternValue, radar, x, y)) ==> s == w.adjacent
    ensures (CellOf(radar, x, y).Some? && CellOf(radar, x, y) != patternValue
             && !AdjacentMatch(patternValue, radar, x, y)) ==> s == w.noise * (r * w.noise)
  {
    match CellOf(radar, x, y)
    case None => 0.0
    case Some(radarValue) =>
      if ExactMatch(patternValue, radarValue) then w.exact
      else if AdjacentMatch(patternValue, radar, x, y) then w.adjacent
      else w.noise * (r * w.noise)
  }

  /** The noise score lies in [0, noise^2), and is 0 when noise is 0. */
  lemma NoiseIsBounded(noise: real, r: real)
    requires 0.0 <= r < 1.0
    ensures 0.0 <= noise * (r * noise)
    ensures noise != 0.0 ==> noise * (r * noise) < noise * noise
    ensures noise == 0.0 ==> noise * (r * noise) == 0.0
  {
    assert noise * (r * noise) == r * (noise * noise);
    if noise != 0.0 {
      assert noise * noise > 0.0;
    }
  }

  /** With weights and draw in [0, 1], every cell scores in [0, 1]. */
  lemma CellScoreInUnitInterval(w: Weights, patternValue: Option<int>, radar: Rows, x: int, y: int, r: real)
    requires UnitWeights(w) && 0.0 <= r < 1.0
    ensures 0.0 <= CellScore(w, patternValue, radar, x, y, r) <= 1.0
  {
    var s := CellScore(w, patternValue, radar, x, y, r);
    var radarValue := CellOf(radar, x, y);
    if radarValue.None? {
      assert s == 0.0;
    } else if radarValue == patternValue {
      assert s == w.exact;
    } else if AdjacentMatch(patternValue, radar, x, y) {
      assert s == w.adjacent;
    } else {
      NoiseIsBounded(w.noise, r);
      assert w.noise * w.noise <= 1.0 by {
        assert w.noise * w.noise <= w.noise * 1.0;
      }
      assert s == w.noise * (r * w.noise);
    }
  }

  /** The radar cell under pattern cell (x, y) of a placement. */
  function RadarCellUnder(pl: Placement, x: int, y: int): Option<int>
  {
    CellOf(pl.radar, pl.startX + x, pl.startY + y)
  }

  /** The score of pattern cell (x, y) in a placement. */
  function PlacedCellScore(w: Weights, pl: Placement, draws: (int, int) -> real, x: int, y: int): real
  {
    CellScore(w, CellOf(pl.pattern, x, y), pl.radar, pl.startX + x, pl.startY + y, draws(x, y))
  }

  /** The scores of the first n cells of pattern column x, summed. */
  function ColumnScore(w: Weights, pl: Placement, draws: (int, int) -> real, x: int, n: nat): real
  {
    if n == 0 then 0.0 else ColumnScore(w, pl, draws, x, n - 1) + PlacedCellScore(w, pl, draws, x, n - 1)
  }

  /** The scores of the first m pattern columns, summed: total_score. */
  function TotalScore(w: Weights, pl: Placement, draws: (int, int) -> real, m: nat): real
  {
    if m == 0 then 0.0 else TotalScore(w, pl, draws, m - 1) + ColumnScore(w, pl, draws, m - 1, |pl.pattern|)
  }

  /** calculate_similarity as a value: 0 when either grid has no width or no
      height, 0 when the pattern is wider or taller than the radar, and
      otherwise total_score divided by the pattern's full area. */
  function SimilarityAt(w: Weights, pl: Placement, draws: (int, int) -> real): (s: real)
    ensures Width(pl.pattern) == 0 || |pl.pattern| == 0 || Width(pl.radar) == 0 || |pl.radar| == 0 ==> s == 0.0
    ensures Width(pl.pattern) > Width(pl.radar) || |pl.pattern| > |pl.radar| ==> s == 0.0
  {
    var px, py := Width(pl.pattern), |pl.pattern|;
    if px == 0 || py == 0 || Width(pl.radar) == 0 || |pl.radar| == 0 then 0.0
    else if px > Width(pl.radar) || py > |pl.radar| then 0.0
    else TotalScore(w, pl, draws, px) / ((px * py) as real)
  }

  /** The placement is scored: both grids are non-empty and the pattern fits
      in the radar. */
  predicate Scored(pl: Placement)
  {
    && Width(pl.pattern) > 0 && |pl.pattern| > 0 && Width(pl.radar) > 0 && |pl.radar| > 0
    && Width(pl.pattern) <= Width(pl.radar) && |pl.pattern| <= |pl.radar|
  }

  lemma {:induction false} ColumnScoreBounds(w: Weights, pl: Placement, draws: (int, int) -> real, x: int, n: nat)
    requires UnitWeights(w) && UnitDraws(draws)
    ensures 0.0 <= ColumnScore(w, pl, draws, x, n) <= n as real
  {
    if n > 0 {
      ColumnScoreBounds(w, pl, draws, x, n - 1);
      PlacedCellScoreInUnitInterval(w, pl, draws, x, n - 1);
    }
  }

  /** Every placed cell scores in [0, 1]. */
  lemma PlacedCellScoreInUnitInterval(w: Weights, pl: Placement, draws: (int, int) -> real, x: int, y: int)
    requires UnitWeights(w) && UnitDraws(draws)
    ensures 0.0 <= PlacedCellScore(w, pl, draws, x, y) <= 1.0
  {
    CellScoreInUnitInterval(w, CellOf(pl.pattern, x, y), pl.radar, pl.startX + x, pl.startY + y, draws(x, y));
  }

  lemma {:induction false} TotalScoreBounds(w: Weights, pl: Placement, draws: (int, int) -> real, m: nat)
    requires UnitWeights(w) && UnitDraws(draws)
    ensures 0.0 <= TotalScore(w, pl, draws, m) <= (m * |pl.pattern|) as real
  {
    if m > 0 {
      TotalScoreBounds(w, pl, draws, m - 1);
      ColumnScoreBounds(w, pl, draws, m - 1, |pl.pattern|);
      assert m * |pl.pattern| == (m - 1) * |pl.pattern| + |pl.pattern|;
    }
  }

  /** A scored placement's similarity is its total over the pattern's area. */
  lemma ScoredSimilarity(w: Weights, pl: Placement, draws: (int, int) -> real)
    requires Scored(pl)
    ensures Width(pl.pattern) * |pl.pattern| > 0
    ensures SimilarityAt(w, pl, draws)
            == TotalScore(w, pl, draws, Width(pl.pattern)) / ((Width(pl.pattern) * |pl.pattern|) as real)
  {
    var px, py := Width(pl.pattern), |pl.pattern|;
    assert px * py >= py by {
      assert px * py == (px - 1) * py + py;
    }
  }

  /** Dividing by a positive number keeps the order. */
  lemma DivisionIsMonotone(a: real, b: real, d: real)
    requires a <= b && d > 0.0
    ensures a / d <= b / d
  {
    assert b / d - a / d == (b - a) / d;
  }

  /** A share of a positive whole lies in [0, 1]. */
  lemma UnitQuotient(t: real, d: real)
    requires 0.0 <= t <= d && d > 0.0
    ensures 0.0 <= t / d <= 1.0
  {
    DivisionIsMonotone(0.0, t, d);
    DivisionIsMonotone(t, d, d);
    assert d / d == 1.0;
  }

  /** With weights in [0, 1] and draws in [0, 1), the similarity lies in [0, 1]. */
  lemma SimilarityInUnitInterval(w: Weights, pl: Placement, draws: (int, int) -> real)
    requires UnitWeights(w) && UnitDraws(draws)
    ensures 0.0 <= SimilarityAt(w, pl, draws) <= 1.0
  {
    if Scored(pl) {
      var px, py := Width(pl.pattern), |pl.pattern|;
      TotalScoreBounds(w, pl, draws, px);
      ScoredSimilarity(w, pl, draws);
      UnitQuotient(TotalScore(w, pl, draws, px), (px * py) as real);
    }
  }

  /** The bound above, for every placement at once. */
  lemma SimilarityAlwaysInUnitInterval(w: Weights, draws: (int, int) -> real)
    ensures UnitWeights(w) && UnitDraws(draws) ==> forall pl :: 0.0 <= SimilarityAt(w, pl, draws) <= 1.0
  {
    if UnitWeights(w) && UnitDraws(draws) {
      forall pl
        ensures 0.0 <= SimilarityAt(w, pl, draws) <= 1.0
      {
        SimilarityInUnitInterval(w, pl, draws);
      }
    }
  }

  /** Every pattern cell lies on a radar cell holding the same value. */
  ghost predicate MatchesEverywhere(pl: Placement)
  {
    forall x, y :: 0 <= x < Width(pl.pattern) && 0 <= y < |pl.pattern| ==>
      CellOf(pl.pattern, x, y).Some? && RadarCellUnder(pl, x, y) == CellOf(pl.pattern, x, y)
  }

  lemma {:induction false} ExactColumn(w: Weights, pl: Placement, draws: (int, int) -> real, x: int, n: nat)
    requires MatchesEverywhere(pl) && 0 <= x < Width(pl.pattern) && n <= |pl.pattern|
    ensures ColumnScore(w, pl, draws, x, n) == (n as real) * w.exact
  {
    if n > 0 {
      ExactColumn(w, pl, draws, x, n - 1);
      assert CellOf(pl.pattern, x, n - 1).Some? && RadarCellUnder(pl, x, n - 1) == CellOf(pl.pattern, x, n - 1);
    }
  }

  /** When each of the first m columns adds c, the total is m * c. */
  lemma {:induction false} UniformColumns(w: Weights, pl: Placement, draws: (int, int) -> real, m: nat, c: real)
    requires forall x :: 0 <= x < m ==> ColumnScore(w, pl, draws, x, |pl.pattern|) == c
    ensures TotalScore(w, pl, draws, m) == (m as real) * c
  {
    if m > 0 {
      UniformColumns(w, pl, draws, m - 1, c);
      assert (m as real) * c == ((m - 1) as real) * c + c;
    }
  }

  /** When every pattern cell matches its radar cell exactly, the similarity
      is the exact weight (1.0 with the default weights). */
  lemma ExactEverywhereScoresExact(w: Weights, pl: Placement, draws: (int, int) -> real)
    requires Scored(pl) && MatchesEverywhere(pl)
    ensures SimilarityAt(w, pl, draws) == w.exact
  {
    var px, py := Width(pl.pattern), |pl.pattern|;
    var c := (py as real) * w.exact;
    forall x | 0 <= x < px
      ensures ColumnScore(w, pl, draws, x, py) == c
    {
      ExactColumn(w, pl, draws, x, py);
    }
    UniformColumns(w, pl, draws, px, c);
    ScoredSimilarity(w, pl, draws);
    var area := (px * py) as real;
    assert area == (px as real) * (py as real);
    assert (px as real) * c == area * w.exact;
    assert area * w.exact / area == w.exact;
  }

  /** No pattern cell lies on the radar. */
  ghost predicate NothingVisible(pl: Placement)
  {
    forall x, y :: 0 <= x < Width(pl.pattern) && 0 <= y < |pl.pattern| ==> RadarCellUnder(pl, x, y).None?
  }

  lemma {:induction false} HiddenColumn(w: Weights, pl: Placement, draws: (int, int) -> real, x: int, n: nat)
    requires NothingVisible(pl) && 0 <= x < Width(pl.pattern) && n <= |pl.pattern|
    ensures ColumnScore(w, pl, draws, x, n) == 0.0
  {
    if n > 0 {
      HiddenColumn(w, pl, draws, x, n - 1);
      assert RadarCellUnder(pl, x, n - 1).None?;
    }
  }

  lemma {:induction false} HiddenTotal(w: Weights, pl: Placement, draws: (int, int) -> real, m: nat)
    requires NothingVisible(pl) && m <= Width(pl.pattern)
    ensures TotalScore(w, pl, draws, m) == 0.0
  {
    if m > 0 {
      HiddenTotal(w, pl, draws, m - 1);
      HiddenColumn(w, pl, draws, m - 1, |pl.pattern|);
    }
  }

  /** A placement whose cells are all off the radar scores 0, whatever the
      weights and draws. */
  lemma NothingVisibleScoresZero(w: Weights, pl: Placement, draws: (int, int) -> real)
    requires NothingVisible(pl)
    ensures SimilarityAt(w, pl, draws) == 0.0
  {
    if Scored(pl) {
      HiddenTotal(w, pl, draws, Width(pl.pattern));
    }
  }

  lemma {:induction false} ColumnWithHiddenCell(w: Weights, pl: Placement, draws: (int, int) -> real, n: nat, y0: int)
    requires UnitWeights(w) && UnitDraws(draws)
    requires 0 <= y0 < n
    requires CellOf(pl.radar, pl.startX, pl.startY + y0).None?
    ensures ColumnScore(w, pl, draws, 0, n) <= (n - 1) as real
  {
    if n - 1 == y0 {
      ColumnScoreBounds(w, pl, draws, 0, n - 1);
    } else {
      ColumnWithHiddenCell(w, pl, draws, n - 1, y0);
      PlacedCellScoreInUnitInterval(w, pl, draws, 0, n - 1);
    }
  }

  /** The denominator is the full pattern area, not the visible part: with
      weights in [0, 1], a placement whose top-left pattern cell lies off the
      radar scores at most (area - 1) / area. */
  lemma HiddenCellStillCounts(w: Weights, pl: Placement, draws: (int, int) -> real)
    requires UnitWeights(w) && UnitDraws(draws) && Scored(pl)
    requires CellOf(pl.radar, pl.startX, pl.startY).None?
    ensures var area := Width(pl.pattern) * |pl.pattern|;
            SimilarityAt(w, pl, draws) <= ((area - 1) as real) / (area as real)
  {
    var px, py := Width(pl.pattern), |pl.pattern|;
    var area := px * py;
    ColumnWithHiddenCell(w, pl, draws, py, 0);
    RestScoreBounds(w, pl, draws, px);
    assert (px - 1) * py + py == area;
    var t := TotalScore(w, pl, draws, px);
    assert t <= (area - 1) as real;
    ScoredSimilarity(w, pl, draws);
    DivisionIsMonotone(t, (area - 1) as real, area as real);
  }

  /** Columns 1 to m - 1 add at most py each to the first column's score. */
  lemma {:induction false} RestScoreBounds(w: Weights, pl: Placement, draws: (int, int) -> real, m: nat)
    requires UnitWeights(w) && UnitDraws(draws) && m >= 1
    ensures TotalScore(w, pl, draws, m) <= TotalScore(w, pl, draws, 1) + ((m - 1) * |pl.pattern|) as real
  {
    if m > 1 {
      RestScoreBounds(w, pl, draws, m - 1);
      ColumnScoreBounds(w, pl, draws, m - 1, |pl.pattern|);
      assert (m - 1) * |pl.pattern| == (m - 2) * |pl.pattern| + |pl.pattern|;
    }
  }

  class SimilarityCalculator {
    const weights: Weights

    /** SimilarityCalculator.new(weights:). */
    constructor (weights: Weights)
      ensures this.weights == weights
    {
      this.weights := weights;
    }

    /** The inner loop of calculate_similarity: the scores of pattern column
        x, y from 0 to y_size - 1, summed. */
    method ColumnTotal(pattern: Matrix, radar: Matrix, startX: int, startY: int, draws: (int, int) -> real, x: int)
      returns (column: real)
      requires pattern.Valid() && radar.Valid() && 0 <= x < pattern.xSize
      ensures column == ColumnScore(weights, Placement(pattern.data, radar.data, startX, startY), draws, x, |pattern.data|)
    {
      ghost var pl := Placement(pattern.data, radar.data, startX, startY);
      column := 0.0;
      var y := 0;
      while y < pattern.ySize
        invariant 0 <= y <= pattern.ySize
        invariant column == ColumnScore(weights, pl, draws, x, y)
      {
        var patternValue := pattern.CellAt(x, y);
        var cellScore := CellScore(weights, patternValue, radar.data, startX + x, startY + y, draws(x, y));
        assert cellScore == PlacedCellScore(weights, pl, draws, x, y);
        column := column + cellScore;
        y := y + 1;
      }
    }

    /** calculate_similarity: the two early returns of 0.0, then total_score
        accumulated column by column (x outer, y inner) and divided by the
        pattern's area; the result is SimilarityAt of the two grids. */
    method CalculateSimilarity(pattern: Matrix, radar: Matrix, startX: int, startY: int, draws: (int, int) -> real)
      returns (s: real)
      requires pattern.Valid() && radar.Valid()
      ensures s == SimilarityAt(weights, Placement(pattern.data, radar.data, startX, startY), draws)
    {
      ghost var pl := Placement(pattern.data, radar.data, startX, startY);
      if pattern.xSize == 0 || pattern.ySize == 0 || radar.xSize == 0 || radar.ySize == 0 {
        return 0.0;
      }
      if pattern.xSize > radar.xSize || pattern.ySize > radar.ySize {
        return 0.0;
      }
      var total := 0.0;
      var maxPossibleScore := pattern.xSize * pattern.ySize;
      var x := 0;
      while x < pattern.xSize
        invariant 0 <= x <= pattern.xSize
        invariant total == TotalScore(weights, pl, draws, x)
      {
        var column := ColumnTotal(pattern, radar, startX, startY, draws, x);
        total := total + column;
        x := x + 1;
      }
      assert pl.pattern == pattern.data && Width(pl.pattern) == pattern.xSize && |pl.pattern| == pattern.ySize;
      s := total / (maxPossibleScore as real);
    }
  }
}
