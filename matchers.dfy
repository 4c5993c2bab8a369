/** Matcher: slides the pattern over every offset where it fits inside the
    radar, row by row, and keeps the offsets whose similarity reaches the
    threshold. The similarity calculator is the matcher's collaborator and is
    given to it as a function. */
module Matchers {
  import opened Wrappers
  import opened Errors
  import opened Grids
  import opened Matrices
  import Similarity

  /** MatcherResult: an accepted offset and its similarity. */
  datatype MatcherResult = MatcherResult(x: int, y: int, similarity: real)

  /** Matcher::MATCH_THRESHOLD. */
  const MatchThreshold: real := 0.8

  /** calculate_similarity(pattern, radar, x, y) of the calculator a matcher
      holds, as a function of the two grids' rows and the offset. */
  type Calculator = (Rows, Rows, int, int) -> real

  /** The offsets (0, y), ..., (n - 1, y): one row of the scan, x ascending. */
  function Row(y: int, n: nat): (offs: seq<(int, int)>)
    ensures |offs| == n
    ensures forall i :: 0 <= i < n ==> offs[i] == (i, y)
  {
    if n == 0 then [] else Row(y, n - 1) + [(n - 1, y)]
  }

  /** The offsets of the first h scan rows, each row holding w offsets: the
      nested (0..ry-py) / (0..rx-px) loops, y outer, x inner. The scan is
      empty exactly when one of its two ranges is. */
  function Offsets(w: nat, h: nat): (offs: seq<(int, int)>)
    ensures offs == [] <==> w == 0 || h == 0
  {
    if h == 0 then [] else Offsets(w, h - 1) + Row(h - 1, w)
  }

  /** Offset a comes before offset b in the scan: a smaller y, or the same y
      and a smaller x. */
  predicate Before(a: (int, int), b: (int, int))
  {
    a.1 < b.1 || (a.1 == b.1 && a.0 < b.0)
  }

  /** Offsets in strictly ascending (y, x) order, so each at most once. */
  predicate Ascending(offs: seq<(int, int)>)
  {
    forall i, j :: 0 <= i < j < |offs| ==> Before(offs[i], offs[j])
  }

  /** Results in strictly ascending (y, x) order. */
  predicate InScanOrder(ms: seq<MatcherResult>)
  {
    forall i, j :: 0 <= i < j < |ms| ==> Before((ms[i].x, ms[i].y), (ms[j].x, ms[j].y))
  }

  /** Scanning one more row appends that row's offsets. */
  lemma OffsetsNextRow(w: nat, y: nat)
    ensures Offsets(w, y + 1) == Offsets(w, y) + Row(y, w)
  {
  }

  /** The scan makes w * h calls. */
  lemma {:induction false} OffsetsLength(w: nat, h: nat)
    ensures |Offsets(w, h)| == w * h
  {
    if h > 0 {
      OffsetsLength(w, h - 1);
      assert w * h == w * (h - 1) + w;
    }
  }

  /** One scan row holds exactly the offsets (x, y) with 0 <= x < n. */
  lemma RowMembers(y: int, n: nat)
    ensures forall o :: o in Row(y, n) <==> 0 <= o.0 < n && o.1 == y
  {
    var row := Row(y, n);
    forall o | o in row
      ensures 0 <= o.0 < n && o.1 == y
    {
      var i :| 0 <= i < |row| && row[i] == o;
    }
    forall o: (int, int) | 0 <= o.0 < n && o.1 == y
      ensures o in row
    {
      assert row[o.0] == o;
    }
  }

  /** The scan visits exactly the offsets with 0 <= x < w and 0 <= y < h. */
  lemma {:induction false} OffsetsMembers(w: nat, h: nat)
    ensures forall o :: o in Offsets(w, h) <==> 0 <= o.0 < w && 0 <= o.1 < h
  {
    if h > 0 {
      OffsetsMembers(w, h - 1);
      forall o: (int, int)
        ensures o in Offsets(w, h) <==> 0 <= o.0 < w && 0 <= o.1 < h
      {
        OffsetsGrowByRow(w, h, o);
      }
    }
  }

  /** An offset is among the first h scan rows exactly when it is among the
      first h - 1 or in row h - 1. */
  lemma OffsetsGrowByRow(w: nat, h: nat, o: (int, int))
    requires h > 0
    ensures o in Offsets(w, h) <==> o in Offsets(w, h - 1) || (0 <= o.0 < w && o.1 == h - 1)
  {
    RowMembers(h - 1, w);
    assert Offsets(w, h) == Offsets(w, h - 1) + Row(h - 1, w);
  }

  /** Every offset of the first h scan rows has y < h. */
  lemma {:induction false} OffsetsAbove(w: nat, h: nat)
    ensures forall i :: 0 <= i < |Offsets(w, h)| ==> Offsets(w, h)[i].1 < h
  {
    if h > 0 {
      OffsetsAbove(w, h - 1);
      var prev, row := Offsets(w, h - 1), Row(h - 1, w);
      var all: seq<(int, int)> := prev + row;
      assert Offsets(w, h) == all;
      forall i | 0 <= i < |all|
        ensures all[i].1 < h
      {
        if i < |prev| {
          assert all[i] == prev[i];
        } else {
          assert all[i] == row[i - |prev|];
        }
      }
    }
  }

  /** Two ascending runs, the first wholly before the second, make one. */
  lemma AscendingAppend(a: seq<(int, int)>, b: seq<(int, int)>)
    requires Ascending(a) && Ascending(b)
    requires forall i, j :: 0 <= i < |a| && 0 <= j < |b| ==> Before(a[i], b[j])
    ensures Ascending(a + b)
  {
    forall i, j | 0 <= i < j < |a + b|
      ensures Before((a + b)[i], (a + b)[j])
    {
      if j < |a| {
        assert (a + b)[i] == a[i] && (a + b)[j] == a[j];
      } else if i < |a| {
        assert (a + b)[i] == a[i] && (a + b)[j] == b[j - |a|];
      } else {
        assert (a + b)[i] == b[i - |a|] && (a + b)[j] == b[j - |a|];
      }
    }
  }

  /** The scan visits offsets in strictly ascending (y, x) order, so each
      offset once. */
  lemma {:induction false} OffsetsInScanOrder(w: nat, h: nat)
    ensures Ascending(Offsets(w, h))
  {
    if h > 0 {
      OffsetsInScanOrder(w, h - 1);
      OffsetsAbove(w, h - 1);
      var prev, row := Offsets(w, h - 1), Row(h - 1, w);
      assert Offsets(w, h) == prev + row;
      AscendingAppend(prev, row);
    }
  }

  /** The results of scoring the offsets in order and keeping those whose
      similarity is at least the threshold, each with its similarity. */
  function Keep(sim: Calculator, pattern: Rows, radar: Rows, threshold: real, offs: seq<(int, int)>): (ms: seq<MatcherResult>)
  {
    if offs == [] then []
    else
      var o := offs[|offs| - 1];
      var s := sim(pattern, radar, o.0, o.1);
      var kept := Keep(sim, pattern, radar, threshold, offs[..|offs| - 1]);
      if s >= threshold then kept + [MatcherResult(o.0, o.1, s)] else kept
  }

  /** The scan never reports more results than it scored offsets. */
  lemma {:induction false} KeepLength(sim: Calculator, pattern: Rows, radar: Rows, threshold: real, offs: seq<(int, int)>)
    ensures |Keep(sim, pattern, radar, threshold, offs)| <= |offs|
  {
    if offs != [] {
      KeepLength(sim, pattern, radar, threshold, offs[..|offs| - 1]);
    }
  }

  /** Scoring one more offset appends at most its own result. */
  lemma KeepOneMore(sim: Calculator, pattern: Rows, radar: Rows, threshold: real, offs: seq<(int, int)>, o: (int, int))
    ensures var s := sim(pattern, radar, o.0, o.1);
            Keep(sim, pattern, radar, threshold, offs + [o])
            == Keep(sim, pattern, radar, threshold, offs) + (if s >= threshold then [MatcherResult(o.0, o.1, s)] else [])
  {
    assert (offs + [o])[..|offs|] == offs;
  }

  /** A result is kept exactly when its offset was scanned, its similarity is
      the calculator's score there, and that score reaches the threshold. */
  lemma {:induction false} KeepMembers(sim: Calculator, pattern: Rows, radar: Rows, threshold: real, offs: seq<(int, int)>)
    ensures forall m :: m in Keep(sim, pattern, radar, threshold, offs) <==>
              (m.x, m.y) in offs && m.similarity == sim(pattern, radar, m.x, m.y) && m.similarity >= threshold
  {
    if offs != [] {
      var init := offs[..|offs| - 1];
      KeepMembers(sim, pattern, radar, threshold, init);
      assert offs == init + [offs[|offs| - 1]];
    }
  }

  /** Results follow the scan order: strictly ascending offsets stay strictly
      ascending, with no re-sorting by similarity. */
  lemma {:induction false} KeepInScanOrder(sim: Calculator, pattern: Rows, radar: Rows, threshold: real, offs: seq<(int, int)>)
    requires Ascending(offs)
    ensures InScanOrder(Keep(sim, pattern, radar, threshold, offs))
  {
    if offs != [] {
      var init := offs[..|offs| - 1];
      var last := offs[|offs| - 1];
      KeepInScanOrder(sim, pattern, radar, threshold, init);
      KeepMembers(sim, pattern, radar, threshold, init);
      var kept := Keep(sim, pattern, radar, threshold, init);
      forall m | m in kept
        ensures Before((m.x, m.y), last)
      {
        var i :| 0 <= i < |init| && init[i] == (m.x, m.y);
        assert init[i] == offs[i];
      }
      var s := sim(pattern, radar, last.0, last.1);
      if s >= threshold {
        var ms := kept + [MatcherResult(last.0, last.1, s)];
        forall i, j | 0 <= i < j < |ms|
          ensures Before((ms[i].x, ms[i].y), (ms[j].x, ms[j].y))
        {
          if j == |kept| {
            assert ms[i] == kept[i] && kept[i] in kept;
            assert Before((kept[i].x, kept[i].y), last);
            assert (ms[j].x, ms[j].y) == last;
          } else {
            assert ms[i] == kept[i] && ms[j] == kept[j];
            assert Before((kept[i].x, kept[i].y), (kept[j].x, kept[j].y));
          }
        }
        assert Keep(sim, pattern, radar, threshold, offs) == ms;
      }
    }
  }

  /** The results whose similarity is at least t, in order. */
  function AtLeast(ms: seq<MatcherResult>, t: real): (r: seq<MatcherResult>)
    ensures |r| <= |ms|
    ensures forall m :: m in r <==> m in ms && m.similarity >= t
  {
    if ms == [] then []
    else
      var kept := AtLeast(ms[..|ms| - 1], t);
      assert ms == ms[..|ms| - 1] + [ms[|ms| - 1]];
      if ms[|ms| - 1].similarity >= t then kept + [ms[|ms| - 1]] else kept
  }

  /** Raising the threshold from t1 to t2 keeps exactly the earlier results
      that reach t2, in the same order: a subsequence of the earlier results. */
  lemma {:induction false} RaisingThresholdFilters(sim: Calculator, pattern: Rows, radar: Rows, t1: real, t2: real, offs: seq<(int, int)>)
    requires t1 <= t2
    ensures Keep(sim, pattern, radar, t2, offs) == AtLeast(Keep(sim, pattern, radar, t1, offs), t2)
  {
    if offs != [] {
      var init := offs[..|offs| - 1];
      RaisingThresholdFilters(sim, pattern, radar, t1, t2, init);
      var k1 := Keep(sim, pattern, radar, t1, init);
      var o := offs[|offs| - 1];
      var s := sim(pattern, radar, o.0, o.1);
      if s >= t1 {
        var ms := k1 + [MatcherResult(o.0, o.1, s)];
        assert ms[..|ms| - 1] == k1;
      }
    }
  }

  class Matcher {
    const matchThreshold: real
    const similarityCalculator: Calculator

    /** Matcher.new(similarity_calculator:, match_threshold:). */
    constructor (similarityCalculator: Calculator, matchThreshold: real)
      ensures this.similarityCalculator == similarityCalculator && this.matchThreshold == matchThreshold
    {
      this.similarityCalculator := similarityCalculator;
      this.matchThreshold := matchThreshold;
    }

    /** validate_inputs!: a nil pattern, then a nil radar, then a pattern
        wider or taller than the radar, each with its message. */
    function ValidateInputs(pattern: Matrix?, radar: Matrix?): (o: Outcome<Error>)
      reads pattern, radar
      ensures o == Fail(ArgumentError("Pattern cannot be nil")) <==> pattern == null
      ensures o == Fail(ArgumentError("Radar cannot be nil")) <==> pattern != null && radar == null
      ensures o == Fail(ArgumentError("Pattern size exceeds radar size")) <==>
                pattern != null && radar != null && (pattern.xSize > radar.xSize || pattern.ySize > radar.ySize)
      ensures o == Pass <==> pattern != null && radar != null && pattern.xSize <= radar.xSize && pattern.ySize <= radar.ySize
    {
      if pattern == null then Fail(ArgumentError("Pattern cannot be nil"))
      else if radar == null then Fail(ArgumentError("Radar cannot be nil"))
      else if pattern.xSize > radar.xSize || pattern.ySize > radar.ySize then Fail(ArgumentError("Pattern size exceeds radar size"))
      else Pass
    }

    /** The inner loop of find_matches: the offsets (0, y) to (xLast, y),
        xLast being rx-px, are scored in order and those reaching the
        threshold are appended. */
    method ScanRow(pattern: Rows, radar: Rows, xLast: int, y: int, matches: seq<MatcherResult>, ghost scanned: seq<(int, int)>)
      returns (matches': seq<MatcherResult>, ghost scanned': seq<(int, int)>)
      requires -1 <= xLast
      requires matches == Keep(similarityCalculator, pattern, radar, matchThreshold, scanned)
      ensures scanned' == scanned + Row(y, xLast + 1)
      ensures matches' == Keep(similarityCalculator, pattern, radar, matchThreshold, scanned')
    {
      matches', scanned' := matches, scanned;
      var x := 0;
      while x <= xLast
        invariant 0 <= x <= xLast + 1
        invariant scanned' == scanned + Row(y, x)
        invariant matches' == Keep(similarityCalculator, pattern, radar, matchThreshold, scanned')
      {
        var similarity := similarityCalculator(pattern, radar, x, y);
        scanned' := scanned' + [(x, y)];
        if similarity >= matchThreshold {
          matches' := matches' + [MatcherResult(x, y, similarity)];
        }
        x := x + 1;
      }
    }

    /** find_matches: after validation, the calculator is called once per
        offset of the scan 0..rx-px by 0..ry-py, in scan order (the ghost
        out-parameter scanned lists those calls), and the result holds the
        offsets scoring at least the threshold. A validation error is
        returned before any call. */
    method FindMatches(pattern: Matrix?, radar: Matrix?)
      returns (result: Result<seq<MatcherResult>, Error>, ghost scanned: seq<(int, int)>)
      requires pattern != null ==> pattern.Valid()
      requires radar != null ==> radar.Valid()
      ensures ValidateInputs(pattern, radar).Fail? ==>
                result == Failure(ValidateInputs(pattern, radar).error) && scanned == []
      ensures ValidateInputs(pattern, radar) == Pass ==>
                scanned == Offsets(radar.xSize - pattern.xSize + 1, radar.ySize - pattern.ySize + 1)
                && result == Success(Keep(similarityCalculator, pattern.data, radar.data, matchThreshold, scanned))
    {
      scanned := [];
      var validation := ValidateInputs(pattern, radar);
      if validation.Fail? {
        return Failure(validation.error), scanned;
      }
      var matches;
      matches, scanned := Scan(pattern, radar);
      result := Success(matches);
    }

    /** The two nested loops of find_matches, y outer over 0..ry-py and x
        inner over 0..rx-px, on inputs that passed validation. */
    method Scan(pattern: Matrix, radar: Matrix) returns (matches: seq<MatcherResult>, ghost scanned: seq<(int, int)>)
      requires pattern.xSize <= radar.xSize && pattern.ySize <= radar.ySize
      ensures scanned == Offsets(radar.xSize - pattern.xSize + 1, radar.ySize - pattern.ySize + 1)
      ensures matches == Keep(similarityCalculator, pattern.data, radar.data, matchThreshold, scanned)
    {
      var patternData, radarData := pattern.data, radar.data;
      var xLast, yLast := radar.xSize - pattern.xSize, radar.ySize - pattern.ySize;
      matches, scanned := [], [];
      var y := 0;
      while y <= yLast
        invariant 0 <= y <= yLast + 1
        invariant scanned == Offsets(xLast + 1, y)
        invariant matches == Keep(similarityCalculator, patternData, radarData, matchThreshold, scanned)
      {
        OffsetsNextRow(xLast + 1, y);
        matches, scanned := ScanRow(patternData, radarData, xLast, y, matches, scanned);
        y := y + 1;
      }
    }
  }

  /** What find_matches promises about a successful result: every result is a
      scanned offset with 0 <= x <= rx-px and 0 <= y <= ry-py, carrying the
      calculator's score there, which reaches the threshold; every scanned
      offset that reaches the threshold is in the result; the results are in
      scan order; and the calculator was called (rx-px+1) * (ry-py+1) times. */
  lemma MatchesAreExactlyTheQualifyingOffsets(sim: Calculator, pattern: Rows, radar: Rows, threshold: real, w: nat, h: nat)
    ensures |Offsets(w, h)| == w * h
    ensures var ms := Keep(sim, pattern, radar, threshold, Offsets(w, h));
            && (forall m :: m in ms ==>
                  0 <= m.x < w && 0 <= m.y < h && m.similarity == sim(pattern, radar, m.x, m.y) && m.similarity >= threshold)
            && (forall x, y :: 0 <= x < w && 0 <= y < h && sim(pattern, radar, x, y) >= threshold ==>
                  MatcherResult(x, y, sim(pattern, radar, x, y)) in ms)
            && InScanOrder(ms)
  {
    OffsetsLength(w, h);
    OffsetsMembers(w, h);
    OffsetsInScanOrder(w, h);
    KeepMembers(sim, pattern, radar, threshold, Offsets(w, h));
    KeepInScanOrder(sim, pattern, radar, threshold, Offsets(w, h));
  }

  /** The random draws of every call of calculate_similarity: draws(x, y) are
      the draws Kernel#rand makes while the pattern is scored at offset (x, y),
      so each offset has draws of its own. */
  type OffsetDraws = (int, int) -> ((int, int) -> real)

  /** Every offset's draws lie in [0, 1), as Kernel#rand gives them. */
  ghost predicate UnitDrawsAtEveryOffset(draws: OffsetDraws)
  {
    forall ox, oy :: Similarity.UnitDraws(draws(ox, oy))
  }

  /** With weights in [0, 1] and every offset's draws in [0, 1), the
      similarity at every offset lies in [0, 1]. */
  lemma FreshDrawsInUnitInterval(w: Similarity.Weights, draws: OffsetDraws)
    ensures Similarity.UnitWeights(w) && UnitDrawsAtEveryOffset(draws) ==>
              forall pattern, radar, x, y ::
                0.0 <= Similarity.SimilarityAt(w, Similarity.Placement(pattern, radar, x, y), draws(x, y)) <= 1.0
  {
    if Similarity.UnitWeights(w) && UnitDrawsAtEveryOffset(draws) {
      forall pattern, radar, x, y
        ensures 0.0 <= Similarity.SimilarityAt(w, Similarity.Placement(pattern, radar, x, y), draws(x, y)) <= 1.0
      {
        Similarity.SimilarityInUnitInterval(w, Similarity.Placement(pattern, radar, x, y), draws(x, y));
      }
    }
  }

  /** The calculator a matcher builds by default: each call scores the
      placement with that offset's own random draws. */
  function DefaultCalculator(w: Similarity.Weights, draws: OffsetDraws): (c: Calculator)
    ensures forall pattern, radar, x, y ::
              c(pattern, radar, x, y) == Similarity.SimilarityAt(w, Similarity.Placement(pattern, radar, x, y), draws(x, y))
    ensures Similarity.UnitWeights(w) && UnitDrawsAtEveryOffset(draws) ==>
              forall pattern, radar, x, y :: 0.0 <= c(pattern, radar, x, y) <= 1.0
  {
    FreshDrawsInUnitInterval(w, draws);
    (pattern, radar, x, y) => Similarity.SimilarityAt(w, Similarity.Placement(pattern, radar, x, y), draws(x, y))
  }

  /** With the default calculator and weights in [0, 1], every result's
      similarity lies in [0, 1]. */
  lemma DefaultMatchesInUnitInterval(w: Similarity.Weights, draws: OffsetDraws, pattern: Rows, radar: Rows,
                                     threshold: real, offs: seq<(int, int)>)
    requires Similarity.UnitWeights(w) && UnitDrawsAtEveryOffset(draws)
    ensures forall m :: m in Keep(DefaultCalculator(w, draws), pattern, radar, threshold, offs) ==> 0.0 <= m.similarity <= 1.0
  {
    KeepMembers(DefaultCalculator(w, draws), pattern, radar, threshold, offs);
    forall m | m in Keep(DefaultCalculator(w, draws), pattern, radar, threshold, offs)
      ensures 0.0 <= m.similarity <= 1.0
    {
      Similarity.SimilarityInUnitInterval(w, Similarity.Placement(pattern, radar, m.x, m.y), draws(m.x, m.y));
    }
  }

  /** The scan of a 2-by-2 pattern over a 3-by-3 radar, in order. */
  lemma TwoByTwoScan()
    ensures Offsets(2, 2) == [(0, 0), (1, 0), (0, 1), (1, 1)]
  {
    assert Row(0, 2) == [(0, 0), (1, 0)];
    assert Row(1, 2) == [(0, 1), (1, 1)];
    assert Offsets(2, 1) == Offsets(2, 0) + Row(0, 2);
  }

  /** The calculator stub of the matcher test: its four calls over a 2-by-2
      scan return 0.9, 0.7, 0.85 and 0.6, in scan order. */
  function StubCalculator(pattern: Rows, radar: Rows, x: int, y: int): real
  {
    if (x, y) == (0, 0) then 0.9 else if (x, y) == (1, 0) then 0.7
    else if (x, y) == (0, 1) then 0.85 else 0.6
  }

  /** Keep over the 2-by-2 scan, one offset at a time. */
  lemma KeepTwoByTwo(sim: Calculator, pattern: Rows, radar: Rows, threshold: real)
    ensures Keep(sim, pattern, radar, threshold, Offsets(2, 2))
            == Keep(sim, pattern, radar, threshold, [(0, 0), (1, 0), (0, 1)]) + Keep(sim, pattern, radar, threshold, [(1, 1)])
  {
    TwoByTwoScan();
    assert [(0, 0), (1, 0), (0, 1)] + [(1, 1)] == Offsets(2, 2);
    KeepOneMore(sim, pattern, radar, threshold, [(0, 0), (1, 0), (0, 1)], (1, 1));
    KeepOneMore(sim, pattern, radar, threshold, [], (1, 1));
    assert [] + [(1, 1)] == [(1, 1)];
  }

  /** The matcher test with a stubbed calculator: a 2-by-2 pattern on a
      3-by-3 radar with threshold 0.8 gives two matches, (0, 0) with 0.9 and
      (0, 1) with 0.85, in that order. */
  lemma StubbedCalculatorScenario(pattern: Rows, radar: Rows)
    ensures Keep(StubCalculator, pattern, radar, 0.8, Offsets(2, 2))
            == [MatcherResult(0, 0, 0.9), MatcherResult(0, 1, 0.85)]
  {
    var sim: Calculator := StubCalculator;
    KeepTwoByTwo(sim, pattern, radar, 0.8);
    KeepOneMore(sim, pattern, radar, 0.8, [], (0, 0));
    assert [] + [(0, 0)] == [(0, 0)];
    KeepOneMore(sim, pattern, radar, 0.8, [(0, 0)], (1, 0));
    assert [(0, 0)] + [(1, 0)] == [(0, 0), (1, 0)];
    KeepOneMore(sim, pattern, radar, 0.8, [(0, 0), (1, 0)], (0, 1));
    assert [(0, 0), (1, 0)] + [(0, 1)] == [(0, 0), (1, 0), (0, 1)];
    assert Keep(sim, pattern, radar, 0.8, [(0, 0), (1, 0), (0, 1)]) == [MatcherResult(0, 0, 0.9), MatcherResult(0, 1, 0.85)];
    assert Keep(sim, pattern, radar, 0.8, [(1, 1)]) == [];
  }

  /** On an all-empty 3-by-3 radar, an all-empty 2-by-2 pattern at any offset
      of the scan matches every cell exactly. */
  lemma AllEmptyPlacementScoresOne(draws: OffsetDraws, x: int, y: int)
    requires 0 <= x <= 1 && 0 <= y <= 1
    ensures DefaultCalculator(Similarity.DefaultWeights, draws)([[0, 0], [0, 0]], [[0, 0, 0], [0, 0, 0], [0, 0, 0]], x, y) == 1.0
  {
    var pattern: Rows := [[0, 0], [0, 0]];
    var radar: Rows := [[0, 0, 0], [0, 0, 0], [0, 0, 0]];
    var pl := Similarity.Placement(pattern, radar, x, y);
    assert Width(pattern) == 2 && Width(radar) == 3;
    forall px, py | 0 <= px < 2 && 0 <= py < 2
      ensures CellOf(pattern, px, py).Some? && Similarity.RadarCellUnder(pl, px, py) == CellOf(pattern, px, py)
    {
      assert CellOf(pattern, px, py) == Some(0);
      assert CellOf(radar, x + px, y + py) == Some(0);
    }
    assert Similarity.MatchesEverywhere(pl);
    assert Similarity.Scored(pl);
    Similarity.ExactEverywhereScoresExact(Similarity.DefaultWeights, pl, draws(x, y));
  }

  /** A calculator scoring 1.0 at each offset of the 2-by-2 scan: at the
      default threshold all four offsets are reported, in scan order. */
  lemma PerfectScoresAllKept(sim: Calculator, pattern: Rows, radar: Rows)
    requires sim(pattern, radar, 0, 0) == 1.0 && sim(pattern, radar, 1, 0) == 1.0
    requires sim(pattern, radar, 0, 1) == 1.0 && sim(pattern, radar, 1, 1) == 1.0
    ensures Keep(sim, pattern, radar, MatchThreshold, Offsets(2, 2))
            == [MatcherResult(0, 0, 1.0), MatcherResult(1, 0, 1.0), MatcherResult(0, 1, 1.0), MatcherResult(1, 1, 1.0)]
  {
    KeepTwoByTwo(sim, pattern, radar, MatchThreshold);
    KeepOneMore(sim, pattern, radar, MatchThreshold, [], (0, 0));
    assert [] + [(0, 0)] == [(0, 0)];
    KeepOneMore(sim, pattern, radar, MatchThreshold, [(0, 0)], (1, 0));
    assert [(0, 0)] + [(1, 0)] == [(0, 0), (1, 0)];
    KeepOneMore(sim, pattern, radar, MatchThreshold, [(0, 0), (1, 0)], (0, 1));
    assert [(0, 0), (1, 0)] + [(0, 1)] == [(0, 0), (1, 0), (0, 1)];
    var first := Keep(sim, pattern, radar, MatchThreshold, [(0, 0), (1, 0), (0, 1)]);
    assert first == [MatcherResult(0, 0, 1.0), MatcherResult(1, 0, 1.0), MatcherResult(0, 1, 1.0)];
    assert Keep(sim, pattern, radar, MatchThreshold, [(1, 1)]) == [MatcherResult(1, 1, 1.0)];
  }

  /** An all-empty 2-by-2 pattern on an all-empty 3-by-3 radar, with the
      default weights and threshold: every one of the four offsets matches
      with similarity 1.0, whatever the random draws. */
  lemma AllEmptyExample(draws: OffsetDraws)
    ensures Keep(DefaultCalculator(Similarity.DefaultWeights, draws), [[0, 0], [0, 0]], [[0, 0, 0], [0, 0, 0], [0, 0, 0]],
                 MatchThreshold, Offsets(2, 2))
            == [MatcherResult(0, 0, 1.0), MatcherResult(1, 0, 1.0), MatcherResult(0, 1, 1.0), MatcherResult(1, 1, 1.0)]
  {
    AllEmptyPlacementScoresOne(draws, 0, 0);
    AllEmptyPlacementScoresOne(draws, 1, 0);
    AllEmptyPlacementScoresOne(draws, 0, 1);
    AllEmptyPlacementScoresOne(draws, 1, 1);
    PerfectScoresAllKept(DefaultCalculator(Similarity.DefaultWeights, draws), [[0, 0], [0, 0]], [[0, 0, 0], [0, 0, 0], [0, 0, 0]]);
  }
}
