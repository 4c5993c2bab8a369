/** PatternLibrary: the known shapes, in the order they were added. */
module PatternLibraries {
  import opened Grids
  import opened Matrices
  import opened Patterns

  /** The base matrix of each pattern, in order. */
  function BaseMatrices(ps: seq<Pattern>): (ms: seq<Matrix>)
    ensures |ms| == |ps|
    ensures forall i :: 0 <= i < |ps| ==> ms[i] == ps[i].matrix
  {
    if ps == [] then [] else [ps[0].matrix] + BaseMatrices(ps[1..])
  }

  class PatternLibrary {
    var patterns: seq<Pattern>

    /** No pattern object occurs twice (each was made by the library itself). */
    ghost predicate Valid()
      reads this
    {
      forall i, j :: 0 <= i < j < |patterns| ==> patterns[i] != patterns[j]
    }

    /** PatternLibrary.new(matrices): one new pattern per matrix, in order. */
    constructor (matrices: seq<Matrix>)
      requires forall i :: 0 <= i < |matrices| ==> matrices[i].Valid()
      ensures Valid() && |patterns| == |matrices|
      ensures forall i :: 0 <= i < |matrices| ==>
                fresh(patterns[i]) && patterns[i].matrix == matrices[i] && patterns[i].cache == [] && patterns[i].Valid()
    {
      var ps: seq<Pattern> := [];
      var i := 0;
      while i < |matrices|
        invariant 0 <= i <= |matrices| && |ps| == i
        invariant forall k :: 0 <= k < i ==>
                    fresh(ps[k]) && ps[k].matrix == matrices[k] && ps[k].cache == [] && ps[k].Valid()
        invariant forall k, l :: 0 <= k < l < i ==> ps[k] != ps[l]
      {
        var p := new Pattern(matrices[i]);
        ps := ps + [p];
        i := i + 1;
      }
      patterns := ps;
    }

    /** add_pattern: one new pattern wrapping the matrix, at the end; the
        earlier patterns stay as they were. */
    method AddPattern(m: Matrix)
      requires Valid() && m.Valid()
      modifies this
      ensures Valid() && |patterns| == |old(patterns)| + 1
      ensures patterns[..|old(patterns)|] == old(patterns)
      ensures var p := patterns[|patterns| - 1]; fresh(p) && p.matrix == m && p.cache == [] && p.Valid()
    {
      var p := new Pattern(m);
      patterns := patterns + [p];
    }

    /** base_patterns: the wrapped matrices, one per pattern, in insertion order. */
    function BasePatterns(): (ms: seq<Matrix>)
      reads this
      ensures |ms| == |patterns|
      ensures forall i :: 0 <= i < |patterns| ==> ms[i] == patterns[i].matrix
    {
      BaseMatrices(patterns)
    }

    /** all_rotations: every pattern's four turns, pattern after pattern, so
        there are 4 per pattern and entry 4i is the base matrix of pattern i;
        each pattern's cache holds its four entries afterwards, and a pattern
        whose turns were already memoised hands back those same matrices. */
    method AllRotations() returns (rs: seq<Matrix>)
      requires Valid()
      requires forall i :: 0 <= i < |patterns| ==> patterns[i].Valid() && Rectangular(patterns[i].matrix.data)
      modifies patterns
      ensures |rs| == 4 * |patterns|
      ensures forall i :: 0 <= i < |patterns| ==>
                patterns[i].Valid() && patterns[i].cache == rs[4 * i..4 * i + 4] && rs[4 * i] == patterns[i].matrix
      ensures forall i :: 0 <= i < |patterns| ==> IsRotationChain(rs[4 * i..4 * i + 4])
      ensures forall i :: 0 <= i < |patterns| && old(patterns[i].cache) != [] ==> patterns[i].cache == old(patterns[i].cache)
      ensures forall i :: 0 <= i < |patterns| && old(patterns[i].cache) != [] ==> rs[4 * i..4 * i + 4] == old(patterns[i].cache)
    {
      rs := [];
      var i := 0;
      while i < |patterns|
        invariant 0 <= i <= |patterns| && |rs| == 4 * i
        invariant forall j :: 0 <= j < |patterns| ==> patterns[j].Valid() && Rectangular(patterns[j].matrix.data)
        invariant forall j :: 0 <= j < i ==> patterns[j].cache == rs[4 * j..4 * j + 4] && rs[4 * j] == patterns[j].matrix
        invariant forall j :: 0 <= j < |patterns| && old(patterns[j].cache) != [] ==> patterns[j].cache == old(patterns[j].cache)
        invariant forall j :: i <= j < |patterns| ==> patterns[j].cache == old(patterns[j].cache)
      {
        rs := AppendRotations(i, rs);
        i := i + 1;
      }
      forall i | 0 <= i < |patterns|
        ensures IsRotationChain(rs[4 * i..4 * i + 4])
      {
        assert patterns[i].Valid() && patterns[i].cache == rs[4 * i..4 * i + 4];
        assert |patterns[i].cache| == 4;
      }
    }

    /** One step of all_rotations: the turns of pattern i are appended after
        those of the patterns before it, whose caches stay as they were; a
        cache already filled is kept. */
    method AppendRotations(i: int, rs: seq<Matrix>) returns (rs': seq<Matrix>)
      requires Valid() && 0 <= i < |patterns| && |rs| == 4 * i
      requires forall j :: 0 <= j < |patterns| ==> patterns[j].Valid() && Rectangular(patterns[j].matrix.data)
      requires forall j :: 0 <= j < i ==> patterns[j].cache == rs[4 * j..4 * j + 4] && rs[4 * j] == patterns[j].matrix
      modifies patterns[i]
      ensures |rs'| == 4 * (i + 1) && rs'[..4 * i] == rs
      ensures forall j :: 0 <= j < |patterns| ==> patterns[j].Valid() && Rectangular(patterns[j].matrix.data)
      ensures forall j :: 0 <= j <= i ==> patterns[j].cache == rs'[4 * j..4 * j + 4] && rs'[4 * j] == patterns[j].matrix
      ensures forall j :: 0 <= j < |patterns| && old(patterns[j].cache) != [] ==> patterns[j].cache == old(patterns[j].cache)
    {
      var turns := patterns[i].Rotations();
      rs' := rs + turns;
      forall j | 0 <= j < i
        ensures rs'[4 * j..4 * j + 4] == rs[4 * j..4 * j + 4]
      {
      }
      assert rs'[4 * i..4 * i + 4] == turns;
    }
  }
}
