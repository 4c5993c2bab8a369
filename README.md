# Space invaders detector — a verified model of the matching core

The detector reads a radar picture and a set of invader pictures as text. In
the text, `o` marks a filled cell and `-` an empty one. It turns each picture
into a grid of cells (1 filled, 0 empty, -1 any other character). It then
slides each invader over the radar, or optionally each of the invader's four
quarter-turn rotations. At every offset it scores how well the two grids agree, and it reports
the offsets whose score reaches the threshold of 0.8.

This project models the `Invaders` library classes in Dafny:

- `Matrix` is the class `Matrices.Matrix`, with its cached sizes.
- `Parser` is the module `Parsers`, with its validation messages.
- `Pattern` is `Patterns.Pattern`, with its memoised rotations.
- `PatternLibrary` is `PatternLibraries.PatternLibrary`.
- `SimilarityCalculator` is `Similarity.SimilarityCalculator`, with its cell scoring.
- `Matcher` is `Matchers.Matcher`, with its scan.

Classes whose objects the Ruby code updates in place are Dafny classes. Their
methods are proved against value-level functions:

| function | what it defines |
|---|---|
| `Grids.CellOf` | a cell lookup |
| `Patterns.Rotate` | a quarter turn |
| `Similarity.SimilarityAt` | the score of one placement |
| `Matchers.Keep` over `Matchers.Offsets` | the results of a scan |

The properties of the library are proved as lemmas about these functions.

Raised exceptions are modelled as values that carry the exact message:

- `Errors.ArgumentError`
- `Errors.InvalidDataError`

Each one comes back as a `Result` or an `Outcome`. A `nil` argument is an
`Option` or a nullable class reference.

Four facts about the code shape the model:

- The similarity has no visibility gate: a placement is scored however little
  of the pattern lies on the radar.
- The score is divided by the pattern's full area, not by the part of it that
  lies on the radar (`Similarity.HiddenCellStillCounts`).
- The scan uses offsets 0..rx-px by 0..ry-py only, with no negative offsets.
- A pattern larger than the radar is an `ArgumentError`.

Ragged grids are kept as the Ruby code sees them:

- `x_size` is the length of the first row.
- A cell past the end of a shorter row is `nil`.

## Model

| member | source | states |
|---|---|---|
| Grids.CellOf | lib/invaders/matrix.rb:12-15 | a position off the grid gives nil; a value is only found at an in-range position, where it is the stored cell; on a rectangular grid every in-range position has a value; a row shorter than x gives nil |
| Matrices.Matrix.constructor | lib/invaders/matrix.rb:7-10 | the matrix holds the given rows, y_size is their number and x_size the first row's length (0 when there are none) |
| Matrices.Matrix.RecalculateSize | lib/invaders/matrix.rb:42-45 | the cached sizes match the rows again and the rows are untouched |
| Matrices.Matrix.CellAt | lib/invaders/matrix.rb:12-15 | the lookup through the cached sizes equals the value-level lookup; out-of-range positions give nil |
| Matrices.Matrix.AddLine | lib/invaders/matrix.rb:17-20 | the line is appended, y_size grows by one, x_size stays unless the matrix was empty, and every earlier cell reads the same |
| Matrices.Matrix.LoadData | lib/invaders/matrix.rb:28-34 | a nil parser raises "Parser cannot be nil" and a parse error propagates, both leaving the matrix unchanged; otherwise the matrix holds the parsed grid, which is rectangular with positive sizes |
| Matrices.Matrix.ValidPosition | lib/invaders/matrix.rb:47-49 | true exactly when 0 <= x <= x_size-1 and 0 <= y <= y_size-1; off those ranges the lookup gives nil, and on a rectangular matrix every valid position holds a value |
| Matrices.Matrix.ToA | lib/invaders/matrix.rb:36-38 | the rows returned are the matrix's rows |
| Parsers.ValidateChars | lib/invaders/parser.rb:46-49 | "Characters must be single characters" exactly when a character is not one long, otherwise "Characters must be different" exactly when they are equal, otherwise no error |
| Parsers.NewParser | lib/invaders/parser.rb:9-13 | a parser is built exactly when the characters are valid, and it keeps them; otherwise the validation error is raised |
| Parsers.DefaultParser | lib/invaders/parser.rb:9 | the default parser is the one built from 'o' and '-' |
| Parsers.ConvertCharToCell | lib/invaders/parser.rb:38-44 | 1 exactly for the cell character, 0 exactly for the empty character, -1 for any other character |
| Parsers.ParseLine | lib/invaders/parser.rb:32-36 | one cell per character, in order, each the conversion of its character |
| Parsers.ParseLines | lib/invaders/parser.rb:26-30 | one row per line, in order, each the parse of its line |
| Parsers.SplitLines | lib/invaders/parser.rb:27 | each_line with chomp: the text is cut after every line feed, the line feed (and a carriage return before it) dropped; there are no more lines than characters, and none only for the empty text; with SplitJoinRoundTrip, SplitJoinLast, NoLineFeedIsOneLine and CrLfIsStripped below, lines joined by line feeds come back unchanged and a last line without a line feed comes back whole |
| Parsers.LineEnd | lib/invaders/parser.rb:27 | where each_line cuts: the first line feed of the text, or its end when it has none |
| Parsers.SplitLinesHaveNoLineFeed | lib/invaders/parser.rb:27 | no split line contains a line feed |
| Parsers.SplitJoinRoundTrip | lib/invaders/parser.rb:27 | joining plain lines with line feeds and splitting the text gives the lines back |
| Parsers.NoLineFeedIsOneLine | lib/invaders/parser.rb:27 | a non-empty text without a line feed is one line, kept whole, a trailing carriage return included |
| Parsers.SplitJoinLast | lib/invaders/parser.rb:27 | plain lines joined by line feeds, followed by a last line with no line feed, split back into those lines followed by the last one unchanged |
| Parsers.SplitAfterPlainLine | lib/invaders/parser.rb:27 | a plain line followed by a line feed is split off unchanged in front of the rest's lines |
| Parsers.SplitFirstLine | lib/invaders/parser.rb:27 | the first of several joined plain lines is split off unchanged in front of the split of the remaining text |
| Parsers.CrLfIsStripped | lib/invaders/parser.rb:27 | a line ended by CR LF loses both characters |
| Parsers.LineEndOfLine | lib/invaders/parser.rb:27 | the first line of a line followed by a line feed ends at that line feed |
| Parsers.ValidateParsedData | lib/invaders/parser.rb:51-57 | "No valid lines found in input" exactly when there are no lines, "All lines must have the same length" exactly when lengths differ, "Lines cannot be empty" exactly when the common length is 0, no error exactly when the grid is non-empty, rectangular and of positive width |
| Parsers.Parse | lib/invaders/parser.rb:15-22 | nil input raises "Input data cannot be nil"; a success is a non-empty rectangular grid of positive width whose cells are all 1, 0 or -1 |
| Parsers.ParseOutcome | lib/invaders/parser.rb:15-57 | for every text, each error happens exactly in its case of the split lines, and a success is the parse of each split line |
| Parsers.InvaderRowTop | spec/invaders/parser_spec.rb:29-37 | the line "oo---oo" parses to 1, 1, 0, 0, 0, 1, 1 |
| Parsers.InvaderRowMiddle | spec/invaders/parser_spec.rb:30-38 | the line "---o---" parses to 0, 0, 0, 1, 0, 0, 0 |
| Parsers.InvaderRowBottom | spec/invaders/parser_spec.rb:31-39 | the line "--ooo--" parses to 0, 0, 1, 1, 1, 0, 0 |
| Parsers.InvaderLines | spec/invaders/parser_spec.rb:27-33 | the invader text, three lines each ended by a line feed, splits into its three lines |
| Parsers.InvaderRows | spec/invaders/parser_spec.rb:27-41 | the three lines parse into the three expected rows |
| Parsers.InvaderIsValid | spec/invaders/parser_spec.rb:35-41 | the expected rows pass validation: three rows, all seven wide |
| Parsers.ParseOfValidLines | lib/invaders/parser.rb:15-22 | a text whose split lines parse into rows that pass validation parses to exactly those rows |
| Parsers.InvaderExample | spec/invaders/parser_spec.rb:27-45 | parsing the invader text with the default parser gives the expected three rows of seven cells |
| Parsers.ParserTestExamples | spec/invaders/parser_spec.rb:77-83 | "oo-\n-----\n" is refused for unequal lengths and the empty text for having no lines |
| Patterns.Rotate | lib/invaders/pattern.rb:29-41 | a quarter turn clockwise: the result has as many rows as the input has columns, it is rectangular, and cell (a, b) of the result is cell (b, rows-1-a) of the input |
| Patterns.RotateWithoutColumns | lib/invaders/pattern.rb:30-40 | a grid with no columns turns into a grid with no rows |
| Patterns.QuarterTurnMovesCell | lib/invaders/pattern.rb:36 | cell (j, i) of the input lands at column rows-1-i of row j |
| Patterns.HalfTurn | lib/invaders/pattern.rb:29-41 | two quarter turns reverse the rows and each row |
| Patterns.FourTurnsAreIdentity | lib/invaders/pattern.rb:17-27 | four quarter turns give back the original grid, so the four rotations close up |
| Patterns.Rotate90Degrees | lib/invaders/pattern.rb:29-41 | the new matrix, filled cell by cell in place, holds the quarter turn of the input's grid |
| Patterns.GenerateRotations | lib/invaders/pattern.rb:17-27 | four matrices: the original first, each next one the quarter turn of the one before, the three turned ones new |
| Patterns.Pattern.constructor | lib/invaders/pattern.rb:7-9 | the pattern wraps the matrix and has no rotations memoised |
| Patterns.Pattern.Rotations | lib/invaders/pattern.rb:11-13 | the four-rotation chain starting at the pattern's matrix; once memoised, later calls return the same matrices |
| PatternLibraries.BaseMatrices | lib/invaders/pattern_library.rb:18 | one matrix per pattern, in order, each the pattern's own matrix |
| PatternLibraries.PatternLibrary.constructor | lib/invaders/pattern_library.rb:5-7 | one new pattern per given matrix, in order, wrapping it, with nothing memoised |
| PatternLibraries.PatternLibrary.AddPattern | lib/invaders/pattern_library.rb:9-11 | one new pattern wrapping the matrix is appended and the earlier patterns stay |
| PatternLibraries.PatternLibrary.BasePatterns | lib/invaders/pattern_library.rb:17-19 | the base matrix of every pattern, in insertion order |
| PatternLibraries.PatternLibrary.AllRotations | lib/invaders/pattern_library.rb:13-15 | four matrices per pattern, in library order: each group starts with the pattern's matrix, is its rotation chain, and is what that pattern now memoises; a pattern whose turns were already memoised keeps that cache and its group is exactly those matrices |
| PatternLibraries.PatternLibrary.AppendRotations | lib/invaders/pattern_library.rb:14 | the four turns of pattern i are appended after those already collected, which stay as they were, and that pattern now memoises them; a cache already filled is kept, so its matrices are the ones appended |
| Similarity.ExactMatch | lib/invaders/similarity_calculator.rb:69-71 | true exactly when the pattern value is present and equals the radar value (so -1 matches -1), never for a nil pattern value |
| Similarity.AdjacentMatch | lib/invaders/similarity_calculator.rb:73-84 | true exactly when one of the eight neighbours (dx, dy in -1..1, not both 0) holds the pattern value, a neighbour off the radar counting as nil |
| Similarity.OffGridNeighbourNeverMatches | lib/invaders/similarity_calculator.rb:79-80 | a neighbour off the radar never matches a pattern value that is present |
| Similarity.CellScore | lib/invaders/similarity_calculator.rb:41-67 | 0 when the radar cell is nil; the exact weight when the values are equal; otherwise the adjacent weight when a neighbour matches; otherwise noise * (draw * noise) |
| Similarity.NoiseIsBounded | lib/invaders/similarity_calculator.rb:58-63 | with noise in [0, 1] and a draw in [0, 1), the noise score lies in [0, noise squared] |
| Similarity.CellScoreInUnitInterval | lib/invaders/similarity_calculator.rb:41-67 | with weights in [0, 1] every cell score lies in [0, 1] |
| Similarity.ColumnScore | lib/invaders/similarity_calculator.rb:19-33 | the inner accumulation of calculate_similarity: the scores of the first n cells of pattern column x, summed (ColumnTotal is proved to compute it) |
| Similarity.TotalScore | lib/invaders/similarity_calculator.rb:18-34 | the outer accumulation: the column sums of the first m pattern columns, summed (CalculateSimilarity is proved to compute it) |
| Similarity.ScoredSimilarity | lib/invaders/similarity_calculator.rb:36 | a placement past the early returns has a positive area, and its similarity is the total divided by the pattern's full area |
| Similarity.SimilarityAt | lib/invaders/similarity_calculator.rb:9-37 | 0 when either grid has no width or no height, or when the pattern is wider or taller than the radar |
| Similarity.ColumnScoreBounds | lib/invaders/similarity_calculator.rb:19-33 | a column of n cells adds between 0 and n to the total |
| Similarity.TotalScoreBounds | lib/invaders/similarity_calculator.rb:18-34 | the total over m columns lies between 0 and m times the pattern height |
| Similarity.SimilarityAlwaysInUnitInterval | lib/invaders/similarity_calculator.rb:9-37 | with weights and draws in [0, 1], every placement's similarity lies in [0, 1] |
| Similarity.SimilarityInUnitInterval | lib/invaders/similarity_calculator.rb:9-37 | with weights in [0, 1] the similarity lies in [0, 1] |
| Similarity.ExactColumn | lib/invaders/similarity_calculator.rb:19-33 | when every cell of a column matches exactly, the column adds the exact weight per cell |
| Similarity.UniformColumns | lib/invaders/similarity_calculator.rb:18-34 | when each of the first m columns adds the same amount c, the total over them is m * c |
| Similarity.ExactEverywhereScoresExact | lib/invaders/similarity_calculator.rb:9-37 | a placement where every pattern cell matches the radar cell under it scores exactly the exact weight |
| Similarity.HiddenColumn | lib/invaders/similarity_calculator.rb:19-33 | a column lying wholly off the radar adds 0 |
| Similarity.HiddenTotal | lib/invaders/similarity_calculator.rb:18-34 | columns lying wholly off the radar add 0 |
| Similarity.NothingVisibleScoresZero | lib/invaders/similarity_calculator.rb:9-45 | a placement with no pattern cell on the radar scores 0 |
| Similarity.ColumnWithHiddenCell | lib/invaders/similarity_calculator.rb:42-45 | with weights and draws in [0, 1], pattern column 0 over n cells, any one of which (y0 < n) lies off the radar, adds at most n - 1 |
| Similarity.RestScoreBounds | lib/invaders/similarity_calculator.rb:18-34 | columns after the first add at most the pattern height each |
| Similarity.HiddenCellStillCounts | lib/invaders/similarity_calculator.rb:15-45 | cells off the radar still count in the denominator: with the top-left cell off the radar the score is at most (area-1)/area |
| Similarity.SimilarityCalculator.constructor | lib/invaders/similarity_calculator.rb:5-7 | the calculator keeps its weights |
| Similarity.SimilarityCalculator.ColumnTotal | lib/invaders/similarity_calculator.rb:19-33 | the inner loop over y returns the summed scores of every cell of pattern column x |
| Similarity.SimilarityCalculator.CalculateSimilarity | lib/invaders/similarity_calculator.rb:9-37 | the nested loop over the two matrices returns the similarity of the placement (x outer, y inner, divided by the pattern's area) |
| Matchers.Offsets | lib/invaders/matcher.rb:29-30 | the offsets of the nested y-then-x scan; empty exactly when one of the two ranges is; with OffsetsLength, OffsetsMembers and OffsetsInScanOrder below, it holds each (x, y) with 0 <= x < w and 0 <= y < h once, row by row |
| Matchers.Keep | lib/invaders/matcher.rb:29-36 | the results of scoring the offsets in order and keeping those reaching the threshold; with KeepLength, KeepMembers and KeepInScanOrder below, there are never more results than offsets, a result is kept exactly when its offset scores at least the threshold, and results stay in scan order |
| Matchers.KeepLength | lib/invaders/matcher.rb:29-36 | the scan never reports more results than it scored offsets |
| Matchers.Row | lib/invaders/matcher.rb:30 | the offsets (0, y) to (n-1, y), in order |
| Matchers.OffsetsNextRow | lib/invaders/matcher.rb:29-30 | scanning one more row appends exactly that row's offsets, in x order |
| Matchers.OffsetsLength | lib/invaders/matcher.rb:29-30 | the scan visits w * h offsets |
| Matchers.OffsetsMembers | lib/invaders/matcher.rb:29-30 | an offset is scanned exactly when 0 <= x < w and 0 <= y < h |
| Matchers.OffsetsGrowByRow | lib/invaders/matcher.rb:29-30 | an offset is among the first h scan rows exactly when it is among the first h-1 or in row h-1 |
| Matchers.OffsetsInScanOrder | lib/invaders/matcher.rb:29-30 | offsets are visited row by row, left to right, each once |
| Matchers.KeepOneMore | lib/invaders/matcher.rb:34-36 | scanning one more offset adds its result exactly when its score reaches the threshold |
| Matchers.KeepMembers | lib/invaders/matcher.rb:31-36 | a result is kept exactly when its offset was scanned and the calculator's score there, which it carries, reaches the threshold |
| Matchers.KeepInScanOrder | lib/invaders/matcher.rb:27-40 | results come out in scan order |
| Matchers.AtLeast | lib/invaders/matcher.rb:34 | the filter keeps exactly the results reaching the threshold and never adds any |
| Matchers.RaisingThresholdFilters | lib/invaders/matcher.rb:34 | the results at a higher threshold are those at the lower one that reach it |
| Matchers.Matcher.constructor | lib/invaders/matcher.rb:13-23 | the matcher keeps its calculator and threshold |
| Matchers.Matcher.ValidateInputs | lib/invaders/matcher.rb:45-49 | "Pattern cannot be nil" exactly for a nil pattern, then "Radar cannot be nil" exactly for a nil radar, then "Pattern size exceeds radar size" exactly when the pattern is wider or taller, and no error exactly when it fits |
| Matchers.Matcher.ScanRow | lib/invaders/matcher.rb:30-37 | the inner loop over x scores the offsets (0, y) to (rx-px, y) in order and appends those reaching the threshold |
| Matchers.Matcher.Scan | lib/invaders/matcher.rb:29-38 | the two nested loops score every offset of 0..rx-px by 0..ry-py in scan order and return the results reaching the threshold |
| Matchers.Matcher.FindMatches | lib/invaders/matcher.rb:25-41 | a validation error is returned before any score is computed; otherwise the calculator is consulted at each offset of the scan 0..rx-px by 0..ry-py in order and the result keeps those reaching the threshold |
| Matchers.MatchesAreExactlyTheQualifyingOffsets | lib/invaders/matcher.rb:25-41 | every result lies in the scan range with the calculator's score there, at least the threshold; every qualifying offset is reported; results are in scan order; the scan has (rx-px+1)(ry-py+1) offsets |
| Matchers.FreshDrawsInUnitInterval | lib/invaders/similarity_calculator.rb:9-37 | with weights in [0, 1] and each offset's own draws in [0, 1), the similarity at every offset lies in [0, 1] |
| Matchers.DefaultCalculator | lib/invaders/matcher.rb:19-22 | the calculator built from the weights scores each offset with the similarity of that placement, using that offset's own random draws, and with weights in [0, 1] and draws in [0, 1) every score lies in [0, 1] |
| Matchers.DefaultMatchesInUnitInterval | lib/invaders/matcher.rb:19-22 | with the default calculator, weights in [0, 1] and every offset's draws in [0, 1), every reported similarity lies in [0, 1] |
| Matchers.TwoByTwoScan | spec/invaders/matcher_spec.rb:5-6 | a 2-by-2 pattern on a 3-by-3 radar is scanned at (0,0), (1,0), (0,1), (1,1) |
| Matchers.KeepTwoByTwo | lib/invaders/matcher.rb:29-36 | the results of that scan, offset by offset |
| Matchers.StubbedCalculatorScenario | spec/invaders/matcher_spec.rb:18-33 | scores 0.9, 0.7, 0.85, 0.6 at threshold 0.8 give the results (0,0,0.9) and (0,1,0.85) |
| Matchers.AllEmptyPlacementScoresOne | lib/invaders/similarity_calculator.rb:9-37 | a 2-by-2 all-empty pattern scores 1.0 anywhere on a 3-by-3 all-empty radar |
| Matchers.PerfectScoresAllKept | lib/invaders/matcher.rb:29-36 | a calculator scoring 1.0 at each offset of the 2-by-2 scan has all four offsets reported at threshold 0.8, in scan order |
| Matchers.AllEmptyExample | lib/invaders/matcher.rb:25-41 | with the default weights, that pattern is found at all four offsets with similarity 1.0, whatever each offset's draws |

## Left out

- Reading the input files, the application object that wires the classes together, the command-line entry point and the result printer are not part of this model (they are I/O).
- `Matrix#display` prints to standard output; it is I/O and is not modelled.
- `MatcherResult` is modelled as a plain value with its three fields. Its formatting is not modelled.
- The check that the parser's input is a String is not modelled, because a Dafny `string` input is always a string. Only the nil case remains.
- `Kernel#rand` is not modelled as a generator. Its draws are an explicit function from a pattern cell to a number, and the default calculator takes one such function per offset, since each call of `calculate_similarity` draws afresh. The bound lemmas require draws in [0, 1).
- Similarity scores are exact reals, not IEEE doubles, so rounding in the running sum is not modelled.
- `random_noise?` is not modelled because nothing calls it. The final `return 0.0` of `calculate_cell_score` is not modelled because no input reaches it.
- Matchers.Matcher.FindMatches: the calculator is a function of the two grids and the offset. A calculator whose answer depends on earlier calls cannot be expressed. The test's stubbed sequence of scores is therefore given as a function of the offset.
- Matchers.Matcher.constructor: building the default calculator from the weights is left to `Matchers.DefaultCalculator`. The constructor takes the calculator itself.
- Patterns.Rotate requires a rectangular grid, which excludes the ragged grids the Ruby code accepts: a short row would put nil in the turned grid, and the model's cells cannot hold nil.
- Patterns.GenerateRotations requires a rectangular matrix, for the same reason.
- PatternLibraries.PatternLibrary.AppendRotations requires the pattern's matrix to be rectangular, for the same reason.
- Patterns.Rotate90Degrees requires a rectangular matrix. A ragged matrix would store nil in an integer grid, and the model's cells cannot hold nil.
- Patterns.Pattern.Rotations requires a rectangular base matrix, for the same reason.
- PatternLibraries.PatternLibrary.AllRotations requires every base matrix to be rectangular, for the same reason.
- Patterns.Pattern.Rotations: the model does not cover the base matrix being changed after the rotations were memoised. The Ruby cache would then go stale. The model's validity invariant excludes that case.
- Matrices.Matrix.ToA returns the rows as values. The copy made by `map(&:dup)` needs no modelling, because Dafny sequences cannot be aliased.
- Matrices.Matrix.LoadData: for the same reason, the `map(&:dup)` copy is not modelled.
- Aliasing of arrays is not modelled, because Dafny sequences are values: `Matrix.new` keeps the caller's array (matrix.rb:8), so the `<<` of `add_line` (matrix.rb:18) is seen by the caller, and `Pattern#rotations` hands out its memoised array itself (pattern.rb:12), so a caller could change the cache. The `is_a?(String)` guard of `validate_chars!` (parser.rb:47) is not modelled either, because the characters are Dafny strings: a non-string argument cannot be expressed.
- Matcher configuration from the environment or command-line options is not part of this model.
