/** Parser: turns text into one row of cells per line. Pure: the two alphabet
    characters are fixed when the parser is built. */
module Parsers {
  import opened Wrappers
  import opened Errors
  import opened Grids

  const Filled := 1
  const Empty := 0
  const Unknown := -1

  /** A parser's alphabet: the filled character and the empty character. */
  datatype Parser = Parser(cellChar: char, emptyCellChar: char)

  /** The check of validate_chars!: both characters must be one character long,
      and only then must they differ. */
  function ValidateChars(cellChar: string, emptyCellChar: string): (o: Outcome<Error>)
    ensures o == Fail(ArgumentError("Characters must be single characters"))
            <==> |cellChar| != 1 || |emptyCellChar| != 1
    ensures o == Fail(ArgumentError("Characters must be different"))
            <==> |cellChar| == 1 && |emptyCellChar| == 1 && cellChar == emptyCellChar
    ensures o == Pass <==> |cellChar| == 1 && |emptyCellChar| == 1 && cellChar != emptyCellChar
  {
    if |cellChar| != 1 || |emptyCellChar| != 1 then
      Fail(ArgumentError("Characters must be single characters"))
    else if cellChar == emptyCellChar then
      Fail(ArgumentError("Characters must be different"))
    else
      Pass
  }

  /** Parser.new(cell_char:, empty_cell_char:): raises what ValidateChars
      reports, otherwise keeps the two characters. */
  function NewParser(cellChar: string, emptyCellChar: string): (r: Result<Parser, Error>)
    ensures r.Success? <==> ValidateChars(cellChar, emptyCellChar) == Pass
    ensures r.Failure? ==> Fail(r.error) == ValidateChars(cellChar, emptyCellChar)
    ensures r.Success? ==> [r.value.cellChar] == cellChar && [r.value.emptyCellChar] == emptyCellChar
                           && r.value.cellChar != r.value.emptyCellChar
  {
    match ValidateChars(cellChar, emptyCellChar)
    case Fail(e) => Failure(e)
    case Pass => Success(Parser(cellChar[0], emptyCellChar[0]))
  }

  /** The default parser, with 'o' for filled and '-' for empty. */
  function DefaultParser(): (p: Parser)
    ensures NewParser("o", "-") == Success(p)
  {
    Parser('o', '-')
  }

  /** convert_char_to_cell: the filled character is 1, else the empty character
      is 0, anything else is -1. */
  function ConvertCharToCell(p: Parser, c: char): (v: int)
    ensures v == Filled <==> c == p.cellChar
    ensures v == Empty <==> c != p.cellChar && c == p.emptyCellChar
    ensures v == Unknown <==> c != p.cellChar && c != p.emptyCellChar
  {
    if c == p.cellChar then Filled
    else if c == p.emptyCellChar then Empty
    else Unknown
  }

  /** A cell value a parser can produce. */
  predicate IsCell(v: int)
  {
    v == Filled || v == Empty || v == Unknown
  }

  /** parse_line: one cell per character, in order. */
  function ParseLine(p: Parser, line: string): (row: seq<int>)
    ensures |row| == |line|
    ensures forall i :: 0 <= i < |line| ==> row[i] == ConvertCharToCell(p, line[i])
    ensures forall i :: 0 <= i < |row| ==> IsCell(row[i])
  {
    if line == [] then [] else [ConvertCharToCell(p, line[0])] + ParseLine(p, line[1..])
  }

  /** parse_lines, after the text is split: one row per line, in order. */
  function ParseLines(p: Parser, lines: seq<string>): (rows: Rows)
    ensures |rows| == |lines|
    ensures forall i :: 0 <= i < |lines| ==> rows[i] == ParseLine(p, lines[i])
  {
    if lines == [] then [] else [ParseLine(p, lines[0])] + ParseLines(p, lines[1..])
  }

  /** The index of the first line feed in s, or |s| when there is none. */
  function LineEnd(s: string): (k: nat)
    ensures k <= |s|
    ensures forall i :: 0 <= i < k ==> s[i] != '\n'
    ensures k < |s| ==> s[k] == '\n'
  {
    if s == [] then 0 else if s[0] == '\n' then 0 else 1 + LineEnd(s[1..])
  }

  /** Drops one trailing carriage return (the '\r' of a "\r\n" terminator). */
  function StripCR(t: string): string
  {
    if |t| > 0 && t[|t| - 1] == '\r' then t[..|t| - 1] else t
  }

  /** String#each_line(chomp: true) with the default separator: the text is cut
      after every line feed, a trailing "\n" or "\r\n" is removed from each
      piece, and a last piece without a line feed is kept as it is. */
  function SplitLines(s: string): (lines: seq<string>)
    ensures |lines| <= |s|
    ensures lines == [] <==> s == []
    decreases |s|
  {
    if s == [] then []
    else
      var k := LineEnd(s);
      if k == |s| then [s] else [StripCR(s[..k])] + SplitLines(s[k + 1..])
  }

  /** No line that SplitLines produces contains a line feed. */
  lemma {:induction false} SplitLinesHaveNoLineFeed(s: string)
    ensures forall i, j :: 0 <= i < |SplitLines(s)| && 0 <= j < |SplitLines(s)[i]| ==> SplitLines(s)[i][j] != '\n'
    decreases |s|
  {
    if s != [] {
      var k := LineEnd(s);
      if k < |s| {
        SplitLinesHaveNoLineFeed(s[k + 1..]);
      }
    }
  }

  /** A line as it is written to a file: no line feed inside and no trailing
      carriage return (one would be taken for half of a "\r\n"). */
  predicate PlainLine(line: string)
  {
    (forall i :: 0 <= i < |line| ==> line[i] != '\n') && (|line| == 0 || line[|line| - 1] != '\r')
  }

  /** The text of lines, each followed by a line feed. */
  function JoinLines(lines: seq<string>): string
  {
    if lines == [] then "" else lines[0] + "\n" + JoinLines(lines[1..])
  }

  /** Splitting the text of plain lines gives the lines back. */
  lemma {:induction false} SplitJoinRoundTrip(lines: seq<string>)
    requires forall i :: 0 <= i < |lines| ==> PlainLine(lines[i])
    ensures SplitLines(JoinLines(lines)) == lines
  {
    if lines != [] {
      var l, rest := lines[0], JoinLines(lines[1..]);
      var s := JoinLines(lines);
      assert s == l + "\n" + rest;
      LineEndOfLine(l, rest);
      assert s[..|l|] == l;
      assert s[|l| + 1..] == rest;
      SplitJoinRoundTrip(lines[1..]);
    }
  }

  /** A text with no line feed is one line, kept whole: a trailing '\r' stays. */
  lemma NoLineFeedIsOneLine(s: string)
    requires s != [] && forall i :: 0 <= i < |s| ==> s[i] != '\n'
    ensures SplitLines(s) == [s]
  {
  }

  /** A last line without a line feed comes back unchanged after the plain
      lines before it. */
  lemma {:induction false} SplitJoinLast(lines: seq<string>, last: string)
    requires forall i :: 0 <= i < |lines| ==> PlainLine(lines[i])
    requires last != [] && forall i :: 0 <= i < |last| ==> last[i] != '\n'
    ensures SplitLines(JoinLines(lines) + last) == lines + [last]
  {
    if lines == [] {
      assert JoinLines(lines) + last == last;
      NoLineFeedIsOneLine(last);
    } else {
      SplitJoinLast(lines[1..], last);
      SplitFirstLine(lines, last);
    }
  }

  /** The first of the joined lines is split off in front of the split of
      the remaining text. */
  lemma SplitFirstLine(lines: seq<string>, last: string)
    requires lines != [] && PlainLine(lines[0])
    ensures SplitLines(JoinLines(lines) + last) == [lines[0]] + SplitLines(JoinLines(lines[1..]) + last)
  {
    var rest := JoinLines(lines[1..]) + last;
    assert JoinLines(lines) + last == lines[0] + "\n" + rest;
    SplitAfterPlainLine(lines[0], rest);
  }

  /** A plain line followed by a line feed is split off as it is. */
  lemma SplitAfterPlainLine(l: string, rest: string)
    requires PlainLine(l)
    ensures SplitLines(l + "\n" + rest) == [l] + SplitLines(rest)
  {
    var s := l + "\n" + rest;
    LineEndOfLine(l, rest);
    assert s[..|l|] == l;
    assert s[|l| + 1..] == rest;
  }

  /** A line ended by "\r\n" comes out without both terminator characters. */
  lemma CrLfIsStripped(l: string, rest: string)
    requires PlainLine(l)
    ensures SplitLines(l + "\r\n" + rest) == [l] + SplitLines(rest)
  {
    var s := l + "\r\n" + rest;
    var lr := l + "\r";
    assert s == lr + "\n" + rest;
    LineEndOfLine(lr, rest);
    assert s[..|lr|] == lr;
    assert StripCR(lr) == l;
    assert s[|lr| + 1..] == rest;
  }

  /** The first line feed of line + "\n" + rest is the one after line. */
  lemma {:induction false} LineEndOfLine(line: string, rest: string)
    requires forall i :: 0 <= i < |line| ==> line[i] != '\n'
    ensures LineEnd(line + "\n" + rest) == |line|
    decreases |line|
  {
    if line != [] {
      assert (line + "\n" + rest)[1..] == line[1..] + "\n" + rest;
      LineEndOfLine(line[1..], rest);
    }
  }

  /** validate_parsed_data!: no lines, then lines of unequal length, then a
      first line of length zero, in that order. */
  function ValidateParsedData(rows: Rows): (o: Outcome<Error>)
    ensures o == Fail(InvalidDataError("No valid lines found in input")) <==> |rows| == 0
    ensures o == Fail(InvalidDataError("All lines must have the same length")) <==>
              |rows| > 0 && exists i :: 0 <= i < |rows| && |rows[i]| != |rows[0]|
    ensures o == Fail(InvalidDataError("Lines cannot be empty")) <==> |rows| > 0 && Rectangular(rows) && Width(rows) == 0
    ensures o == Pass <==> |rows| > 0 && Rectangular(rows) && Width(rows) > 0
  {
    if |rows| == 0 then
      Fail(InvalidDataError("No valid lines found in input"))
    else if !(forall i :: 0 <= i < |rows| ==> |rows[i]| == |rows[0]|) then
      Fail(InvalidDataError("All lines must have the same length"))
    else if |rows[0]| == 0 then
      Fail(InvalidDataError("Lines cannot be empty"))
    else
      Pass
  }

  /** parse: nil input is refused, otherwise the lines are converted and
      validated; a successful result is non-empty, rectangular, of positive
      width and holds only cell values. */
  function Parse(p: Parser, data: Option<string>): (r: Result<Rows, Error>)
    ensures data.None? ==> r == Failure(InvalidDataError("Input data cannot be nil"))
    ensures r.Success? ==> |r.value| > 0 && Rectangular(r.value) && Width(r.value) > 0
    ensures r.Success? ==> forall y, x :: 0 <= y < |r.value| && 0 <= x < |r.value[y]| ==> IsCell(r.value[y][x])
  {
    match data
    case None => Failure(InvalidDataError("Input data cannot be nil"))
    case Some(text) =>
      var rows := ParseLines(p, SplitLines(text));
      match ValidateParsedData(rows)
      case Fail(e) => Failure(e)
      case Pass => Success(rows)
  }

  /** What parse returns for a text, in terms of its lines: each error exactly
      when its condition holds, and otherwise row i is line i converted
      character by character. */
  lemma ParseOutcome(p: Parser, text: string)
    ensures var lines := SplitLines(text);
            var r := Parse(p, Some(text));
            && (r == Failure(InvalidDataError("No valid lines found in input")) <==> |lines| == 0)
            && (r == Failure(InvalidDataError("All lines must have the same length"))
                <==> |lines| > 0 && exists i :: 0 <= i < |lines| && |lines[i]| != |lines[0]|)
            && (r == Failure(InvalidDataError("Lines cannot be empty"))
                <==> |lines| > 0 && (forall i :: 0 <= i < |lines| ==> |lines[i]| == 0))
            && (r.Success? ==>
                  (|r.value| == |lines|
                   && forall i, j :: 0 <= i < |lines| && 0 <= j < |lines[i]| ==>
                        r.value[i][j] == ConvertCharToCell(p, lines[i][j])))
  {
    var lines := SplitLines(text);
    var rows := ParseLines(p, lines);
    assert forall i :: 0 <= i < |lines| ==> |rows[i]| == |lines[i]|;
  }

  /** The parser tests: lines of lengths 3 and 5 are refused for their
      lengths, and the empty text for having no lines. */
  lemma ParserTestExamples()
    ensures Parse(DefaultParser(), Some("oo-\n-----\n")) == Failure(InvalidDataError("All lines must have the same length"))
    ensures Parse(DefaultParser(), Some("")) == Failure(InvalidDataError("No valid lines found in input"))
  {
    SplitJoinRoundTrip(["oo-", "-----"]);
    assert JoinLines(["oo-", "-----"]) == "oo-\n-----\n" by {
      assert JoinLines(["-----"]) == "-----\n";
    }
    ParseOutcome(DefaultParser(), "oo-\n-----\n");
  }

  /** The rows of the invader in the parser tests, one lemma per row. */
  lemma InvaderRowTop()
    ensures ParseLine(DefaultParser(), "oo---oo") == [1, 1, 0, 0, 0, 1, 1]
  {
    var r, e := ParseLine(DefaultParser(), "oo---oo"), [1, 1, 0, 0, 0, 1, 1];
    forall i | 0 <= i < 7
      ensures r[i] == e[i]
    {
    }
  }

  lemma InvaderRowMiddle()
    ensures ParseLine(DefaultParser(), "---o---") == [0, 0, 0, 1, 0, 0, 0]
  {
    var r, e := ParseLine(DefaultParser(), "---o---"), [0, 0, 0, 1, 0, 0, 0];
    forall i | 0 <= i < 7
      ensures r[i] == e[i]
    {
    }
  }

  lemma InvaderRowBottom()
    ensures ParseLine(DefaultParser(), "--ooo--") == [0, 0, 1, 1, 1, 0, 0]
  {
    var r, e := ParseLine(DefaultParser(), "--ooo--"), [0, 0, 1, 1, 1, 0, 0];
    forall i | 0 <= i < 7
      ensures r[i] == e[i]
    {
    }
  }

  /** The text of the parser tests' invader: three lines of seven characters,
      each ended by a line feed. */
  const InvaderText: string := "oo---oo\n---o---\n--ooo--\n"

  /** The parser tests' invader text splits into its three lines. */
  lemma InvaderLines()
    ensures SplitLines(InvaderText) == ["oo---oo", "---o---", "--ooo--"]
  {
    var lines := ["oo---oo", "---o---", "--ooo--"];
    assert JoinLines(lines) == InvaderText by {
      assert JoinLines(lines[2..]) == "--ooo--\n";
      assert JoinLines(lines[1..]) == "---o---\n--ooo--\n";
    }
    SplitJoinRoundTrip(lines);
  }

  /** Parsing succeeds with the parsed lines once they pass validation. */
  lemma ParseOfValidLines(p: Parser, text: string, rows: Rows)
    requires ParseLines(p, SplitLines(text)) == rows && ValidateParsedData(rows) == Pass
    ensures Parse(p, Some(text)) == Success(rows)
  {
  }

  /** The three lines of the invader parse into its three rows. */
  lemma InvaderRows()
    ensures ParseLines(DefaultParser(), ["oo---oo", "---o---", "--ooo--"])
            == [[1, 1, 0, 0, 0, 1, 1], [0, 0, 0, 1, 0, 0, 0], [0, 0, 1, 1, 1, 0, 0]]
  {
    var p, lines := DefaultParser(), ["oo---oo", "---o---", "--ooo--"];
    InvaderRowTop();
    InvaderRowMiddle();
    InvaderRowBottom();
    assert ParseLines(p, lines) == [ParseLine(p, lines[0]), ParseLine(p, lines[1]), ParseLine(p, lines[2])];
  }

  /** The invader's rows pass validation: three rows, all seven cells wide. */
  lemma InvaderIsValid()
    ensures ValidateParsedData([[1, 1, 0, 0, 0, 1, 1], [0, 0, 0, 1, 0, 0, 0], [0, 0, 1, 1, 1, 0, 0]]) == Pass
  {
    var rows: Rows := [[1, 1, 0, 0, 0, 1, 1], [0, 0, 0, 1, 0, 0, 0], [0, 0, 1, 1, 1, 0, 0]];
    assert Rectangular(rows) by {
      forall y | 0 <= y < |rows| ensures |rows[y]| == Width(rows) {}
    }
  }

  /** The parser tests' invader: three lines of seven characters become three
      rows of seven cells. */
  lemma InvaderExample()
    ensures Parse(DefaultParser(), Some(InvaderText))
            == Success([[1, 1, 0, 0, 0, 1, 1], [0, 0, 0, 1, 0, 0, 0], [0, 0, 1, 1, 1, 0, 0]])
  {
    var rows: Rows := [[1, 1, 0, 0, 0, 1, 1], [0, 0, 0, 1, 0, 0, 0], [0, 0, 1, 1, 1, 0, 0]];
    InvaderLines();
    InvaderRows();
    InvaderIsValid();
    ParseOfValidLines(DefaultParser(), InvaderText, rows);
  }
}
