/**
  How the LaTeX renderer writes scripts, fractions, roots, alternatives and tables in one
  line, and how it cuts up the raw source of an environment.
*/
module LatexFormat {
  import opened Arithmetic
  import opened Decimals
  import opened LatexText
  import opened Sequences
  import opened WhiteSpace
  import opened Wrappers

  // ----- Scripts, fractions, roots -----

  function ReplaceCharacters(value: string, replacements: map<char, char>): Option<string> {
    if value == [] then Some([])
    else if value[0] !in replacements then None
    else
      var rest := ReplaceCharacters(value[1..], replacements);
      if rest.None? then None else Some([replacements[value[0]]] + rest.value)
  }

  function SpaceRun(s: string): (n: nat)
    ensures n <= |s|
  {
    if s == [] || !IsSpace(s[0]) then 0 else 1 + SpaceRun(s[1..])
  }

  /** White space around =, + and - is dropped. */
  function Squeeze(s: string): string
    decreases |s|
  {
    if s == [] then []
    else
      var w := SpaceRun(s);
      if w < |s| && (s[w] == '=' || s[w] == '+' || s[w] == '-')
      then [s[w]] + Squeeze(s[w + 1..][SpaceRun(s[w + 1..])..])
      else [s[0]] + Squeeze(s[1..])
  }

  datatype Kind = Sub | Sup

  predicate AllAsciiLetters(s: string) { s != [] && forall k :: 0 <= k < |s| ==> IsAsciiLetter(s[k]) }

  function FormatScript(t: Tables, script: string, kind: Kind): string {
    var value := Trim(script);
    var unicode := ReplaceCharacters(Squeeze(value), if kind == Sub then t.subscripts else t.superscripts);
    if unicode.Some? then unicode.value
    else
      var prefix := if kind == Sub then "_" else "^";
      if |value| == 1 || (kind == Sub && AllAsciiLetters(value)) then prefix + value
      else prefix + "(" + value + ")"
  }

  function FormatFraction(t: Tables, numerator: string, denominator: string): string {
    var above, below := Trim(numerator), Trim(denominator);
    (if t.AllSimple(above) then above else "(" + above + ")") + "/"
    + (if t.AllNumeric(below) || |below| == 1 then below else "(" + below + ")")
  }

  function FormatRoot(t: Tables, radicand: string, symbol: string): string {
    var value := Trim(radicand);
    if t.AllSimple(value) then symbol + value else symbol + "(" + value + ")"
  }

  lemma {:induction false} ReplacedIsFree(value: string, replacements: map<char, char>)
    requires forall c :: c in replacements ==> NoMark(replacements[c])
    requires ReplaceCharacters(value, replacements).Some?
    ensures NoMarks(ReplaceCharacters(value, replacements).value)
  {
    if value != [] {
      ReplacedIsFree(value[1..], replacements);
    }
  }

  /** Safe text between two texts without markers. */
  lemma SafeBetween(before: string, s: string, after: string, limit: Bound)
    requires Free(before, limit) && Safe(s, limit) && Free(after, limit)
    ensures Safe(before + s, limit) && Safe(before + s + after, limit)
  {
    FreeIsSafe(before, limit);
    FreeIsSafe(after, limit);
    SafeConcat(before, s, limit);
    SafeConcat(before + s, after, limit);
  }

  lemma ScriptSafe(t: Tables, script: string, kind: Kind, limit: Bound)
    requires t.Valid() && Safe(script, limit)
    ensures Safe(FormatScript(t, script, kind), limit)
  {
    var value := Trim(script);
    TrimSafe(script, limit);
    var replacements := if kind == Sub then t.subscripts else t.superscripts;
    if ReplaceCharacters(Squeeze(value), replacements).Some? {
      ReplacedIsFree(Squeeze(value), replacements);
      FreeIsSafe(ReplaceCharacters(Squeeze(value), replacements).value, limit);
    } else {
      var prefix := if kind == Sub then "_" else "^";
      SafeBetween(prefix, value, "", limit);
      SafeBetween(prefix + "(", value, ")", limit);
    }
  }

  lemma FractionSafe(t: Tables, numerator: string, denominator: string, limit: Bound)
    requires Safe(numerator, limit) && Safe(denominator, limit)
    ensures Safe(FormatFraction(t, numerator, denominator), limit)
  {
    var above, below := Trim(numerator), Trim(denominator);
    TrimSafe(numerator, limit);
    TrimSafe(denominator, limit);
    SafeBetween("(", above, ")", limit);
    SafeBetween("(", below, ")", limit);
    var left := if t.AllSimple(above) then above else "(" + above + ")";
    var right := if t.AllNumeric(below) || |below| == 1 then below else "(" + below + ")";
    SafeBetween("", left, "/", limit);
    assert "" + left + "/" == left + "/";
    SafeConcat(left + "/", right, limit);
  }

  lemma RootSafe(t: Tables, radicand: string, symbol: string, limit: Bound)
    requires Safe(radicand, limit) && NoMarks(symbol)
    ensures Safe(FormatRoot(t, radicand, symbol), limit)
  {
    TrimSafe(radicand, limit);
    SafeBetween(symbol, Trim(radicand), "", limit);
    SafeBetween(symbol + "(", Trim(radicand), ")", limit);
  }

  /** An operator with its limits in the line. */
  function OperatorText(t: Tables, operator: string, lower: Option<string>, upper: Option<string>,
                        bracket: bool, spaced: bool): string {
    var below := if lower.None? then "" else if bracket then "[" + lower.value + "]" else FormatScript(t, lower.value, Sub);
    var above := if upper.None? then "" else FormatScript(t, upper.value, Sup);
    if spaced then " " + (operator + below + above) + " " else operator + below + above
  }

  lemma OperatorTextSafe(t: Tables, operator: string, lower: Option<string>, upper: Option<string>,
                         bracket: bool, spaced: bool, limit: Bound)
    requires t.Valid() && Safe(operator, limit)
    requires (lower.Some? ==> Safe(lower.value, limit)) && (upper.Some? ==> Safe(upper.value, limit))
    ensures Safe(OperatorText(t, operator, lower, upper, bracket, spaced), limit)
  {
    var below := if lower.None? then "" else if bracket then "[" + lower.value + "]" else FormatScript(t, lower.value, Sub);
    var above := if upper.None? then "" else FormatScript(t, upper.value, Sup);
    FreeIsSafe("", limit);
    if lower.Some? {
      SafeBetween("[", lower.value, "]", limit);
      ScriptSafe(t, lower.value, Sub, limit);
    }
    if upper.Some? {
      ScriptSafe(t, upper.value, Sup, limit);
    }
    SafeConcat(operator, below, limit);
    SafeConcat(operator + below, above, limit);
    SafeBetween(" ", operator + below + above, " ", limit);
  }

  // ----- Negation, blackboard letters, spaces -----

  /** The first character struck through, between spaces. */
  function StrikeThrough(value: string): string
    requires value != []
  {
    " " + [value[0], OVERLAY] + value[1..] + " "
  }

  /**
    A struck text is strictly safe exactly when it does not start with a marker. A marker
    struck through is broken: nothing is left that could be taken for one, but its
    characters stay.
  */
  lemma StrikeSafe(value: string, limit: Bound)
    requires value != [] && Safe(value, limit)
    ensures Safe(StrikeThrough(value), limit) <==> !limit.strict || value[0] != MARK_START
  {
    var struck := [value[0], OVERLAY];
    assert struck[1..] == [OVERLAY] && [OVERLAY][1..] == [];
    if value[0] == MARK_START && limit.strict {
      StruckMarker(value, limit);
    } else {
      assert Run(Out, [OVERLAY], limit) == Some(Out);
      RunFromInside(value, limit);
      RunConcat(Out, struck, value[1..], limit);
      SafeBetween(" ", struck + value[1..], " ", limit);
      assert " " + struck + value[1..] == " " + (struck + value[1..]);
    }
  }

  lemma StruckMarker(value: string, limit: Bound)
    requires value != [] && value[0] == MARK_START && limit.strict
    ensures !Safe(StrikeThrough(value), limit) && !NoMarks(StrikeThrough(value))
  {
    var s := StrikeThrough(value);
    assert s[0] == ' ' && s[1] == MARK_START && s[2] == OVERLAY;
    assert s[1..][0] == s[1] && s[1..][1..][0] == s[2];
    assert Run(Out, s, limit) == Run(Out, s[1..], limit);
    assert Run(Out, s[1..], limit) == Run(In(0, 0), s[1..][1..], limit);
    assert MARK_START in s;
  }

  /** Outside a marker, what closes a marker is read as plain text. */
  lemma {:induction false} RunInAsOut(s: string, value: nat, digits: nat, limit: Bound)
    requires !limit.strict && Run(In(value, digits), s, limit) == Some(Out)
    ensures Run(Out, s, limit) == Some(Out)
  {
    if s != [] {
      if IsDigit(s[0]) {
        RunInAsOut(s[1..], value * 10 + DigitValue(s[0]), digits + 1, limit);
      }
    }
  }

  lemma RunFromInside(value: string, limit: Bound)
    requires value != [] && Safe(value, limit) && (limit.strict ==> value[0] != MARK_START)
    ensures Run(Out, value[1..], limit) == Some(Out)
  {
    if value[0] == MARK_START {
      RunInAsOut(value[1..], 0, 0, limit);
    }
  }

  function Blackboard(t: Tables, value: string): string {
    if value == [] then []
    else [if value[0] in t.blackboard then t.blackboard[value[0]] else value[0]] + Blackboard(t, value[1..])
  }

  lemma {:induction false} BlackboardKeeps(t: Tables, value: string, limit: Bound)
    requires t.Valid()
    ensures Keeps(value, Blackboard(t, value), limit)
  {
    if value != [] {
      BlackboardKeeps(t, value[1..], limit);
      KeepsCons(value, Blackboard(t, value)[..1], Blackboard(t, value[1..]), limit);
    }
  }

  function WithoutSpaces(s: string): string {
    if s == [] then [] else (if s[0] == ' ' then [] else [s[0]]) + WithoutSpaces(s[1..])
  }

  lemma {:induction false} WithoutSpacesKeeps(s: string, limit: Bound)
    ensures Keeps(s, WithoutSpaces(s), limit)
  {
    if s != [] {
      WithoutSpacesKeeps(s[1..], limit);
      KeepsCons(s, if s[0] == ' ' then [] else [s[0]], WithoutSpaces(s[1..]), limit);
    }
  }

  lemma WithoutSpacesSafe(s: string, limit: Bound)
    requires Safe(s, limit)
    ensures Safe(WithoutSpaces(s), limit)
  {
    WithoutSpacesKeeps(s, limit);
  }

  /** A comma at the end, and the white space after it. */
  function WithoutComma(s: string): string {
    var trimmed := TrimEnd(s);
    if trimmed != [] && trimmed[|trimmed| - 1] == ',' then trimmed[..|trimmed| - 1] else s
  }

  lemma DropLastSafe(s: string, limit: Bound)
    requires s != [] && Neutral(s[|s| - 1]) && Safe(s, limit)
    ensures Safe(s[..|s| - 1], limit)
  {
    var shorter := s[..|s| - 1];
    KeepsNeutral(s[|s| - 1], [], limit);
    assert Keeps(shorter, shorter, limit);
    KeepsConcat(shorter, shorter, [s[|s| - 1]], [], limit);
    assert shorter + [s[|s| - 1]] == s && shorter + [] == shorter;
  }

  lemma WithoutCommaSafe(s: string, limit: Bound)
    requires Safe(s, limit)
    ensures Safe(WithoutComma(s), limit)
  {
    TrimSafe(s, limit);
    if TrimEnd(s) != [] && TrimEnd(s)[|TrimEnd(s)| - 1] == ',' {
      DropLastSafe(TrimEnd(s), limit);
    }
  }

  // ----- Raw source -----

  /** Where the bracketed argument after a row break ends: the first ] before a line feed, or -1. */
  function RowArgument(s: string, k: nat): (end: int)
    ensures -1 <= end < |s|
    decreases |s| - k
  {
    if k >= |s| || s[k] == '\n' then -1 else if s[k] == ']' then k else RowArgument(s, k + 1)
  }

  predicate IsRowBreak(s: string) { |s| >= 2 && s[0] == '\\' && s[1] == '\\' }

  /** Rows are separated by two backslashes and an optional bracketed argument. */
  function SplitRows(body: string): (rows: seq<string>)
    ensures |rows| > 0
    decreases |body|
  {
    if body == [] then [[]]
    else if IsRowBreak(body) then
      var end := if |body| > 2 && body[2] == '[' then RowArgument(body, 3) else -1;
      [[]] + SplitRows(if end >= 0 then body[end + 1..] else body[2..])
    else
      var rest := SplitRows(body[1..]);
      [[body[0]] + rest[0]] + rest[1..]
  }

  /** A group in braces at the front, after white space, is dropped. */
  function StripGroup(body: string): string {
    var w := SpaceRun(body);
    if w < |body| && body[w] == '{' then
      var end := IndexFrom(body, "}", w + 1);
      if end >= 0 then body[end + 1..] else body
    else body
  }

  /** Cells two by two, a space between the pairs. */
  function PairCells(cells: seq<string>): seq<string>
    decreases |cells|
  {
    if cells == [] then []
    else if |cells| == 1 then [cells[0]]
    else [cells[0] + cells[1]] + PairCells(cells[2..])
  }

  /** The source of one row of an aligned environment. */
  function RowSource(row: string, alignedAt: bool): string {
    if alignedAt then JoinWith(PairCells(SplitOn(row, '&')), " ") else JoinWith(SplitOn(row, '&'), "")
  }

  ghost predicate Shorter(parts: seq<string>, bound: nat) {
    forall k :: 0 <= k < |parts| ==> |parts[k]| <= bound
  }

  ghost predicate AllFree(parts: seq<string>, limit: Bound) {
    forall k :: 0 <= k < |parts| ==> Free(parts[k], limit)
  }

  lemma ShorterCons(c: char, rest: seq<string>, bound: nat)
    requires rest != [] && Shorter(rest, bound)
    ensures Shorter([[c] + rest[0]] + rest[1..], bound + 1)
  {
  }

  lemma ShorterAfter(rest: seq<string>, bound: nat, wider: nat)
    requires Shorter(rest, bound) && bound <= wider
    ensures Shorter([[]] + rest, wider)
  {
  }

  lemma {:induction false} RowsAreShorter(body: string)
    ensures Shorter(SplitRows(body), |body|)
    decreases |body|
  {
    if body != [] {
      if IsRowBreak(body) {
        var end := if |body| > 2 && body[2] == '[' then RowArgument(body, 3) else -1;
        var rest := if end >= 0 then body[end + 1..] else body[2..];
        RowsAreShorter(rest);
        ShorterAfter(SplitRows(rest), |rest|, |body|);
        assert SplitRows(body) == [[]] + SplitRows(rest);
      } else {
        var rest := SplitRows(body[1..]);
        RowsAreShorter(body[1..]);
        ShorterCons(body[0], rest, |body| - 1);
        assert SplitRows(body) == [[body[0]] + rest[0]] + rest[1..];
      }
    }
  }

  lemma FreeCons(c: char, rest: seq<string>, limit: Bound)
    requires rest != [] && AllFree(rest, limit) && c != MARK_START && (limit.strict ==> c != MARK_END)
    ensures AllFree([[c] + rest[0]] + rest[1..], limit)
  {
  }

  lemma FreeSuffix(s: string, k: nat, limit: Bound)
    requires k <= |s| && Free(s, limit)
    ensures Free(s[k..], limit)
  {
  }

  lemma {:induction false} RowsAreFree(body: string, limit: Bound)
    requires Free(body, limit)
    ensures AllFree(SplitRows(body), limit)
    decreases |body|
  {
    if body != [] {
      if IsRowBreak(body) {
        var end := if |body| > 2 && body[2] == '[' then RowArgument(body, 3) else -1;
        FreeSuffix(body, if end >= 0 then end + 1 else 2, limit);
        RowsAreFree(if end >= 0 then body[end + 1..] else body[2..], limit);
      } else {
        FreeSuffix(body, 1, limit);
        RowsAreFree(body[1..], limit);
        FreeCons(body[0], SplitRows(body[1..]), limit);
      }
    }
  }

  lemma {:induction false} CellsAreShorter(row: string, limit: Bound)
    ensures Shorter(SplitOn(row, '&'), |row|)
    ensures Free(row, limit) ==> AllFree(SplitOn(row, '&'), limit)
  {
    if row != [] {
      CellsAreShorter(row[1..], limit);
    }
  }

  /** The characters of a list of parts, and its separators. */
  function Total(parts: seq<string>): nat {
    if parts == [] then 0 else |parts[0]| + Total(parts[1..])
  }

  lemma {:induction false} SplitTotal(row: string)
    ensures Total(SplitOn(row, '&')) + |SplitOn(row, '&')| == |row| + 1
  {
    if row != [] {
      SplitTotal(row[1..]);
      var rest := SplitOn(row[1..], '&');
      assert ([[]] + rest)[1..] == rest;
      assert ([[row[0]] + rest[0]] + rest[1..])[1..] == rest[1..];
    }
  }

  lemma {:induction false} PairTotal(cells: seq<string>, limit: Bound)
    ensures Total(PairCells(cells)) == Total(cells) && |PairCells(cells)| <= |cells|
    ensures cells != [] ==> PairCells(cells) != []
    ensures AllFree(cells, limit) ==> AllFree(PairCells(cells), limit)
    decreases |cells|
  {
    if |cells| == 1 {
      assert [cells[0]][1..] == [];
    } else if |cells| > 1 {
      PairTotal(cells[2..], limit);
      assert cells[1..][1..] == cells[2..];
      assert ([cells[0] + cells[1]] + PairCells(cells[2..]))[1..] == PairCells(cells[2..]);
    }
  }

  lemma {:induction false} JoinLength(parts: seq<string>, separator: string, limit: Bound)
    requires parts != [] && NoMarks(separator)
    ensures |JoinWith(parts, separator)| == Total(parts) + |separator| * (|parts| - 1)
    ensures AllFree(parts, limit) ==> Free(JoinWith(parts, separator), limit)
    decreases |parts|
  {
    if |parts| > 1 {
      JoinLength(parts[1..], separator, limit);
    } else {
      assert parts[1..] == [];
    }
  }

  /** The source handed to a nested parser for one row is never longer than the row. */
  lemma RowSourceIsShorter(row: string, alignedAt: bool, limit: Bound)
    ensures |RowSource(row, alignedAt)| <= |row|
    ensures Free(row, limit) ==> Free(RowSource(row, alignedAt), limit)
  {
    var cells := SplitOn(row, '&');
    CellsAreShorter(row, limit);
    SplitTotal(row);
    PairTotal(cells, limit);
    if alignedAt {
      JoinLength(PairCells(cells), " ", limit);
    } else {
      JoinLength(cells, "", limit);
    }
  }

  // ----- Alternatives and tables -----

  predicate StartsWithWord(s: string, word: string) {
    && |word| <= |s|
    && (forall k :: 0 <= k < |word| ==> LowerCase(s[k]) == word[k])
    && (|s| == |word| || !(IsAsciiLetter(s[|word|]) || IsDigit(s[|word|]) || s[|word|] == '_'))
  }

  function LowerCase(c: char): char {
    if 'A' <= c <= 'Z' then (c as int + 32) as char else c
  }

  function CaseLine(delimiter: string, row: seq<string>): string {
    var value := WithoutComma(if |row| > 0 then row[0] else "");
    var condition := if |row| > 1 then row[1] else "";
    var prefix := if StartsWithWord(condition, "if") || StartsWithWord(condition, "when")
                     || StartsWithWord(condition, "for") || StartsWithWord(condition, "otherwise") then " " else " if ";
    delimiter + " " + value + (if condition != "" then prefix + condition else "")
  }

  lemma CaseLineSafe(delimiter: string, row: seq<string>, limit: Bound)
    requires NoMarks(delimiter) && AllSafe(row, limit)
    ensures Safe(CaseLine(delimiter, row), limit)
  {
    var value := WithoutComma(if |row| > 0 then row[0] else "");
    WithoutCommaSafe(if |row| > 0 then row[0] else "", limit);
    var condition := if |row| > 1 then row[1] else "";
    SafeBetween(delimiter + " ", value, "", limit);
    SafeBetween(" ", condition, "", limit);
    SafeBetween(" if ", condition, "", limit);
    var tail := CaseLine(delimiter, row)[|delimiter + " " + value|..];
    assert CaseLine(delimiter, row) == delimiter + " " + value + tail;
    if condition == "" {
      assert tail == "";
    }
    SafeConcat(delimiter + " " + value, tail, limit);
  }

  function Repeat(c: char, n: nat): (s: string)
    ensures |s| == n && forall k :: 0 <= k < n ==> s[k] == c
  {
    if n == 0 then [] else [c] + Repeat(c, n - 1)
  }

  function CellAt(row: seq<string>, column: nat): string {
    if column < |row| then row[column] else ""
  }

  function ColumnCount(rows: seq<seq<string>>): nat {
    if rows == [] then 0 else Max(|rows[0]|, ColumnCount(rows[1..]))
  }

  function ColumnWidth(t: Tables, rows: seq<seq<string>>, column: nat): nat {
    if rows == [] then 0 else Max(t.width(CellAt(rows[0], column)), ColumnWidth(t, rows[1..], column))
  }

  /** A cell filled up to the width of its column with spaces that survive normalisation. */
  function PadCell(t: Tables, cell: string, width: nat): string {
    cell + Repeat(PROTECTED_SPACE, if width > t.width(cell) then width - t.width(cell) else 0)
  }

  function PadRow(t: Tables, rows: seq<seq<string>>, row: seq<string>, column: nat): seq<string>
    decreases ColumnCount(rows) - column
  {
    if column >= ColumnCount(rows) then []
    else [PadCell(t, CellAt(row, column), ColumnWidth(t, rows, column))] + PadRow(t, rows, row, column + 1)
  }

  /** The delimiters of a matrix: left and right in the first line, between, and in the last line. */
  function Delimiters(environment: string): seq<string> {
    match environment
    case "pmatrix" => ["⎛", "⎞", "⎜", "⎟", "⎝", "⎠"]
    case "bmatrix" => ["⎡", "⎤", "⎢", "⎥", "⎣", "⎦"]
    case "Bmatrix" => ["⎧", "⎫", "⎨", "⎬", "⎩", "⎭"]
    case "vmatrix" => ["│", "│", "│", "│", "│", "│"]
    case "Vmatrix" => ["║", "║", "║", "║", "║", "║"]
    case _ => []
  }

  function MatrixLine(t: Tables, environment: string, rows: seq<seq<string>>, index: nat): string
    requires index < |rows|
  {
    var row := JoinWith(PadRow(t, rows, rows[index], 0), " │ ");
    var d := Delimiters(environment);
    if |d| != 6 then row
    else
      var k := if index == 0 then 0 else if index == |rows| - 1 then 4 else 2;
      d[k] + " " + row + " " + d[k + 1]
  }

  lemma {:induction false} PadRowSafe(t: Tables, rows: seq<seq<string>>, row: seq<string>, column: nat, limit: Bound)
    requires AllSafe(row, limit)
    ensures AllSafe(PadRow(t, rows, row, column), limit)
    decreases ColumnCount(rows) - column
  {
    if column < ColumnCount(rows) {
      PadRowSafe(t, rows, row, column + 1, limit);
      var cell := CellAt(row, column);
      FreeIsSafe("", limit);
      var padded := PadCell(t, cell, ColumnWidth(t, rows, column));
      SafeBetween("", cell, padded[|cell|..], limit);
      assert "" + cell + padded[|cell|..] == padded;
    }
  }

  lemma DelimitersFree(environment: string, i: nat)
    requires i < |Delimiters(environment)|
    ensures NoMarks(Delimiters(environment)[i])
  {
  }

  lemma FencedSafe(left: string, row: string, right: string, limit: Bound)
    requires NoMarks(left) && Safe(row, limit) && NoMarks(right)
    ensures Safe(left + " " + row + " " + right, limit)
  {
    SafeBetween(left + " ", row, " " + right, limit);
    assert left + " " + row + (" " + right) == left + " " + row + " " + right;
  }

  lemma MatrixLineSafe(t: Tables, environment: string, rows: seq<seq<string>>, index: nat, limit: Bound)
    requires index < |rows| && AllSafe(rows[index], limit)
    ensures Safe(MatrixLine(t, environment, rows, index), limit)
  {
    PadRowSafe(t, rows, rows[index], 0, limit);
    var row := JoinWith(PadRow(t, rows, rows[index], 0), " │ ");
    JoinSafe(PadRow(t, rows, rows[index], 0), " │ ", limit);
    var d := Delimiters(environment);
    if |d| == 6 {
      var k := if index == 0 then 0 else if index == |rows| - 1 then 4 else 2;
      DelimitersFree(environment, k);
      DelimitersFree(environment, k + 1);
      FencedSafe(d[k], row, d[k + 1], limit);
    }
  }
}
