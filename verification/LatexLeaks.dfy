/**
  Sources without marker characters whose rendering holds some: a matrix under an operator
  in display mode, and a matrix that is struck through.
*/
module LatexLeaks {
  import opened Arithmetic
  import opened Decimals
  import opened LatexCycles
  import opened LatexExpressions
  import opened LatexFormat
  import opened LatexGuards
  import opened LatexLayout
  import opened LatexMarkers
  import opened LatexMeaning
  import opened LatexOutput
  import opened LatexParsing
  import opened LatexReadings
  import opened LatexRendering
  import opened LatexText
  import opened LatexWriting
  import opened Sequences
  import opened WhiteSpace
  import opened Wrappers

  const BODY := "a\\\\b"
  const END := "\\end{matrix}"
  const MATRIX := ("\\" + "begin") + (("{" + "matrix" + "}") + (BODY + END))

  /** No table has another meaning for the command of an environment. */
  ghost predicate LeavesMatrices(t: Tables) { IsFree(t, "begin") && "begin" !in t.accents && "begin" !in t.plainWrappers }

  // ----- The matrix is read -----

  lemma BodyRows()
    ensures SplitRows(BODY) == ["a", "b"]
  {
    assert BODY == "a" + ("\\\\" + "" + "b") && "b"[0] != '[';
    RowEnds("a", "", "b");
    LastRow("b");
    assert ["a"] + ["b"] == ["a", "b"];
  }

  /** A cell of one letter comes out as that letter. */
  lemma LetterReads(e: Env, st: State, c: string, after: State, cells: seq<string>)
    requires |c| == 1 && IsPlainText(c) && c != "&" && NAMED_START !in c && IsRow(cells, e, st, after, c)
    ensures cells == [c] && after == st
  {
    SplitWhole(c, '&');
    assert SplitOn(c, '&') == [c];
    var read := CellsRead(e, st, [c], 1, Lines(cells, after));
    assert [c][..1] == [c];
    assert IsNested(read[0], e, StateBefore(read, st, 0), [c][..1][0], false);
    LetterIsNested(e, st, c, read[0]);
    assert cells == [Trim(read[0].text)] && after == read[0].after;
  }

  lemma LetterIsNested(e: Env, st: State, c: string, m: Meaning)
    requires |c| == 1 && IsPlainText(c) && NAMED_START !in c && IsNested(m, e, st, c, false)
    ensures m == Meaning(c, st) && Trim(c) == c
  {
    assert LatexReadings.Spell(true);
    TextRenders(e.t, false, st.nodes, c);
    NestedReads(e, st, c, false);
    PlainCharacters(c);
    SpacelessIsTrimmed(c);
  }

  /** Plain text comes out as it is. */
  lemma TextRenders(t: Tables, display: bool, nodes: seq<LayoutNode>, text: string)
    requires IsPlainText(text) && text != "" && NAMED_START !in text
    ensures Whole(Env(t, text, display), nodes) == Meaning(text, State(|text|, nodes, true))
  {
    FormulaRenders(t, display, nodes, Text(text));
    EmptyFirst(text);
    NormalizeLeavesPlain(t, text);
  }

  lemma TwoLetters(cells: seq<seq<string>>, table: seq<seq<string>>, kept: seq<nat>)
    requires cells == [["a"], ["b"]] && AreFilled(table, cells, kept)
    ensures |table| == 2
  {
    assert cells[0][0] != "" && cells[1][0] != "";
    assert IsFilled(cells[0]) && IsFilled(cells[1]);
    AllAreKept(kept, 2);
  }

  lemma RowsRead(e: Env, states: seq<State>, cells: seq<seq<string>>)
    requires AreRows(states, cells, e, ["a", "b"])
    ensures cells == [["a"], ["b"]] && states[2] == states[0]
  {
    var rows := ["a", "b"];
    assert rows[0] == "a" && rows[1] == "b";
    LetterReads(e, states[0], "a", states[1], cells[0]);
    LetterReads(e, states[1], "b", states[2], cells[1]);
  }

  /** The body becomes one node. */
  lemma BodyReads(e: Env, st: State, told: Meaning) returns (node: LayoutNode)
    requires IsBody(told, e, st, "matrix", BODY)
    ensures node.Matrix? && told == Meaning(Marker(|st.nodes|), State(st.at, st.nodes + [node], st.ok))
  {
    MatrixNames("matrix");
    var states, cells, kept, table, lines := GridReads(e, st, "matrix", BODY, false, told);
    BodyRows();
    RowsRead(e, states, cells);
    TwoLetters(cells, table, kept);
    node := Matrix(lines, 0);
  }

  lemma NoEndAt(s: string, j: nat)
    requires j + 1 < |s| && (s[j] != '\\' || s[j + 1] != 'e')
    ensures !OccursAt(s, END, j)
  {
    assert END[0] == '\\' && END[1] == 'e';
    assert j + |END| <= |s| ==> s[j..j + |END|][0] == s[j] && s[j..j + |END|][1] == s[j + 1];
  }

  lemma EndStands(s: string, k: nat)
    requires StandsAt(s, k, BODY + END)
    ensures s[k..k + 4] == BODY && IsFirstAt(s, END, k, k + 4)
  {
    PartsStand(s, k, BODY, END);
    var body := s[k..k + 4];
    assert s[k] == body[0] && s[k + 1] == body[1] && s[k + 2] == body[2] && s[k + 3] == body[3];
    assert s[k + 4] == s[k + 4..k + 4 + |END|][0] == '\\';
    NoEndAt(s, k);
    NoEndAt(s, k + 1);
    NoEndAt(s, k + 2);
    NoEndAt(s, k + 3);
  }

  lemma MatrixStands(s: string, k: nat)
    requires StandsAt(s, k, MATRIX)
    ensures |MATRIX| == 30 && Spelled(s, k, "begin") && EnvironmentAt(s, k + 6, "matrix", BODY, END)
  {
    BeginIsWord();
    var group := "{" + "matrix" + "}";
    NameStands(s, k, "begin", group + (BODY + END));
    PartsStand(s, k + 6, group, BODY + END);
    BracesStand(s, k + 6, "matrix");
    EndStands(s, k + 14);
    NameIsPlain();
  }

  lemma BeginIsWord()
    ensures IsWord("begin")
  {
  }

  lemma NameIsPlain()
    ensures forall j :: 0 <= j < |"matrix"| ==> "matrix"[j] != '\\' && "matrix"[j] != '{' && "matrix"[j] != '}'
  {
  }

  /** The matrix becomes one node, and its text the marker of that node. */
  lemma MatrixReads(e: Env, st: State, stack: bool) returns (node: LayoutNode)
    requires LeavesMatrices(e.t) && StandsAt(e.s, st.at, MATRIX)
    ensures node.Matrix? && Command(e, st, stack) == Meaning(Marker(|st.nodes|), State(st.at + |MATRIX|, st.nodes + [node], st.ok))
  {
    MatrixStands(e.s, st.at);
    BeginReads(e, st, stack);
    var told, next := Command(e, st, stack), LatexReadings.Behind(st, "begin");
    BodyIsRead(e, next, told);
    node := BodyReads(e, State(next.at + 24, next.nodes, next.ok), told);
  }

  lemma BodyIsRead(e: Env, st: State, told: Meaning)
    requires EnvironmentAt(e.s, st.at, "matrix", BODY, END) && told == InEnvironment(e, st)
    ensures IsBody(told, e, State(st.at + 24, st.nodes, st.ok), "matrix", BODY)
  {
    EndIs();
    assert AfterBlanks(e.s, st.at) == st.at;
    EnvironmentReads(e, st, st.at, "matrix", BODY, END, told);
    SameBody(e, st.(at := st.at + 2 + |"matrix"| + |BODY| + |END|), State(st.at + 24, st.nodes, st.ok), "matrix", BODY, told);
  }

  lemma EndIs()
    ensures END == "\\end{" + "matrix" + "}" && 2 + |"matrix"| + |BODY| + |END| == 24
  {
  }

  /** A group that holds the matrix only. */
  lemma GroupOfMatrix(e: Env, st: State, stack: bool) returns (node: LayoutNode)
    requires LeavesMatrices(e.t) && StandsAt(e.s, st.at, "{" + MATRIX + "}")
    ensures node.Matrix?
    ensures Argument(e, st, stack) == Meaning(Marker(|st.nodes|), State(st.at + |MATRIX| + 2, st.nodes + [node], st.ok))
  {
    BracesStand(e.s, st.at, MATRIX);
    var inner := st.(at := st.at + 1);
    node := MatrixReads(e, inner, stack);
    var m := Meaning(Marker(|st.nodes|), State(inner.at + |MATRIX|, st.nodes + [node], st.ok));
    var told := Sequence(e, inner, stack, Some('}'), "");
    assert e.s[inner.at] == e.s[inner.at..inner.at + |MATRIX|][0] == '\\';
    FractionText(e.t, "", "", |st.nodes|);
    CommandGoesOn(told, e, inner, stack, Some('}'), "", m);
    EmptyFirst(m.text);
    Closes(told, e, m.after, stack, "" + m.text);
    ArgumentReads(e, st, stack);
  }

  /** A source that is one command. */
  lemma OneCommand(e: Env, m: Meaning)
    requires e.s != "" && e.s[0] == '\\' && m == Command(e, State(0, [], true), true)
    requires m.text != "\0" && m.after.at == |e.s| && m.after.ok
    ensures Whole(e, []) == Meaning(NormalizeOutput(e.t, m.text), m.after)
  {
    var st := State(0, [], true);
    var told := Sequence(e, st, true, None, "");
    CommandGoesOn(told, e, st, true, None, "", m);
    EmptyFirst(m.text);
    EndsThere(told, e, m.after, true, "" + m.text);
    WholeReads(e, []);
  }

  // ----- A struck matrix -----

  const STRUCK := ("\\" + "not") + ("{" + MATRIX + "}")

  lemma MarkerIsTrimmed(t: Tables, k: nat)
    ensures Trim(Marker(k)) == Marker(k) && NormalizeOutput(t, Marker(k)) == Marker(k)
    ensures WithoutSpaces(Marker(k)) == Marker(k)
  {
    MarkerRefers(k);
    PlainIsKept(t, Marker(k), None);
    NormalizeLeavesPlain(t, Marker(k));
    NoSpacesToDrop(Marker(k));
  }

  lemma MarkerIsMarked(t: Tables, k: nat)
    requires t.Valid()
    ensures !NoMarks(Marker(k)) && Marker(k) !in t.negated
  {
    assert Marker(k)[0] == MARK_START;
  }

  lemma {:induction false} NoSpacesToDrop(s: string)
    requires Plain(s)
    ensures WithoutSpaces(s) == s
  {
    if s != "" {
      NoSpacesToDrop(s[1..]);
    }
  }

  lemma StruckReads(t: Tables, display: bool) returns (node: LayoutNode)
    requires t.Valid() && LeavesMatrices(t) && "not" !in t.spacing && "not" !in t.negativeSpacing && "not" !in t.ignored
    ensures node.Matrix?
    ensures Whole(Env(t, STRUCK, display), [])
            == Meaning(NormalizeOutput(t, StrikeThrough(Marker(0))), State(|STRUCK|, [node], true))
  {
    var e, st := Env(t, STRUCK, display), State(0, [], true);
    WordsOfLeaks();
    assert STRUCK[0..0 + |STRUCK|] == STRUCK;
    NameStands(STRUCK, 0, "not", "{" + MATRIX + "}");
    node := GroupOfMatrix(e, LatexReadings.Behind(st, "not"), false);
    NotIsStruck(e, st, node);
    OneCommand(e, Meaning(StrikeThrough(Marker(0)), State(|STRUCK|, [node], true)));
  }

  lemma NotIsStruck(e: Env, st: State, node: LayoutNode)
    requires Spelled(e.s, st.at, "not") && "not" !in e.t.spacing && "not" !in e.t.negativeSpacing && "not" !in e.t.ignored && e.t.Valid()
    requires Argument(e, LatexReadings.Behind(st, "not"), false) == Meaning(Marker(0), State(|e.s|, [node], true))
    ensures Command(e, st, true) == Meaning(StrikeThrough(Marker(0)), State(|e.s|, [node], true))
    ensures StrikeThrough(Marker(0)) != "\0"
  {
    MarkerIsTrimmed(e.t, 0);
    MarkerIsMarked(e.t, 0);
    NotReads(e, st, true);
    StrikeExactly(Marker(0));
  }

  lemma WordsOfLeaks()
    ensures IsWord("not") && IsWord("max")
  {
  }

  // ----- A matrix under an operator -----

  const LIMIT := ("\\" + "max") + ("_" + ("{" + MATRIX + "}"))

  lemma LimitReads(t: Tables) returns (node: LayoutNode)
    requires t.Valid() && LeavesMatrices(t) && "max" in t.limitOperators
    requires "max" !in t.spacing && "max" !in t.negativeSpacing && "max" !in t.ignored
    ensures node.Matrix?
    ensures Whole(Env(t, LIMIT, true), [])
            == Meaning(NormalizeOutput(t, Marker(1)), State(|LIMIT|, [node, Operator("max", Some(Marker(0)), None)], true))
  {
    var e, st := Env(t, LIMIT, true), State(0, [], true);
    WordsOfLeaks();
    assert LIMIT[0..0 + |LIMIT|] == LIMIT;
    NameStands(LIMIT, 0, "max", "_" + ("{" + MATRIX + "}"));
    var next := LatexReadings.Behind(st, "max");
    MarkStands(LIMIT, next.at, "_", "{" + MATRIX + "}");
    node := GroupOfMatrix(e, next.(at := next.at + 1), false);
    LimitOperatorReads(e, st, true, "max");
    LimitIsWritten(e, next, node);
    FractionText(t, "", "", 1);
    OneCommand(e, Meaning(Marker(1), State(|LIMIT|, [node, Operator("max", Some(Marker(0)), None)], true)));
  }

  lemma LimitIsWritten(e: Env, st: State, node: LayoutNode)
    requires st.at < |e.s| && e.s[st.at] == '_' && e.display && st.nodes == [] && st.ok
    requires Argument(e, st.(at := st.at + 1), false) == Meaning(Marker(0), State(|e.s|, [node], true))
    ensures WithLimits(e, st, "max", true, true, true)
            == Meaning(Marker(1), State(|e.s|, [node, Operator("max", Some(Marker(0)), None)], true))
  {
    NoModifier(e.s, st.at);
    LimitsAreOne(e, st, node);
    LimitsAreWritten(e, st, "max", true, true, true);
    assert st.(at := st.at) == st;
    assert [node] + [Operator("max", Some(Marker(0)), None)] == [node, Operator("max", Some(Marker(0)), None)];
  }

  lemma LimitsAreOne(e: Env, st: State, node: LayoutNode)
    requires st.at < |e.s| && e.s[st.at] == '_'
    requires Argument(e, st.(at := st.at + 1), false) == Meaning(Marker(0), State(|e.s|, [node], true))
    ensures Limits(e, st, None, None) == Limited(Some(Marker(0)), None, State(|e.s|, [node], true))
  {
    MarkerIsTrimmed(e.t, 0);
    OneLimit(e, st, Meaning(Marker(0), State(|e.s|, [node], true)));
  }

  lemma OneLimit(e: Env, st: State, m: Meaning)
    requires st.at < |e.s| && e.s[st.at] == '_' && LimitText(e.t, m.text) == m.text && m.after.at == |e.s|
    requires m == Argument(e, st.(at := st.at + 1), false)
    ensures Limits(e, st, None, None) == Limited(Some(m.text), None, m.after)
  {
    var told := Limits(e, st, None, None);
    LowerReads(e, st, None, None, st.at, m, told);
    SameLimits(told, e, With(m.after, true), Some(LimitText(e.t, m.text)), m.after, Some(m.text));
    LimitsEnd(told, e, m.after, Some(m.text), None);
  }

  lemma SameLimits(told: Limited, e: Env, st: State, lower: Option<string>, same: State, value: Option<string>)
    requires AreLimits(told, e, st, lower, None) && st == same && lower == value
    ensures AreLimits(told, e, same, value, None)
  {
  }

  lemma LimitsEnd(told: Limited, e: Env, st: State, lower: Option<string>, upper: Option<string>)
    requires AreLimits(told, e, st, lower, upper) && st.at == |e.s|
    ensures told == Limited(lower, upper, st)
  {
    assert LatexReadings.Spell(true);
    NoLimitReads(e, st, lower, upper);
  }

  lemma NoModifier(s: string, k: nat)
    requires k < |s| && s[k] == '_'
    ensures Modifier(s, k, true) == Modified(true, k)
  {
    ModifierReads(s, k, true);
    assert AfterBlanks(s, k) == k;
    assert k + 7 <= |s| ==> s[k..k + 7][0] == '_';
    assert k + 9 <= |s| ==> s[k..k + 9][0] == '_';
  }

  lemma NoLineFeedInMarker(k: nat)
    ensures '\n' !in Marker(k)
  {
    MarkerRefers(k);
    forall j | 0 <= j < |Marker(k)| ensures Marker(k)[j] != '\n' {
      assert !IsSpace(Marker(k)[j]);
    }
  }

  lemma LimitIsMarked(nodes: seq<LayoutNode>, operator: LayoutNode)
    requires WellFounded(nodes) && |nodes| == 2 && nodes[1] == operator && Safe(Marker(1), Loose(2))
    requires operator == Operator("max", Some(Marker(0)), None)
    ensures !TextFlat(nodes, Marker(1), 2)
  {
    MarkerIsSafe(0, Strict(0));
    assert !IsFlat(operator);
    MarkerReadsBack(1);
    NoLineFeedInMarker(1);
    SplitWhole(Marker(1), '\n');
    SplitSafe(Marker(1), '\n', Loose(2));
    assert !NodeFlat(nodes, 1);
    assert !MarkersFlat(nodes, Marker(1), 2, 0);
    assert !LineFlat(nodes, Marker(1), 2, 0);
    assert SplitOn(Marker(1), '\n')[0] == Marker(1);
  }

  lemma SourcesAreUnmarked()
    ensures NoMarks(STRUCK) && NoMarks(LIMIT)
  {
    var group := "{" + "matrix" + "}";
    NoMarksConcat("\\", "begin");
    NoMarksConcat(BODY, END);
    NoMarksConcat(group, BODY + END);
    NoMarksConcat("\\" + "begin", group + (BODY + END));
    NoMarksConcat("{", MATRIX);
    NoMarksConcat("{" + MATRIX, "}");
    NoMarksConcat("_", "{" + MATRIX + "}");
    NoMarksConcat("\\" + "not", "{" + MATRIX + "}");
    NoMarksConcat("\\" + "max", "_" + ("{" + MATRIX + "}"));
  }

  /**
    A matrix as the lower limit of an operator, in display mode: its marker is a text of the
    operator's node, and stays in what is rendered.
  */
  method RenderLimitMatrix(tables: Tables) returns (rendered: Option<string>)
    requires tables.Valid() && Additive(tables.width) && LeavesMatrices(tables)
    requires "max" in tables.limitOperators
    requires "max" !in tables.spacing && "max" !in tables.negativeSpacing && "max" !in tables.ignored
    ensures NoMarks(LIMIT) && rendered.Some? && !NoMarks(rendered.value)
  {
    SourcesAreUnmarked();
    ghost var node := LimitReads(tables);
    MarkerIsTrimmed(tables, 1);
    ghost var text, nodes;
    rendered, text, nodes := RenderLatex(LIMIT, true, tables);
    LimitIsMarked(nodes, nodes[1]);
  }

  // ----- What is left of the struck matrix -----

  const BROKEN := [MARK_START, OVERLAY, '0', MARK_END]

  lemma BrokenIsStruck()
    ensures StrikeThrough(Marker(0)) == " " + BROKEN + " " && Plain(BROKEN) && NAMED_START !in BROKEN
  {
    assert Decimal(0) == "0";
    assert Marker(0) == [MARK_START, '0', MARK_END];
    assert Marker(0)[1..] == ['0', MARK_END];
  }

  lemma {:induction false} SpacedIsKept(t: Tables, s: string, previous: Option<char>)
    requires Plain(s)
    ensures LeftSpacing(t, s + " ", previous) == s + " " && RightSpacing(t, s + " ") == s + " "
    ensures Collapse(s + " ") == s + " " && SplitOn(s + " ", '\n') == [s + " "]
    decreases |s|
  {
    var spaced := s + " ";
    if s == "" {
      assert spaced == " " && spaced[1..] == "" && [' '] + "" == spaced;
    } else {
      SpacedIsKept(t, s[1..], Some(s[0]));
      assert spaced[1..] == s[1..] + " " && [s[0]] + (s[1..] + " ") == spaced;
    }
  }

  lemma PaddedIsKept(t: Tables, s: string)
    requires Plain(s) && s != ""
    ensures var padded := " " + s + " ";
            LeftSpacing(t, padded, None) == padded && RightSpacing(t, padded) == padded
            && Collapse(padded) == padded && SplitOn(padded, '\n') == [padded]
  {
    var padded := " " + s + " ";
    SpacedIsKept(t, s, Some(' '));
    assert padded[1..] == s + " " && [' '] + (s + " ") == padded && !IsBlank(padded[1]);
  }

  lemma PaddedIsTrimmed(s: string)
    requires Plain(s) && s != ""
    ensures Trim(" " + s + " ") == s
  {
    var padded := " " + s + " ";
    assert padded[1..] == s + " " && TrimStart(s + " ") == s + " ";
    assert (s + " ")[..|s|] == s && TrimEnd(s) == s;
  }

  lemma NormalizePadded(t: Tables, s: string)
    requires Plain(s) && s != ""
    ensures NormalizeOutput(t, " " + s + " ") == s
  {
    var padded := " " + s + " ";
    PaddedIsKept(t, s);
    PaddedIsTrimmed(s);
    OneLine(t, padded, s);
  }

  lemma OneLine(t: Tables, padded: string, s: string)
    requires LeftSpacing(t, padded, None) == padded && RightSpacing(t, padded) == padded
    requires Collapse(padded) == padded && SplitOn(padded, '\n') == [padded] && Trim(padded) == s && s != "" && Plain(s)
    ensures NormalizeOutput(t, padded) == s
  {
    assert [padded][1..] == [];
    assert TidyLines([padded]) == [s];
    assert KeepLines([s], 0, 1) == [s];
    PlainIsKept(t, s, None);
  }

  lemma BrokenHasNoMarker()
    ensures forall j :: 0 <= j < |BROKEN| ==> MarkerEnd(BROKEN, j) < 0
  {
    assert DigitsFrom(BROKEN, 1) == 1;
  }

  lemma PlainIsFlattened(s: string)
    requires Plain(s) && s != "" && TrimStart(s) == s && TrimEnd(s) == s
    ensures Flattened([s]) == s
  {
    assert Trim(s) == s && [s][1..] == [];
    assert Indentation([s]) == Some(0);
    assert s[0..] == s;
    assert Unindent([s], Some(0)) == [s];
  }

  lemma {:induction false} UnprotectKeeps(s: string)
    requires PROTECTED_SPACE !in s
    ensures Unprotect(s) == s
  {
    if s != "" {
      UnprotectKeeps(s[1..]);
      assert [s[0]] + s[1..] == s;
    }
  }

  lemma OneLineLayout(width: string -> nat, s: string, nodes: seq<LayoutNode>, n: nat)
    requires WellFounded(nodes) && n <= |nodes| && Safe(s, Loose(n)) && Plain(s) && s != "" && TrimEnd(s) == s
    requires forall j :: 0 <= j < |s| ==> MarkerEnd(s, j) < 0
    requires SplitOn(s, '\n') == [s]
    ensures LayoutOf(width, s, nodes, n).lines == [s]
  {
    var lines := [s];
    PlainLineIsKept(width, s, nodes, n);
    assert lines[1..] == [] && [s] + [] == [s];
    assert RenderedLines(width, lines, nodes, n) == [s];
  }

  /** Text without spaces and without whole markers is laid out as itself. */
  lemma PlainOutput(tables: Tables, s: string, nodes: seq<LayoutNode>)
    requires WellFounded(nodes) && nodes != [] && Safe(s, Loose(|nodes|)) && Plain(s) && s != ""
    requires (forall j :: 0 <= j < |s| ==> MarkerEnd(s, j) < 0) && PROTECTED_SPACE !in s
    ensures Unprotect(Output(tables, s, nodes)) == s
  {
    PlainIsKept(tables, s, None);
    PlainEnds(s);
    OneLineLayout(tables.width, s, nodes, |nodes|);
    PlainIsFlattened(s);
    UnprotectKeeps(s);
  }

  lemma PlainEnds(s: string)
    requires Plain(s)
    ensures TrimEnd(s) == s && TrimStart(s) == s
  {
  }

  /**
    A matrix that is struck through, in either mode: the stroke breaks its marker, the
    matrix is gone, and the characters of the marker are all that is rendered.
  */
  method RenderStruckMatrix(display: bool, tables: Tables) returns (rendered: Option<string>)
    requires tables.Valid() && Additive(tables.width) && LeavesMatrices(tables)
    requires "not" !in tables.spacing && "not" !in tables.negativeSpacing && "not" !in tables.ignored
    ensures NoMarks(STRUCK) && rendered == Some(BROKEN) && !NoMarks(BROKEN)
  {
    SourcesAreUnmarked();
    ghost var node := StruckReads(tables, display);
    BrokenIsStruck();
    NormalizePadded(tables, BROKEN);
    ghost var text, nodes;
    rendered, text, nodes := RenderLatex(STRUCK, display, tables);
    BrokenHasNoMarker();
    PlainOutput(tables, BROKEN, nodes);
    assert BROKEN[0] == MARK_START;
  }
}
