/**
  The whole LaTeX renderer, from source to text: parsing, layout, and the white space
  around the lines of a layout.
*/
module LatexOutput {
  import opened LatexGuards
  import opened LatexLayout
  import opened LatexMarkers
  import opened LatexMeaning
  import opened LatexParsing
  import opened LatexRendering
  import opened LatexText
  import opened Sequences
  import opened WhiteSpace
  import opened Wrappers

  /** The least indentation of the lines that are not blank; None when all are. */
  function Indentation(lines: seq<string>): Option<nat> {
    if lines == [] then None
    else
      var rest := Indentation(lines[1..]);
      if Trim(lines[0]) == "" then rest
      else
        var own := |lines[0]| - |TrimStart(lines[0])|;
        if rest.None? || own < rest.value then Some(own) else rest
  }

  function Unindent(lines: seq<string>, indentation: Option<nat>): seq<string> {
    if lines == [] then []
    else
      [if indentation.None? || indentation.value > |lines[0]| then "" else TrimEnd(lines[0][indentation.value..])]
      + Unindent(lines[1..], indentation)
  }

  function Unprotect(s: string): (r: string)
    ensures |r| == |s|
    ensures forall k :: 0 <= k < |s| ==> r[k] == if s[k] == PROTECTED_SPACE then ' ' else s[k]
  {
    if s == [] then [] else [if s[0] == PROTECTED_SPACE then ' ' else s[0]] + Unprotect(s[1..])
  }

  /** The text of a layout: the common indentation and trailing white space removed. */
  function Flattened(lines: seq<string>): string {
    TrimEnd(JoinWith(Unindent(lines, Indentation(lines)), "\n"))
  }

  // ----- What taking away white space does to marks -----

  /** Nothing but white space is cut off at the front of a line. */
  predicate CutsBlank(line: string, indentation: Option<nat>) {
    if indentation.None? || indentation.value > |line| then forall j :: 0 <= j < |line| ==> IsSpace(line[j])
    else forall j :: 0 <= j < indentation.value ==> IsSpace(line[j])
  }

  lemma BlankLine(line: string)
    requires Trim(line) == ""
    ensures forall j :: 0 <= j < |line| ==> IsSpace(line[j])
  {
    TrimStartDropsBlank(line);
    TrimEndDropsBlank(TrimStart(line));
    var front := |line| - |TrimStart(line)|;
    assert forall j :: front <= j < |line| ==> line[j] == TrimStart(line)[j - front];
  }

  /** The indentation is at most that of every line that is not blank. */
  lemma {:induction false} IndentationIsLeast(lines: seq<string>, i: nat)
    requires i < |lines|
    ensures CutsBlank(lines[i], Indentation(lines))
  {
    if Trim(lines[i]) == "" {
      BlankLine(lines[i]);
    } else {
      TrimStartDropsBlank(lines[i]);
      LeastIndentation(lines, i);
    }
  }

  lemma {:induction false} LeastIndentation(lines: seq<string>, i: nat)
    requires i < |lines| && Trim(lines[i]) != ""
    ensures Indentation(lines).Some? && Indentation(lines).value <= |lines[i]| - |TrimStart(lines[i])|
  {
    if i > 0 {
      LeastIndentation(lines[1..], i - 1);
    }
  }

  function UnindentLine(line: string, indentation: Option<nat>): string {
    if indentation.None? || indentation.value > |line| then "" else TrimEnd(line[indentation.value..])
  }

  lemma LineUnmarked(line: string, indentation: Option<nat>)
    requires CutsBlank(line, indentation)
    ensures NoMarks(UnindentLine(line, indentation)) <==> NoMarks(line)
  {
    if indentation.None? || indentation.value > |line| {
      BlankIsUnmarked(line);
    } else {
      var k := indentation.value;
      BlankIsUnmarked(line[..k]);
      assert line[..k] + line[k..] == line;
      NoMarksConcat(line[..k], line[k..]);
      TrimUnmarked(line[k..]);
    }
  }

  lemma NoMarksCons(first: string, rest: seq<string>)
    ensures AllNoMarks([first] + rest) <==> NoMarks(first) && AllNoMarks(rest)
  {
    AllNoMarksConcat([first], rest);
    assert [first][0] == first;
  }

  lemma {:induction false} LinesUnmarked(lines: seq<string>, indentation: Option<nat>)
    requires forall i :: 0 <= i < |lines| ==> CutsBlank(lines[i], indentation)
    ensures AllNoMarks(Unindent(lines, indentation)) <==> AllNoMarks(lines)
  {
    if lines != [] {
      LineUnmarked(lines[0], indentation);
      LinesUnmarked(lines[1..], indentation);
      NoMarksCons(UnindentLine(lines[0], indentation), Unindent(lines[1..], indentation));
      NoMarksCons(lines[0], lines[1..]);
      assert [lines[0]] + lines[1..] == lines;
      assert Unindent(lines, indentation) == [UnindentLine(lines[0], indentation)] + Unindent(lines[1..], indentation);
    }
  }

  lemma {:induction false} JoinUnmarked(parts: seq<string>)
    ensures NoMarks(JoinWith(parts, "\n")) <==> AllNoMarks(parts)
    decreases |parts|
  {
    if |parts| > 1 {
      JoinUnmarked(parts[1..]);
      NoMarksConcat(parts[0], "\n");
      NoMarksConcat(parts[0] + "\n", JoinWith(parts[1..], "\n"));
      NoMarksCons(parts[0], parts[1..]);
      assert [parts[0]] + parts[1..] == parts;
    } else if |parts| == 1 {
      assert parts == [parts[0]] + [];
      NoMarksCons(parts[0], []);
    }
  }

  lemma {:induction false} SplitUnmarked(text: string)
    ensures AllNoMarks(SplitOn(text, '\n')) <==> NoMarks(text)
  {
    if text == "" {
      assert SplitOn(text, '\n') == [""] + [];
      NoMarksCons("", []);
    } else {
      var rest := SplitOn(text[1..], '\n');
      SplitUnmarked(text[1..]);
      assert [text[0]] + text[1..] == text;
      NoMarksConcat([text[0]], text[1..]);
      if text[0] == '\n' {
        NoMarksCons("", rest);
      } else {
        NoMarksCons([text[0]] + rest[0], rest[1..]);
        NoMarksConcat([text[0]], rest[0]);
        NoMarksCons(rest[0], rest[1..]);
        assert [rest[0]] + rest[1..] == rest;
      }
    }
  }

  lemma FlattenedUnmarked(lines: seq<string>)
    ensures NoMarks(Flattened(lines)) <==> AllNoMarks(lines)
  {
    var cut := Unindent(lines, Indentation(lines));
    forall i | 0 <= i < |lines| ensures CutsBlank(lines[i], Indentation(lines)) {
      IndentationIsLeast(lines, i);
    }
    LinesUnmarked(lines, Indentation(lines));
    JoinUnmarked(cut);
    TrimUnmarked(JoinWith(cut, "\n"));
  }

  lemma {:induction false} UnprotectUnmarked(s: string)
    ensures NoMarks(Unprotect(s)) <==> NoMarks(s)
  {
    if s != [] {
      UnprotectUnmarked(s[1..]);
      var c := if s[0] == PROTECTED_SPACE then ' ' else s[0];
      NoMarksConcat([c], Unprotect(s[1..]));
      NoMarksConcat([s[0]], s[1..]);
      assert [s[0]] + s[1..] == s && Unprotect(s) == [c] + Unprotect(s[1..]);
      assert c == [c][0] && s[0] == [s[0]][0];
    }
  }

  // ----- The renderer -----

  /** What is returned, given the text and the nodes that parsing leaves. */
  ghost function Output(tables: Tables, text: string, nodes: seq<LayoutNode>): string
    requires WellFounded(nodes) && Safe(text, Loose(|nodes|))
  {
    if nodes == [] then text else Flattened(LayoutOf(tables.width, text, nodes, |nodes|).lines)
  }

  lemma OutputIsUnmarked(tables: Tables, text: string, nodes: seq<LayoutNode>)
    requires WellFounded(nodes) && Safe(text, Loose(|nodes|))
    ensures NoMarks(Unprotect(Output(tables, text, nodes))) <==> TextFlat(nodes, text, |nodes|)
  {
    if nodes == [] {
      WithoutNodes(text);
    } else {
      TextIsClear(tables.width, nodes, text, |nodes|);
      FlattenedUnmarked(LayoutOf(tables.width, text, nodes, |nodes|).lines);
    }
    UnprotectUnmarked(Output(tables, text, nodes));
  }

  lemma WithoutNodes(text: string)
    requires Safe(text, Loose(0))
    ensures TextFlat([], text, 0) <==> NoMarks(text)
  {
    var lines := SplitOn(text, '\n');
    SplitSafe(text, '\n', Loose(0));
    SplitUnmarked(text);
    forall i | 0 <= i < |lines| ensures LineFlat([], lines[i], 0, 0) <==> NoMarks(lines[i]) {
      assert lines[i][0..] == lines[i];
      NoMarksExactly(lines[i]);
      forall j | 0 <= j < |lines[i]| ensures MarkerEnd(lines[i], j) < 0 {
        if MarkerEnd(lines[i], j) >= 0 {
          SafeMarkers(lines[i], j, Loose(0));
        }
      }
    }
    if TextFlat([], text, 0) {
      forall i | 0 <= i < |lines| ensures NoMarks(lines[i]) {
        assert LineFlat([], lines[i], 0, 0);
      }
    }
  }

  lemma OutputIsTrimmed(tables: Tables, text: string, nodes: seq<LayoutNode>)
    requires WellFounded(nodes) && Safe(text, Loose(|nodes|)) && !EndsInSpace(text)
    ensures !EndsInSpace(Output(tables, text, nodes))
  {
    if nodes != [] {
      var lines := LayoutOf(tables.width, text, nodes, |nodes|).lines;
      TrimEndIsTrimmed(JoinWith(Unindent(lines, Indentation(lines)), "\n"));
    }
  }

  method LayOut(tables: Tables, text: string, nodes: seq<LayoutNode>) returns (output: string)
    requires Additive(tables.width) && WellFounded(nodes) && Safe(text, Loose(|nodes|))
    ensures output == Output(tables, text, nodes)
  {
    if |nodes| == 0 {
      return text;
    }
    var layout := RenderLayout(tables.width, text, nodes, |nodes|);
    output := Flattened(layout.lines);
  }

  /** The strongest thing that holds of the source. */
  function ModeOf(tables: Tables, source: string, display: bool): Mode {
    if MARK_END in source then Clean else if IsGuarded(tables, source, display) then Guarded else Pure
  }

  /**
    For a source in which no layout marker starts the renderer ends: parsing leaves a safe
    text over well-founded nodes, and what is returned is that text, or its layout,
    unprotected. It holds no protected space; it ends in white space only where that was
    protected, in a table.

    No character of a marker is left in what is returned exactly when the text is flat: its
    markers are whole, and none of the nodes that they lead to holds such a character in a
    text that is placed as it is. If no such character is in the source, that can only be the
    text of an operator, for no matrix holds one; and if the source is guarded besides, none
    is left.
  */
  method RenderLatex(source: string, display: bool, tables: Tables)
    returns (rendered: Option<string>, ghost text: string, ghost nodes: seq<LayoutNode>)
    requires tables.Valid() && Additive(tables.width) && MARK_START !in source
    ensures rendered.Some? ==>
              && WellFounded(nodes) && Safe(text, Loose(|nodes|))
              && rendered.value == Unprotect(Output(tables, text, nodes))
              && !EndsInSpace(Output(tables, text, nodes)) && PROTECTED_SPACE !in rendered.value
              && (NoMarks(rendered.value) <==> TextFlat(nodes, text, |nodes|))
    ensures NoMarks(source) ==> forall k :: 0 <= k < |nodes| && nodes[k].Matrix? ==> IsFlat(nodes[k])
    ensures rendered.Some? && NoMarks(source) && IsGuarded(tables, source, display) ==> NoMarks(rendered.value)
    ensures var m := Whole(Env(tables, source, display), []);
            && (rendered.Some? <==> m.after.ok) && (rendered.Some? ==> text == m.text && nodes == m.after.nodes)
  {
    var list := new LayoutNodes();
    ghost var mode := ModeOf(tables, source, display);
    var parser := new LatexParser(source, list, display, tables, mode);
    ghost var told := Whole(Env(tables, source, display), []);
    var parsed := parser.Render(told);
    if parsed.None? {
      return None, "", [];
    }
    text, nodes := parsed.value, list.nodes;
    parser.KnowsNodes();
    KeptIsWellFounded(mode, nodes);
    SafeMonotone(text, parser.Limit(), Loose(|nodes|));
    var output := LayOut(tables, parsed.value, list.nodes);
    OutputIsUnmarked(tables, text, nodes);
    OutputIsTrimmed(tables, text, nodes);
    if mode == Guarded {
      GuardedIsFlat(nodes, text, |nodes|);
    }
    forall k | NoMarks(source) && 0 <= k < |nodes| && nodes[k].Matrix? ensures IsFlat(nodes[k]) {
      assert NodeKept(mode, nodes[k], k);
    }
    rendered := Some(Unprotect(output));
  }
}
