/**
  Where the parts of a layout stand, told without the functions that put them there: a
  numerator above its rule, limits above and below their operator, the lines of a table, text
  between nodes, pieces along their baseline, and lines below each other.
*/
module LatexPlacing {
  import opened Arithmetic
  import opened LatexFormat
  import opened LatexLayout
  import opened LatexMeaning
  import opened LatexOutput
  import opened LatexParsing
  import opened LatexRendering
  import opened LatexText
  import opened Sequences
  import opened WhiteSpace
  import opened Wrappers

  // ----- Padding -----

  /** A line with this many spaces before and behind it. */
  ghost predicate IsSpaced(r: string, line: string, left: nat, right: nat) {
    && |r| == left + |line| + right && r[left..left + |line|] == line
    && (forall k :: 0 <= k < left ==> r[k] == ' ') && forall k :: left + |line| <= k < |r| ==> r[k] == ' '
  }

  /** A line is filled up behind it, or on both sides, one more behind it when that does not come out even. */
  lemma PaddedExactly(width: string -> nat, line: string, target: nat)
    ensures var padding := if target > width(line) then target - width(line) else 0;
            && IsSpaced(PadLayoutLine(width, line, target, false), line, 0, padding)
            && IsSpaced(PadLayoutLine(width, line, target, true), line, padding / 2, padding - padding / 2)
  {
    var padding := if target > width(line) then target - width(line) else 0;
    SpacedOut(line, 0, padding);
    SpacedOut(line, padding / 2, padding - padding / 2);
  }

  lemma SpacedOut(line: string, left: nat, right: nat)
    ensures IsSpaced(Repeat(' ', left) + line + Repeat(' ', right), line, left, right)
  {
  }

  // ----- Nodes -----

  /** The numerator stands above the rule and the denominator below it, both centered; the rule is on the baseline. */
  lemma FractionExactly(width: string -> nat, above: Layout, below: Layout)
    ensures var f, n := FractionLayout(width, above, below), |above.lines|;
            && f.width == Max(Max(above.width, below.width), 1) + 2 && f.baseline == n && |f.lines| == n + 1 + |below.lines|
            && (forall r :: 0 <= r < n ==> f.lines[r] == PadLayoutLine(width, above.lines[r], f.width, true))
            && (forall r :: 0 <= r < |below.lines| ==> f.lines[n + 1 + r] == PadLayoutLine(width, below.lines[r], f.width, true))
            && |f.lines[n]| == f.width && f.lines[n][0] == ' ' && f.lines[n][f.width - 1] == ' '
            && forall k :: 0 < k < f.width - 1 ==> f.lines[n][k] == '─'
  {
  }

  /** The upper limit stands above the operator and the lower one below it, all centered; the operator is on the baseline. */
  lemma OperatorExactly(width: string -> nat, operator: string, lower: Option<string>, upper: Option<string>)
    ensures var o := OperatorLayout(width, Operator(operator, lower, upper));
            && (forall w: nat :: w + 1 == o.width ==>
                  && width(operator) <= w && (lower.Some? ==> width(lower.value) <= w) && (upper.Some? ==> width(upper.value) <= w)
                  && (w == width(operator) || (lower.Some? && w == width(lower.value)) || (upper.Some? && w == width(upper.value)))
                  && (lower.None? && upper.None? ==> o.lines == [PadLayoutLine(width, operator, w, true) + " "] && o.baseline == 0)
                  && (lower.Some? && upper.None? ==>
                        o.baseline == 0 && o.lines == [PadLayoutLine(width, operator, w, true) + " ", PadLayoutLine(width, lower.value, w, true) + " "])
                  && (lower.None? && upper.Some? ==>
                        o.baseline == 1 && o.lines == [PadLayoutLine(width, upper.value, w, true) + " ", PadLayoutLine(width, operator, w, true) + " "])
                  && (lower.Some? && upper.Some? ==>
                        o.baseline == 1 && o.lines == [PadLayoutLine(width, upper.value, w, true) + " ", PadLayoutLine(width, operator, w, true) + " ",
                                                       PadLayoutLine(width, lower.value, w, true) + " "]))
            && o.width > 0
  {
  }

  /** The lines of a table are filled up to the widest one. */
  lemma MatrixExactly(width: string -> nat, lines: seq<string>, baseline: nat)
    ensures var m := MatrixLayout(width, lines, baseline);
            && m.baseline == baseline && |m.lines| == |lines|
            && (forall r :: 0 <= r < |lines| ==> width(lines[r]) <= m.width && m.lines[r] == PadLayoutLine(width, lines[r], m.width, false))
            && (m.width > 0 ==> exists r :: 0 <= r < |lines| && width(lines[r]) == m.width)
  {
    WidestIsReached(width, lines);
  }

  lemma {:induction false} WidestIsReached(width: string -> nat, lines: seq<string>)
    ensures WidestLine(width, lines) > 0 ==> exists r :: 0 <= r < |lines| && width(lines[r]) == WidestLine(width, lines)
  {
    if lines != [] {
      WidestIsReached(width, lines[1..]);
      if WidestLine(width, lines) > width(lines[0]) {
        var r :| 0 <= r < |lines[1..]| && width(lines[1..][r]) == WidestLine(width, lines[1..]);
        assert lines[r + 1] == lines[1..][r];
      }
    }
  }

  /** Each kind of node is laid out in its own way, from the layouts of its own parts. */
  lemma NodeExactly(width: string -> nat, nodes: seq<LayoutNode>, k: nat)
    requires WellFounded(nodes) && k < |nodes|
    ensures var l := NodeLayout(width, nodes, k);
            && (nodes[k].Fraction? ==>
                  NodeSafe(nodes[k], Loose(k))
                  && l == FractionLayout(width, LayoutOf(width, nodes[k].numerator, nodes, k), LayoutOf(width, nodes[k].denominator, nodes, k)))
            && (nodes[k].Operator? ==> l == OperatorLayout(width, nodes[k]))
            && (nodes[k].Matrix? ==> l == MatrixLayout(width, nodes[k].lines, nodes[k].baseline))
  {
  }

  // ----- Text between nodes -----

  ghost predicate StartsInSpace(s: string) { s != "" && IsSpace(s[0]) }

  /** Text loses the white space next to nodes, but keeps one space next to a table. */
  lemma TextExactly(sliced: string, previous: Option<LayoutNode>, next: LayoutNode)
    ensures var left := previous.Some? && previous.value.Matrix? && StartsInSpace(sliced);
            var right := next.Matrix? && EndsInSpace(sliced);
            var text := if previous.Some? then Trim(sliced) else TrimEnd(sliced);
            var r := TextBetween(sliced, previous, next);
            && (text != "" && left && right ==> r == " " + text + " ") && (text != "" && left && !right ==> r == " " + text)
            && (text != "" && !left && right ==> r == text + " ") && (text != "" && !left && !right ==> r == text)
            && (text == "" && (left || right) ==> r == " ") && (text == "" && !left && !right ==> r == "")
  {
    var text := if previous.Some? then Trim(sliced) else TrimEnd(sliced);
    assert " " + text + "" == " " + text && "" + text + " " == text + " " && "" + text + "" == text;
  }

  lemma LastTextExactly(sliced: string, previous: Option<LayoutNode>)
    ensures previous.None? ==> TextAfter(sliced, previous) == sliced
    ensures previous.Some? && previous.value.Matrix? && StartsInSpace(sliced) ==> TextAfter(sliced, previous) == " " + TrimStart(sliced)
    ensures previous.Some? && !(previous.value.Matrix? && StartsInSpace(sliced)) ==> TextAfter(sliced, previous) == TrimStart(sliced)
  {
  }

  /** Up to the next marker there is text, then its node, and what comes behind it. */
  lemma {:induction false} NextMarker(width: string -> nat, line: string, nodes: seq<LayoutNode>, n: nat, position: nat, from: nat, index: nat,
                                      previous: Option<LayoutNode>)
    requires WellFounded(nodes) && n <= |nodes| && Safe(line, Loose(n)) && position <= from <= index < |line|
    requires (forall j :: from <= j < index ==> MarkerEnd(line, j) < 0) && MarkerEnd(line, index) >= 0
    ensures MarkerValue(line, index) < n
    ensures var k, end := MarkerValue(line, index), MarkerEnd(line, index);
            var text := line[position..index];
            Pieces(width, line, nodes, n, position, from, previous)
            == (if text == "" then [] else var t := TextBetween(text, previous, nodes[k]); [Layout([t], width(t), 0)])
               + [NodeLayout(width, nodes, k)] + Pieces(width, line, nodes, n, end, end, Some(nodes[k]))
    decreases index - from
  {
    SafeMarkers(line, index, Loose(n));
    if from < index {
      assert MarkerEnd(line, from) < 0;
      NextMarker(width, line, nodes, n, position, from + 1, index, previous);
    }
  }

  lemma {:induction false} NoMoreMarkers(width: string -> nat, line: string, nodes: seq<LayoutNode>, n: nat, position: nat, from: nat,
                                         previous: Option<LayoutNode>)
    requires WellFounded(nodes) && n <= |nodes| && Safe(line, Loose(n)) && position <= from <= |line|
    requires forall j :: from <= j < |line| ==> MarkerEnd(line, j) < 0
    ensures var text := line[position..];
            Pieces(width, line, nodes, n, position, from, previous)
            == if text == "" then [] else var t := TextAfter(text, previous); [Layout([t], width(t), 0)]
    decreases |line| - from
  {
    if from < |line| {
      assert MarkerEnd(line, from) < 0;
      NoMoreMarkers(width, line, nodes, n, position, from + 1, previous);
    }
  }

  // ----- Along the baseline -----

  /** The joined baseline is the highest one, and as much as any piece needs stands below it. */
  lemma {:induction false} BaselineIsReached(layouts: seq<Layout>)
    requires layouts != [] && forall i :: 0 <= i < |layouts| ==> layouts[i].baseline < |layouts[i].lines|
    ensures exists i :: 0 <= i < |layouts| && layouts[i].baseline == Baseline(layouts)
    ensures exists i :: 0 <= i < |layouts| && |layouts[i].lines| - layouts[i].baseline - 1 == Below(layouts)
  {
    var shorter, last := layouts[..|layouts| - 1], |layouts| - 1;
    var piece := layouts[last];
    var depth := |piece.lines| - piece.baseline - 1;
    assert Baseline(layouts) == Max(Baseline(shorter), piece.baseline) && Below(layouts) == Max(Below(shorter), depth);
    if shorter != [] {
      BaselineIsReached(shorter);
      var i :| 0 <= i < |shorter| && shorter[i].baseline == Baseline(shorter);
      var j :| 0 <= j < |shorter| && |shorter[j].lines| - shorter[j].baseline - 1 == Below(shorter);
      assert layouts[i] == shorter[i] && layouts[j] == shorter[j];
    } else {
      assert Baseline(shorter) == 0 && Below(shorter) == 0;
    }
  }

  /** A piece stands where the widths before it add up to, its baseline on the joined one, in rows without trailing space. */
  lemma PieceStands(width: string -> nat, layouts: seq<Layout>, i: nat, r: nat) returns (before: string, after: string)
    requires Additive(width) && AllFit(width, layouts) && i < |layouts| && r < |layouts[i].lines|
    ensures var joined := Joined(width, layouts);
            var row := joined.baseline - layouts[i].baseline + r;
            && joined.baseline == Baseline(layouts) && |joined.lines| == Baseline(layouts) + Below(layouts) + 1 && 0 <= row < |joined.lines|
            && joined.lines[row] == TrimEnd(before + PadLayoutLine(width, layouts[i].lines[r], layouts[i].width, false) + after)
            && joined.width == TotalWidth(layouts) && width(before) == TotalWidth(layouts[..i])
  {
    var row: int := Baseline(layouts) - layouts[i].baseline + r;
    RowsAlign(width, layouts, i, r);
    before, after := ColumnsAlign(width, layouts, Baseline(layouts), row, i);
    assert Joined(width, layouts).lines[row] == TrimEnd(RowText(width, layouts, Baseline(layouts), row));
  }

  /** Where a piece has no line there are spaces. */
  lemma PieceIsBlank(width: string -> nat, layouts: seq<Layout>, i: nat, row: nat) returns (before: string, after: string)
    requires Additive(width) && AllFit(width, layouts) && i < |layouts| && row < |Joined(width, layouts).lines|
    requires row < Baseline(layouts) - layouts[i].baseline || row >= Baseline(layouts) - layouts[i].baseline + |layouts[i].lines|
    ensures Joined(width, layouts).lines[row] == TrimEnd(before + seq(layouts[i].width, _ => ' ') + after)
    ensures width(before) == TotalWidth(layouts[..i])
  {
    before, after := ColumnsAlign(width, layouts, Baseline(layouts), row, i);
    assert Piece(width, layouts[i], Baseline(layouts), row) == Repeat(' ', layouts[i].width) == seq(layouts[i].width, _ => ' ');
  }

  lemma TotalExactly(layouts: seq<Layout>, last: Layout)
    ensures TotalWidth([]) == 0 && TotalWidth(layouts + [last]) == TotalWidth(layouts) + last.width
  {
    assert (layouts + [last])[..|layouts|] == layouts;
  }

  // ----- Lines -----

  /** Lines of source are laid out one below the other, and the first one gives the baseline. */
  lemma LinesExactly(width: string -> nat, first: string, rest: string, nodes: seq<LayoutNode>, n: nat)
    requires WellFounded(nodes) && n <= |nodes| && '\n' !in first
    requires Safe(first, Loose(n)) && Safe(rest, Loose(n)) && Safe(first + "\n" + rest, Loose(n))
    ensures var one, whole := LayoutOf(width, first, nodes, n), LayoutOf(width, first + "\n" + rest, nodes, n);
            var line := Joined(width, Pieces(width, first, nodes, n, 0, 0, None));
            && one.lines == line.lines && one.baseline == line.baseline && whole.baseline == line.baseline
            && whole.lines == line.lines + LayoutOf(width, rest, nodes, n).lines
            && (forall r :: 0 <= r < |whole.lines| ==> width(whole.lines[r]) <= whole.width)
            && (whole.width > 0 ==> exists r :: 0 <= r < |whole.lines| && width(whole.lines[r]) == whole.width)
  {
    SplitWhole(first, '\n');
    SplitAfter(first, '\n', rest);
    SplitSafe(rest, '\n', Loose(n));
    SplitSafe(first + "\n" + rest, '\n', Loose(n));
    var all := SplitOn(first + "\n" + rest, '\n');
    assert all == [first] + SplitOn(rest, '\n') && all[1..] == SplitOn(rest, '\n') && [first][1..] == [];
    var line := LineLayout(width, first, nodes, n).lines;
    assert RenderedLines(width, [first], nodes, n) == line + RenderedLines(width, [first][1..], nodes, n) && line + [] == line;
    WidestIsReached(width, LayoutOf(width, first + "\n" + rest, nodes, n).lines);
  }

  // ----- The text of a layout -----

  /** The white space at the front of a line. */
  ghost predicate IsIndented(line: string, depth: nat) {
    depth < |line| && !IsSpace(line[depth]) && forall k :: 0 <= k < depth ==> IsSpace(line[k])
  }

  lemma {:induction false} IndentationIsReached(lines: seq<string>)
    ensures Indentation(lines).Some? ==> exists i :: 0 <= i < |lines| && IsIndented(lines[i], Indentation(lines).value)
    ensures Indentation(lines).None? ==> forall i :: 0 <= i < |lines| ==> Trim(lines[i]) == ""
  {
    if lines != [] {
      var rest := lines[1..];
      IndentationIsReached(rest);
      if Indentation(lines).Some? && Indentation(lines) == Indentation(rest) {
        var i :| 0 <= i < |rest| && IsIndented(rest[i], Indentation(rest).value);
        assert lines[i + 1] == rest[i];
      } else if Indentation(lines).Some? {
        FrontIsIndented(lines[0]);
      }
      assert forall i :: 0 < i < |lines| ==> lines[i] == rest[i - 1];
    }
  }

  lemma FrontIsIndented(line: string)
    requires Trim(line) != ""
    ensures IsIndented(line, |line| - |TrimStart(line)|)
  {
    TrimStartExactly(line);
    assert TrimStart(line) != "" && TrimStart(line)[0] == line[|line| - |TrimStart(line)|];
  }

  lemma {:induction false} UnindentExactly(lines: seq<string>, indentation: Option<nat>)
    ensures var cut := Unindent(lines, indentation);
            && |cut| == |lines|
            && forall i :: 0 <= i < |lines| ==>
                 cut[i] == if indentation.Some? && indentation.value <= |lines[i]| then TrimEnd(lines[i][indentation.value..]) else ""
  {
    if lines != [] {
      UnindentExactly(lines[1..], indentation);
    }
  }

  /** The indentation that all lines share goes, and so does white space at their ends and at the end. */
  lemma FlattenedExactly(lines: seq<string>) returns (indentation: Option<nat>, cut: seq<string>)
    ensures Flattened(lines) == TrimEnd(JoinWith(cut, "\n")) && |cut| == |lines|
    ensures forall i :: 0 <= i < |lines| ==>
              cut[i] == if indentation.Some? && indentation.value <= |lines[i]| then TrimEnd(lines[i][indentation.value..]) else ""
    ensures indentation.None? ==> forall i :: 0 <= i < |lines| ==> Trim(lines[i]) == ""
    ensures indentation.Some? ==>
              && (exists i :: 0 <= i < |lines| && IsIndented(lines[i], indentation.value))
              && forall i :: 0 <= i < |lines| ==> CutsBlank(lines[i], indentation)
  {
    indentation := Indentation(lines);
    cut := Unindent(lines, indentation);
    UnindentExactly(lines, indentation);
    IndentationIsReached(lines);
    forall i | 0 <= i < |lines| ensures CutsBlank(lines[i], indentation) {
      IndentationIsLeast(lines, i);
    }
  }

  /** Text without nodes is returned as it is, and otherwise its layout is. */
  lemma OutputExactly(tables: Tables, text: string, nodes: seq<LayoutNode>)
    requires WellFounded(nodes) && Safe(text, Loose(|nodes|))
    ensures nodes == [] ==> Output(tables, text, nodes) == text
    ensures nodes != [] ==> Output(tables, text, nodes) == Flattened(LayoutOf(tables.width, text, nodes, |nodes|).lines)
  {
  }
}
