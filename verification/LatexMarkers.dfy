/**
  Which characters of layout markers are left in rendered text. Markers of fractions are
  replaced by their layouts, but the texts of operators and the lines of matrices are placed
  as they are, and a marker that was struck through is not found any more: what is left is
  exactly what stands in one of these.
*/
module LatexMarkers {
  import opened Arithmetic
  import opened Decimals
  import opened LatexFormat
  import opened LatexGuards
  import opened LatexLayout
  import opened LatexMeaning
  import opened LatexParsing
  import opened LatexRendering
  import opened LatexText
  import opened Sequences
  import opened WhiteSpace
  import opened Wrappers

  // ----- Pieces of text -----

  lemma NoMarksConcat(a: string, b: string)
    ensures NoMarks(a + b) <==> NoMarks(a) && NoMarks(b)
  {
    forall c | c in a || c in b ensures c in a + b {
    }
  }

  lemma BlankIsUnmarked(s: string)
    requires forall j :: 0 <= j < |s| ==> IsSpace(s[j])
    ensures NoMarks(s)
  {
  }

  lemma PadUnmarked(width: string -> nat, line: string, target: nat, centered: bool)
    ensures NoMarks(PadLayoutLine(width, line, target, centered)) <==> NoMarks(line)
  {
    var padding := if target > width(line) then target - width(line) else 0;
    var left := if centered then padding / 2 else 0;
    var before, after := Repeat(' ', left), Repeat(' ', padding - left);
    BlankIsUnmarked(before);
    BlankIsUnmarked(after);
    NoMarksConcat(before, line);
    NoMarksConcat(before + line, after);
  }

  lemma {:induction false} TrimEndDropsBlank(s: string)
    ensures forall j :: |TrimEnd(s)| <= j < |s| ==> IsSpace(s[j])
  {
    if s != [] && IsSpace(s[|s| - 1]) {
      var shorter := s[..|s| - 1];
      TrimEndDropsBlank(shorter);
      assert forall j :: 0 <= j < |shorter| ==> shorter[j] == s[j];
    }
  }

  lemma {:induction false} TrimStartDropsBlank(s: string)
    ensures TrimStart(s) == s[|s| - |TrimStart(s)|..]
    ensures forall j :: 0 <= j < |s| - |TrimStart(s)| ==> IsSpace(s[j])
  {
    if s != [] && IsSpace(s[0]) {
      TrimStartDropsBlank(s[1..]);
    }
  }

  lemma TrimUnmarked(s: string)
    ensures NoMarks(TrimEnd(s)) <==> NoMarks(s)
    ensures NoMarks(TrimStart(s)) <==> NoMarks(s)
  {
    var t, u := TrimEnd(s), |s| - |TrimStart(s)|;
    TrimEndDropsBlank(s);
    BlankIsUnmarked(s[|t|..]);
    NoMarksConcat(t, s[|t|..]);
    assert t + s[|t|..] == s;
    TrimStartDropsBlank(s);
    BlankIsUnmarked(s[..u]);
    NoMarksConcat(s[..u], TrimStart(s));
    assert s[..u] + TrimStart(s) == s;
  }

  // ----- Layouts -----

  ghost predicate AllNoMarks(lines: seq<string>) {
    forall r :: 0 <= r < |lines| ==> NoMarks(lines[r])
  }

  ghost predicate Clear(layout: Layout) { AllNoMarks(layout.lines) }

  ghost predicate AllClear(layouts: seq<Layout>) {
    forall i :: 0 <= i < |layouts| ==> Clear(layouts[i])
  }

  lemma PieceUnmarked(width: string -> nat, layout: Layout, baseline: nat, row: nat)
    ensures var r := row - baseline + layout.baseline;
            NoMarks(Piece(width, layout, baseline, row)) <==> (0 <= r < |layout.lines| ==> NoMarks(layout.lines[r]))
  {
    var r := row - baseline + layout.baseline;
    if 0 <= r < |layout.lines| {
      PadUnmarked(width, layout.lines[r], layout.width, false);
    } else {
      BlankIsUnmarked(Repeat(' ', layout.width));
    }
  }

  ghost predicate PiecesUnmarked(width: string -> nat, layouts: seq<Layout>, baseline: nat, row: nat) {
    forall i :: 0 <= i < |layouts| ==> NoMarks(Piece(width, layouts[i], baseline, row))
  }

  lemma PiecesSnoc(width: string -> nat, layouts: seq<Layout>, shorter: seq<Layout>, last: Layout, baseline: nat, row: nat)
    requires layouts == shorter + [last]
    ensures PiecesUnmarked(width, layouts, baseline, row) <==>
            PiecesUnmarked(width, shorter, baseline, row) && NoMarks(Piece(width, last, baseline, row))
  {
    assert layouts[|shorter|] == last;
    assert forall i :: 0 <= i < |shorter| ==> layouts[i] == shorter[i];
  }

  lemma RowSnoc(width: string -> nat, layouts: seq<Layout>, shorter: seq<Layout>, last: Layout, baseline: nat, row: nat)
    requires layouts == shorter + [last]
    ensures NoMarks(RowText(width, layouts, baseline, row)) <==>
            NoMarks(RowText(width, shorter, baseline, row)) && NoMarks(Piece(width, last, baseline, row))
  {
    assert layouts[..|layouts| - 1] == shorter;
    NoMarksConcat(RowText(width, shorter, baseline, row), Piece(width, last, baseline, row));
  }

  lemma FrontAndLast<T>(s: seq<T>)
    requires s != []
    ensures s == s[..|s| - 1] + [s[|s| - 1]]
  {
  }

  lemma {:induction false} RowUnmarked(width: string -> nat, layouts: seq<Layout>, baseline: nat, row: nat)
    ensures NoMarks(RowText(width, layouts, baseline, row)) <==> PiecesUnmarked(width, layouts, baseline, row)
    decreases |layouts|
  {
    if layouts != [] {
      var shorter, last := layouts[..|layouts| - 1], layouts[|layouts| - 1];
      FrontAndLast(layouts);
      RowUnmarked(width, shorter, baseline, row);
      PiecesSnoc(width, layouts, shorter, last, baseline, row);
      RowSnoc(width, layouts, shorter, last, baseline, row);
    }
  }

  lemma RowLineUnmarked(width: string -> nat, layouts: seq<Layout>, baseline: nat, row: nat)
    ensures NoMarks(RowLine(width, layouts, baseline)(row)) <==> PiecesUnmarked(width, layouts, baseline, row)
  {
    RowUnmarked(width, layouts, baseline, row);
    TrimUnmarked(RowText(width, layouts, baseline, row));
  }

  lemma JoinedRow(width: string -> nat, layouts: seq<Layout>, row: nat)
    requires layouts != [] && row <= Baseline(layouts) + Below(layouts) && Clear(Joined(width, layouts))
    ensures PiecesUnmarked(width, layouts, Baseline(layouts), row)
  {
    RowLineUnmarked(width, layouts, Baseline(layouts), row);
    assert Joined(width, layouts).lines[row] == RowLine(width, layouts, Baseline(layouts))(row);
  }

  /** Every line of every piece stands in some row. */
  lemma PieceInRow(width: string -> nat, layouts: seq<Layout>, i: nat, r: nat)
    requires i < |layouts| && r < |layouts[i].lines| && Clear(Joined(width, layouts))
    ensures NoMarks(layouts[i].lines[r])
  {
    var layout, baseline := layouts[i], Baseline(layouts);
    var row := baseline - layout.baseline + r;
    RowsAlign(width, layouts, i, r);
    JoinedRow(width, layouts, row);
    assert NoMarks(Piece(width, layout, baseline, row));
    PadUnmarked(width, layout.lines[r], layout.width, false);
  }

  lemma RowsAreClear(width: string -> nat, layouts: seq<Layout>)
    requires layouts != [] && AllClear(layouts)
    ensures Clear(Joined(width, layouts))
  {
    var joined, baseline := Joined(width, layouts), Baseline(layouts);
    forall row | 0 <= row < |joined.lines| ensures NoMarks(joined.lines[row]) {
      RowLineUnmarked(width, layouts, baseline, row);
      forall i | 0 <= i < |layouts| ensures NoMarks(Piece(width, layouts[i], baseline, row)) {
        assert Clear(layouts[i]);
        PieceUnmarked(width, layouts[i], baseline, row);
      }
    }
  }

  lemma JoinedIsClear(width: string -> nat, layouts: seq<Layout>)
    ensures Clear(Joined(width, layouts)) <==> AllClear(layouts)
  {
    if layouts != [] {
      if AllClear(layouts) {
        RowsAreClear(width, layouts);
      }
      if Clear(Joined(width, layouts)) {
        forall i | 0 <= i < |layouts| ensures Clear(layouts[i]) {
          forall r | 0 <= r < |layouts[i].lines| ensures NoMarks(layouts[i].lines[r]) {
            PieceInRow(width, layouts, i, r);
          }
        }
      }
    }
  }

  lemma PadAllIsClear(width: string -> nat, lines: seq<string>, target: nat, centered: bool)
    ensures AllNoMarks(PadAll(width, lines, target, centered)) <==> AllNoMarks(lines)
  {
    var padded := PadAll(width, lines, target, centered);
    forall r | 0 <= r < |lines| ensures NoMarks(padded[r]) <==> NoMarks(lines[r]) {
      PadUnmarked(width, lines[r], target, centered);
    }
    if AllNoMarks(padded) {
      forall r | 0 <= r < |lines| ensures NoMarks(lines[r]) {
        assert NoMarks(padded[r]);
      }
    }
  }

  lemma AllNoMarksConcat(a: seq<string>, b: seq<string>)
    ensures AllNoMarks(a + b) <==> AllNoMarks(a) && AllNoMarks(b)
  {
    assert forall i :: 0 <= i < |a| ==> (a + b)[i] == a[i];
    assert forall i :: 0 <= i < |b| ==> (a + b)[|a| + i] == b[i];
  }

  lemma RuleIsUnmarked(content: nat)
    ensures AllNoMarks([" " + Repeat('─', content) + " "])
  {
    NoMarksConcat(" ", Repeat('─', content));
    NoMarksConcat(" " + Repeat('─', content), " ");
  }

  lemma FractionIsClear(width: string -> nat, numerator: Layout, denominator: Layout)
    ensures Clear(FractionLayout(width, numerator, denominator)) <==> Clear(numerator) && Clear(denominator)
  {
    var content := Max(Max(numerator.width, denominator.width), 1);
    var above, below := PadAll(width, numerator.lines, content + 2, true), PadAll(width, denominator.lines, content + 2, true);
    PadAllIsClear(width, numerator.lines, content + 2, true);
    PadAllIsClear(width, denominator.lines, content + 2, true);
    RuleIsUnmarked(content);
    AllNoMarksConcat(above, [" " + Repeat('─', content) + " "]);
    AllNoMarksConcat(above + [" " + Repeat('─', content) + " "], below);
  }

  /** The padded text of an operator, with a space after it. */
  lemma LimitUnmarked(width: string -> nat, text: string, content: nat)
    ensures NoMarks(PadLayoutLine(width, text, content, true) + " ") <==> NoMarks(text)
  {
    PadUnmarked(width, text, content, true);
    NoMarksConcat(PadLayoutLine(width, text, content, true), " ");
  }

  lemma OperatorIsClear(width: string -> nat, node: LayoutNode)
    requires node.Operator?
    ensures Clear(OperatorLayout(width, node)) <==> IsFlat(node)
  {
    var layout := OperatorLayout(width, node);
    var content := layout.width - 1;
    LimitUnmarked(width, node.operator, content);
    NoMarksExactly(node.operator);
    if node.lower.Some? {
      LimitUnmarked(width, node.lower.value, content);
      NoMarksExactly(node.lower.value);
    }
    if node.upper.Some? {
      LimitUnmarked(width, node.upper.value, content);
      NoMarksExactly(node.upper.value);
    }
    var at := if node.upper.Some? then 1 else 0;
    assert layout.lines[at] == PadLayoutLine(width, node.operator, content, true) + " ";
    assert node.upper.Some? ==> layout.lines[0] == PadLayoutLine(width, node.upper.value, content, true) + " ";
    assert node.lower.Some? ==> layout.lines[at + 1] == PadLayoutLine(width, node.lower.value, content, true) + " ";
    assert |layout.lines| == at + 1 + (if node.lower.Some? then 1 else 0);
  }

  lemma MatrixIsClear(width: string -> nat, node: LayoutNode)
    requires node.Matrix?
    ensures Clear(MatrixLayout(width, node.lines, node.baseline)) <==> IsFlat(node)
  {
    PadAllIsClear(width, node.lines, WidestLine(width, node.lines), false);
    forall r | 0 <= r < |node.lines| ensures NoMarks(node.lines[r]) <==> Unmarked(node.lines[r]) {
      NoMarksExactly(node.lines[r]);
    }
  }

  // ----- The text between whole markers -----

  /** Where a strict scan stands after the text from position to k, in which no whole marker starts. */
  ghost predicate Scanned(line: string, position: nat, k: nat, st: Scan) {
    && position <= k <= |line|
    && match st
       case Out => NoMarks(line[position..k])
       case In(_, digits) =>
         && position + digits + 1 <= k && line[k - digits - 1] == MARK_START
         && forall j :: k - digits <= j < k ==> IsDigit(line[j])
  }

  ghost predicate NoMarkerStarts(line: string, position: nat, index: nat) {
    forall j :: position <= j < index && j < |line| ==> MarkerEnd(line, j) < 0
  }

  lemma RunSnoc(st: Scan, s: string, c: char, limit: Bound)
    ensures Run(st, s + [c], limit) == if Run(st, s, limit).None? then None else Step(Run(st, s, limit).value, c, limit)
  {
    RunConcat(st, s, [c], limit);
    assert [c][1..] == [];
  }

  lemma WholeMarker(line: string, start: nat, k: nat)
    requires start + 1 < k < |line| && line[start] == MARK_START && line[k] == MARK_END
    requires forall j :: start + 1 <= j < k ==> IsDigit(line[j])
    ensures MarkerEnd(line, start) == k + 1
  {
    DigitsStop(line, start + 1, k);
  }

  lemma ScanNext(line: string, position: nat, k: nat, st: Scan, n: nat)
    requires Scanned(line, position, k, st) && k < |line| && NoMarkerStarts(line, position, k + 1)
    requires Step(st, line[k], Strict(n)).Some?
    ensures Scanned(line, position, k + 1, Step(st, line[k], Strict(n)).value)
  {
    assert line[position..k + 1] == line[position..k] + [line[k]];
    if st.In? && st.digits > 0 && line[k] == MARK_END {
      WholeMarker(line, k - st.digits - 1, k);
    }
  }

  lemma {:induction false} ScanTo(line: string, position: nat, k: nat, n: nat) returns (st: Scan)
    requires position <= k <= |line| && NoMarkerStarts(line, position, k)
    requires Run(Out, line[position..], Strict(n)).Some?
    ensures Scanned(line, position, k, st) && Run(Out, line[position..k], Strict(n)) == Some(st)
    decreases k
  {
    if k == position {
      st := Out;
    } else {
      var before := ScanTo(line, position, k - 1, n);
      assert line[position..k] == line[position..k - 1] + [line[k - 1]];
      RunSnoc(Out, line[position..k - 1], line[k - 1], Strict(n));
      RunConcat(Out, line[position..k], line[k..], Strict(n));
      assert line[position..k] + line[k..] == line[position..];
      ScanNext(line, position, k - 1, before, n);
      st := Step(before, line[k - 1], Strict(n)).value;
    }
  }

  /** Where no whole marker starts before the next one, strictly safe is: no marks up to there, and strictly safe after. */
  lemma StrictUpTo(line: string, position: nat, index: nat, n: nat)
    requires position <= index <= |line| && NoMarkerStarts(line, position, index)
    requires index < |line| ==> line[index] == MARK_START
    ensures Safe(line[position..], Strict(n)) <==> NoMarks(line[position..index]) && Safe(line[index..], Strict(n))
  {
    assert line[position..index] + line[index..] == line[position..];
    RunConcat(Out, line[position..index], line[index..], Strict(n));
    if NoMarks(line[position..index]) {
      FreeIsSafe(line[position..index], Strict(n));
    }
    if Safe(line[position..], Strict(n)) {
      var st := ScanTo(line, position, index, n);
      assert index < |line| ==> line[index..][0] == MARK_START;
    }
  }

  /** A whole marker below n is passed over. */
  lemma StrictAfterMarker(line: string, index: nat, n: nat)
    requires index < |line| && MarkerEnd(line, index) >= 0 && MarkerValue(line, index) < n
    ensures Safe(line[index..], Strict(n)) <==> Safe(line[MarkerEnd(line, index)..], Strict(n))
  {
    var end := MarkerEnd(line, index);
    var marker, digits := line[index..end], line[index + 1..end - 1];
    assert marker == [MARK_START] + (digits + [MARK_END]);
    assert ([MARK_START] + (digits + [MARK_END]))[1..] == digits + [MARK_END];
    RunDigits(digits, Strict(n));
    RunSnoc(In(0, 0), digits, MARK_END, Strict(n));
    assert Run(Out, marker, Strict(n)) == Some(Out);
    assert marker + line[end..] == line[index..];
    RunConcat(Out, marker, line[end..], Strict(n));
  }

  // ----- Exactly when a layout holds no mark -----

  /** No mark stays in what is laid out for the node. */
  ghost predicate NodeFlat(nodes: seq<LayoutNode>, k: nat)
    requires WellFounded(nodes) && k < |nodes|
    decreases k, 2
  {
    match nodes[k]
    case Fraction(numerator, denominator) => TextFlat(nodes, numerator, k) && TextFlat(nodes, denominator, k)
    case _ => IsFlat(nodes[k])
  }

  /** All markers from `index` on stand for such nodes. */
  ghost predicate MarkersFlat(nodes: seq<LayoutNode>, line: string, n: nat, index: nat)
    requires WellFounded(nodes) && n <= |nodes|
    decreases n, 0, 0
  {
    forall j :: index <= j < |line| && MarkerEnd(line, j) >= 0 ==>
      MarkerValue(line, j) < n && NodeFlat(nodes, MarkerValue(line, j))
  }

  /** From `index` on, marks stand in whole markers only, and all of these stand for such nodes. */
  ghost predicate LineFlat(nodes: seq<LayoutNode>, line: string, n: nat, index: nat)
    requires WellFounded(nodes) && n <= |nodes| && Safe(line, Loose(n)) && index <= |line|
    decreases n, 0, 1
  {
    Safe(line[index..], Strict(n)) && MarkersFlat(nodes, line, n, index)
  }

  ghost predicate LinesFlat(nodes: seq<LayoutNode>, lines: seq<string>, n: nat)
    requires WellFounded(nodes) && n <= |nodes| && AllSafe(lines, Loose(n))
    decreases n, 1, 0
  {
    forall i :: 0 <= i < |lines| ==> LineFlat(nodes, lines[i], n, 0)
  }

  ghost predicate TextFlat(nodes: seq<LayoutNode>, text: string, n: nat)
    requires WellFounded(nodes) && n <= |nodes| && Safe(text, Loose(n))
    decreases n, 1, 1
  {
    SplitSafe(text, '\n', Loose(n));
    LinesFlat(nodes, SplitOn(text, '\n'), n)
  }

  lemma {:induction false} NodeIsClear(width: string -> nat, nodes: seq<LayoutNode>, k: nat)
    requires WellFounded(nodes) && k < |nodes|
    ensures Clear(NodeLayout(width, nodes, k)) <==> NodeFlat(nodes, k)
    decreases k, 3
  {
    assert NodeSafe(nodes[k], Loose(k));
    match nodes[k]
    case Fraction(numerator, denominator) =>
      TextIsClear(width, nodes, numerator, k);
      TextIsClear(width, nodes, denominator, k);
      FractionIsClear(width, LayoutOf(width, numerator, nodes, k), LayoutOf(width, denominator, nodes, k));
    case Operator(_, _, _) => OperatorIsClear(width, nodes[k]);
    case Matrix(_, _) => MatrixIsClear(width, nodes[k]);
  }

  lemma BetweenIsUnmarked(sliced: string, previous: Option<LayoutNode>, next: LayoutNode)
    ensures NoMarks(TextBetween(sliced, previous, next)) <==> NoMarks(sliced)
    ensures NoMarks(TextAfter(sliced, previous)) <==> NoMarks(sliced)
  {
    var front := if previous.Some? then TrimStart(sliced) else sliced;
    TrimUnmarked(sliced);
    TrimUnmarked(front);
    var trimmed := TrimEnd(front);
    NoMarksConcat(" ", front);
    NoMarksConcat("", trimmed);
    NoMarksConcat(" ", trimmed);
    NoMarksConcat("" + trimmed, "");
    NoMarksConcat("" + trimmed, " ");
    NoMarksConcat(" " + trimmed, "");
    NoMarksConcat(" " + trimmed, " ");
  }

  lemma {:induction false} PiecesAreClear(
    width: string -> nat, line: string, nodes: seq<LayoutNode>, n: nat, position: nat, index: nat,
    previous: Option<LayoutNode>)
    requires WellFounded(nodes) && n <= |nodes| && Safe(line, Loose(n)) && position <= index <= |line|
    requires NoMarkerStarts(line, position, index)
    ensures AllClear(Pieces(width, line, nodes, n, position, index, previous)) <==> LineFlat(nodes, line, n, position)
    decreases n, 0, |line| - index
  {
    if index == |line| {
      EndIsClear(width, line, nodes, n, position, previous);
    } else if MarkerEnd(line, index) < 0 {
      PiecesAreClear(width, line, nodes, n, position, index + 1, previous);
    } else {
      SafeMarkers(line, index, Loose(n));
      var k, end := MarkerValue(line, index), MarkerEnd(line, index);
      NodeIsClear(width, nodes, k);
      PiecesAreClear(width, line, nodes, n, end, end, Some(nodes[k]));
      MarkerIsClear(width, line, nodes, n, position, index, previous, k, end);
    }
  }

  lemma EndIsClear(
    width: string -> nat, line: string, nodes: seq<LayoutNode>, n: nat, position: nat, previous: Option<LayoutNode>)
    requires WellFounded(nodes) && n <= |nodes| && Safe(line, Loose(n)) && position <= |line|
    requires NoMarkerStarts(line, position, |line|)
    ensures AllClear(Pieces(width, line, nodes, n, position, |line|, previous)) <==> LineFlat(nodes, line, n, position)
  {
    StrictUpTo(line, position, |line|, n);
    assert line[position..|line|] == line[position..] && line[|line|..] == "";
    BetweenIsUnmarked(line[position..], previous, Fraction("", ""));
    if position < |line| {
      TextIsUnmarked(width, TextAfter(line[position..], previous));
    }
  }

  lemma TextIsUnmarked(width: string -> nat, text: string)
    ensures AllClear([TextLayout(width, text)]) <==> NoMarks(text)
  {
    var layout := TextLayout(width, text);
    assert [layout][0] == layout && layout.lines[0] == text;
  }

  lemma MarkerIsClear(
    width: string -> nat, line: string, nodes: seq<LayoutNode>, n: nat, position: nat, index: nat,
    previous: Option<LayoutNode>, k: nat, end: nat)
    requires WellFounded(nodes) && n <= |nodes| && Safe(line, Loose(n)) && position <= index < |line|
    requires MarkerEnd(line, index) == end && MarkerValue(line, index) == k < n && NoMarkerStarts(line, position, index)
    requires Clear(NodeLayout(width, nodes, k)) <==> NodeFlat(nodes, k)
    requires AllClear(Pieces(width, line, nodes, n, end, end, Some(nodes[k]))) <==> LineFlat(nodes, line, n, end)
    ensures AllClear(Pieces(width, line, nodes, n, position, index, previous)) <==> LineFlat(nodes, line, n, position)
  {
    var text := PieceBefore(width, line, position, index, previous, nodes[k]);
    BeforeIsClear(width, line, position, index, previous, nodes[k]);
    AllClearConcat(text, NodeLayout(width, nodes, k), Pieces(width, line, nodes, n, end, end, Some(nodes[k])));
    FlatAfterMarker(nodes, line, n, position, index);
  }

  lemma BeforeIsClear(width: string -> nat, line: string, position: nat, index: nat,
                      previous: Option<LayoutNode>, next: LayoutNode)
    requires position <= index <= |line|
    ensures AllClear(PieceBefore(width, line, position, index, previous, next)) <==> NoMarks(line[position..index])
  {
    BetweenIsUnmarked(line[position..index], previous, next);
    if index > position {
      TextIsUnmarked(width, TextBetween(line[position..index], previous, next));
    }
  }

  lemma AllClearConcat(text: seq<Layout>, node: Layout, rest: seq<Layout>)
    ensures AllClear(text + [node] + rest) <==> AllClear(text) && Clear(node) && AllClear(rest)
  {
    var all := text + [node] + rest;
    assert all[|text|] == node;
    assert forall i :: 0 <= i < |text| ==> all[i] == text[i];
    assert forall i :: 0 <= i < |rest| ==> all[|text| + 1 + i] == rest[i];
  }

  /** No marker starts inside a marker. */
  lemma MarkersOnce(line: string, index: nat, end: nat)
    requires index < |line| && MarkerEnd(line, index) == end
    ensures forall j :: index < j < end ==> MarkerEnd(line, j) < 0
  {
    forall j | index < j < end ensures MarkerEnd(line, j) < 0 {
      assert j < end - 1 ==> IsDigit(line[j]);
    }
  }

  lemma FlatAfterMarker(nodes: seq<LayoutNode>, line: string, n: nat, position: nat, index: nat)
    requires WellFounded(nodes) && n <= |nodes| && Safe(line, Loose(n)) && position <= index < |line|
    requires MarkerEnd(line, index) >= 0 && MarkerValue(line, index) < n && NoMarkerStarts(line, position, index)
    ensures LineFlat(nodes, line, n, position) <==>
            && NoMarks(line[position..index])
            && NodeFlat(nodes, MarkerValue(line, index)) && LineFlat(nodes, line, n, MarkerEnd(line, index))
  {
    MarkersFlatAfter(nodes, line, n, position, index);
    StrictUpTo(line, position, index, n);
    StrictAfterMarker(line, index, n);
  }

  lemma MarkersFlatAfter(nodes: seq<LayoutNode>, line: string, n: nat, position: nat, index: nat)
    requires WellFounded(nodes) && n <= |nodes| && position <= index < |line|
    requires MarkerEnd(line, index) >= 0 && MarkerValue(line, index) < n && NoMarkerStarts(line, position, index)
    ensures MarkersFlat(nodes, line, n, position) <==>
            NodeFlat(nodes, MarkerValue(line, index)) && MarkersFlat(nodes, line, n, MarkerEnd(line, index))
  {
    MarkersOnce(line, index, MarkerEnd(line, index));
  }

  lemma {:induction false} LinesAreClear(width: string -> nat, lines: seq<string>, nodes: seq<LayoutNode>, n: nat)
    requires WellFounded(nodes) && n <= |nodes| && AllSafe(lines, Loose(n))
    ensures AllNoMarks(RenderedLines(width, lines, nodes, n)) <==> LinesFlat(nodes, lines, n)
    decreases n, 1, |lines|
  {
    if lines != [] {
      var first, rest := LineLayout(width, lines[0], nodes, n), RenderedLines(width, lines[1..], nodes, n);
      PiecesAreClear(width, lines[0], nodes, n, 0, 0, None);
      JoinedIsClear(width, Pieces(width, lines[0], nodes, n, 0, 0, None));
      LinesAreClear(width, lines[1..], nodes, n);
      AllNoMarksConcat(first.lines, rest);
      LinesFlatCons(nodes, lines, n);
    }
  }

  lemma LinesFlatCons(nodes: seq<LayoutNode>, lines: seq<string>, n: nat)
    requires WellFounded(nodes) && n <= |nodes| && AllSafe(lines, Loose(n)) && lines != []
    ensures LinesFlat(nodes, lines, n) <==> LineFlat(nodes, lines[0], n, 0) && LinesFlat(nodes, lines[1..], n)
  {
    assert forall i :: 0 <= i < |lines| - 1 ==> lines[1..][i] == lines[i + 1];
    assert forall i :: 0 < i < |lines| ==> lines[i] == lines[1..][i - 1];
  }

  /**
    The layout of a text holds no mark exactly when marks stand in whole markers only, and
    every marker stands for a fraction of such texts, or for an operator or a matrix without
    marks in its texts.
  */
  lemma {:induction false} TextIsClear(width: string -> nat, nodes: seq<LayoutNode>, text: string, n: nat)
    requires WellFounded(nodes) && n <= |nodes| && Safe(text, Loose(n))
    ensures Clear(LayoutOf(width, text, nodes, n)) <==> TextFlat(nodes, text, n)
    decreases n, 2
  {
    SplitSafe(text, '\n', Loose(n));
    LinesAreClear(width, SplitOn(text, '\n'), nodes, n);
  }

  // ----- What is known of the nodes -----

  /** Nodes from guarded source leave no mark, and nor does text strictly safe above them. */
  lemma {:induction false} GuardedIsFlat(nodes: seq<LayoutNode>, text: string, n: nat)
    requires Kept(Guarded, nodes) && WellFounded(nodes) && n <= |nodes| && Safe(text, Strict(n)) && Safe(text, Loose(n))
    ensures TextFlat(nodes, text, n)
    decreases n, 0
  {
    SplitSafe(text, '\n', Strict(n));
    SplitSafe(text, '\n', Loose(n));
    forall i, j | 0 <= i < |SplitOn(text, '\n')| && 0 <= j < |SplitOn(text, '\n')[i]| && MarkerEnd(SplitOn(text, '\n')[i], j) >= 0
      ensures MarkerValue(SplitOn(text, '\n')[i], j) < n && NodeFlat(nodes, MarkerValue(SplitOn(text, '\n')[i], j))
    {
      SafeMarkers(SplitOn(text, '\n')[i], j, Loose(n));
      GuardedNode(nodes, MarkerValue(SplitOn(text, '\n')[i], j));
    }
    forall i | 0 <= i < |SplitOn(text, '\n')| ensures LineFlat(nodes, SplitOn(text, '\n')[i], n, 0) {
      assert SplitOn(text, '\n')[i][0..] == SplitOn(text, '\n')[i];
    }
  }

  lemma {:induction false} GuardedNode(nodes: seq<LayoutNode>, k: nat)
    requires Kept(Guarded, nodes) && WellFounded(nodes) && k < |nodes|
    ensures NodeFlat(nodes, k)
    decreases k, 1
  {
    assert NodeKept(Guarded, nodes[k], k);
    if nodes[k].Fraction? {
      GuardedIsFlat(nodes, nodes[k].numerator, k);
      GuardedIsFlat(nodes, nodes[k].denominator, k);
    }
  }
}
