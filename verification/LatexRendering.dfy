/**
  Rendering text with layout markers: every marker is replaced by the layout of its node,
  recursively. The functions say what is rendered; the methods compute it.
*/
module LatexRendering {
  import opened Arithmetic
  import opened Decimals
  import opened LatexFormat
  import opened LatexLayout
  import opened LatexMeaning
  import opened LatexParsing
  import opened LatexText
  import opened Sequences
  import opened WhiteSpace
  import opened Wrappers

  // ----- Text and nodes -----

  /** The text between two nodes, trimmed next to them; next to a matrix one space survives. */
  function TextBetween(sliced: string, previous: Option<LayoutNode>, next: LayoutNode): string {
    var trimmed := TrimEnd(if previous.Some? then TrimStart(sliced) else sliced);
    var leading := previous.Some? && previous.value.Matrix? && sliced != "" && IsSpace(sliced[0]);
    var trailing := next.Matrix? && sliced != "" && IsSpace(sliced[|sliced| - 1]);
    if trimmed != "" then (if leading then " " else "") + trimmed + (if trailing then " " else "")
    else if leading || trailing then " " else ""
  }

  function TextAfter(sliced: string, previous: Option<LayoutNode>): string {
    var trimmed := if previous.Some? then TrimStart(sliced) else sliced;
    if previous.Some? && previous.value.Matrix? && sliced != "" && IsSpace(sliced[0]) then " " + trimmed else trimmed
  }

  function TextLayout(width: string -> nat, text: string): Layout {
    Layout([text], width(text), 0)
  }

  function PadAll(width: string -> nat, lines: seq<string>, target: nat, centered: bool): (padded: seq<string>)
    ensures |padded| == |lines|
    ensures forall r :: 0 <= r < |lines| ==> padded[r] == PadLayoutLine(width, lines[r], target, centered)
  {
    if lines == [] then [] else [PadLayoutLine(width, lines[0], target, centered)] + PadAll(width, lines[1..], target, centered)
  }

  function WidestLine(width: string -> nat, lines: seq<string>): (w: nat)
    ensures forall r :: 0 <= r < |lines| ==> width(lines[r]) <= w
  {
    if lines == [] then 0 else Max(width(lines[0]), WidestLine(width, lines[1..]))
  }

  ghost predicate Exact(width: string -> nat, lines: seq<string>, target: nat) {
    forall r :: 0 <= r < |lines| ==> width(lines[r]) == target
  }

  lemma PadAllFills(width: string -> nat, lines: seq<string>, target: nat, centered: bool)
    requires Additive(width) && forall r :: 0 <= r < |lines| ==> width(lines[r]) <= target
    ensures Exact(width, PadAll(width, lines, target, centered), target)
  {
    forall r | 0 <= r < |lines| ensures width(PadAll(width, lines, target, centered)[r]) == target {
      PadFills(width, lines[r], target, centered);
    }
  }

  lemma StackFills(width: string -> nat, above: seq<string>, rule: string, below: seq<string>, target: nat)
    requires Exact(width, above, target) && width(rule) == target && Exact(width, below, target)
    ensures Exact(width, above + [rule] + below, target)
  {
  }

  /** The numerator over a rule over the denominator, one column of margin on both sides. */
  function FractionLayout(width: string -> nat, numerator: Layout, denominator: Layout): Layout {
    var content := Max(Max(numerator.width, denominator.width), 1);
    Layout(PadAll(width, numerator.lines, content + 2, true)
           + [" " + Repeat('─', content) + " "]
           + PadAll(width, denominator.lines, content + 2, true),
           content + 2, |numerator.lines|)
  }

  lemma RuleWidth(width: string -> nat, content: nat)
    requires Additive(width)
    ensures width(" " + Repeat('─', content) + " ") == content + 2
  {
    RepeatWidth(width, '─', content);
    Adds(width, " ", Repeat('─', content));
    Adds(width, " " + Repeat('─', content), " ");
  }

  lemma ExactFits(width: string -> nat, layout: Layout)
    requires Exact(width, layout.lines, layout.width) && layout.baseline < |layout.lines|
    ensures Fits(width, layout)
  {
  }

  /** All lines of a fraction are equally wide, so the rule covers both parts and they are centered on it. */
  lemma FractionFits(width: string -> nat, numerator: Layout, denominator: Layout)
    requires Additive(width) && Fits(width, numerator) && Fits(width, denominator)
    ensures var f := FractionLayout(width, numerator, denominator);
            Fits(width, f) && Exact(width, f.lines, f.width)
  {
    var f := FractionLayout(width, numerator, denominator);
    var above, below := PadAll(width, numerator.lines, f.width, true), PadAll(width, denominator.lines, f.width, true);
    PadAllFills(width, numerator.lines, f.width, true);
    PadAllFills(width, denominator.lines, f.width, true);
    RuleWidth(width, f.width - 2);
    StackFills(width, above, " " + Repeat('─', f.width - 2) + " ", below, f.width);
    ExactFits(width, f);
  }

  function OperatorLayout(width: string -> nat, node: LayoutNode): Layout
    requires node.Operator?
  {
    var lower := if node.lower.None? then 0 else width(node.lower.value);
    var upper := if node.upper.None? then 0 else width(node.upper.value);
    var content := Max(width(node.operator), Max(lower, upper));
    Layout((if node.upper.Some? then [PadLayoutLine(width, node.upper.value, content, true) + " "] else [])
           + [PadLayoutLine(width, node.operator, content, true) + " "]
           + (if node.lower.Some? then [PadLayoutLine(width, node.lower.value, content, true) + " "] else []),
           content + 1, if node.upper.None? then 0 else 1)
  }

  lemma OperatorFits(width: string -> nat, node: LayoutNode)
    requires Additive(width) && node.Operator?
    ensures Fits(width, OperatorLayout(width, node))
  {
    var layout := OperatorLayout(width, node);
    var content := layout.width - 1;
    if node.upper.Some? {
      PadFills(width, node.upper.value, content, true);
      Adds(width, PadLayoutLine(width, node.upper.value, content, true), " ");
    }
    if node.lower.Some? {
      PadFills(width, node.lower.value, content, true);
      Adds(width, PadLayoutLine(width, node.lower.value, content, true), " ");
    }
    PadFills(width, node.operator, content, true);
    Adds(width, PadLayoutLine(width, node.operator, content, true), " ");
  }

  function MatrixLayout(width: string -> nat, lines: seq<string>, baseline: nat): Layout {
    var w := WidestLine(width, lines);
    Layout(PadAll(width, lines, w, false), w, baseline)
  }

  // ----- What is rendered, as functions -----

  /** The layout of node k: its own parts are laid out with the nodes below it. */
  ghost function NodeLayout(width: string -> nat, nodes: seq<LayoutNode>, k: nat): Layout
    requires WellFounded(nodes) && k < |nodes|
    decreases k, 3
  {
    match nodes[k]
    case Fraction(numerator, denominator) =>
      FractionLayout(width, LayoutOf(width, numerator, nodes, k), LayoutOf(width, denominator, nodes, k))
    case Operator(_, _, _) => OperatorLayout(width, nodes[k])
    case Matrix(lines, baseline) => MatrixLayout(width, lines, baseline)
  }

  /** What stands in the line between the last marker and this one. */
  function PieceBefore(width: string -> nat, line: string, position: nat, index: nat,
                       previous: Option<LayoutNode>, next: LayoutNode): seq<Layout>
    requires position <= index <= |line|
  {
    if index > position then [TextLayout(width, TextBetween(line[position..index], previous, next))] else []
  }

  /** What a line still contributes: text not yet placed starts at `position`, the search for markers is at `index`. */
  ghost function Pieces(
    width: string -> nat, line: string, nodes: seq<LayoutNode>, n: nat, position: nat, index: nat,
    previous: Option<LayoutNode>): seq<Layout>
    requires WellFounded(nodes) && n <= |nodes| && Safe(line, Loose(n)) && position <= index <= |line|
    decreases n, 0, |line| - index
  {
    if index == |line| then
      if position < |line| then [TextLayout(width, TextAfter(line[position..], previous))] else []
    else if MarkerEnd(line, index) < 0 then Pieces(width, line, nodes, n, position, index + 1, previous)
    else
      SafeMarkers(line, index, Loose(n));
      var k, end := MarkerValue(line, index), MarkerEnd(line, index);
      PieceBefore(width, line, position, index, previous, nodes[k])
      + [NodeLayout(width, nodes, k)]
      + Pieces(width, line, nodes, n, end, end, Some(nodes[k]))
  }

  ghost function LineLayout(width: string -> nat, line: string, nodes: seq<LayoutNode>, n: nat): Layout
    requires WellFounded(nodes) && n <= |nodes| && Safe(line, Loose(n))
    decreases n, 1
  {
    Joined(width, Pieces(width, line, nodes, n, 0, 0, None))
  }

  ghost function RenderedLines(width: string -> nat, lines: seq<string>, nodes: seq<LayoutNode>, n: nat): seq<string>
    requires WellFounded(nodes) && n <= |nodes| && AllSafe(lines, Loose(n))
    decreases n, 2, |lines|, 0
  {
    if lines == [] then []
    else LineLayout(width, lines[0], nodes, n).lines + RenderedLines(width, lines[1..], nodes, n)
  }

  /** The layout of a text whose markers refer to nodes below n. */
  ghost function LayoutOf(width: string -> nat, source: string, nodes: seq<LayoutNode>, n: nat): Layout
    requires WellFounded(nodes) && n <= |nodes| && Safe(source, Loose(n))
    decreases n, 2, |source| + 2, 1
  {
    SplitSafe(source, '\n', Loose(n));
    SplitLength(source, '\n');
    var lines := SplitOn(source, '\n');
    var rendered := RenderedLines(width, lines, nodes, n);
    Layout(rendered, WidestLine(width, rendered), LineLayout(width, lines[0], nodes, n).baseline)
  }

  // ----- Rendering -----

  /** The recursion goes to the numerator and the denominator only, and their markers are lower. */
  method RenderNode(width: string -> nat, nodes: seq<LayoutNode>, k: nat) returns (layout: Layout)
    requires Additive(width) && WellFounded(nodes) && k < |nodes|
    ensures layout == NodeLayout(width, nodes, k) && Fits(width, layout)
    decreases k, 2
  {
    var node := nodes[k];
    match node
    case Fraction(numerator, denominator) =>
      var above := RenderLayout(width, numerator, nodes, k);
      var below := RenderLayout(width, denominator, nodes, k);
      FractionFits(width, above, below);
      layout := FractionLayout(width, above, below);
    case Operator(_, _, _) =>
      OperatorFits(width, node);
      layout := OperatorLayout(width, node);
    case Matrix(lines, baseline) =>
      PadAllFills(width, lines, WidestLine(width, lines), false);
      layout := MatrixLayout(width, lines, baseline);
  }

  /** The pieces so far and those still to come make up the line. */
  ghost predicate PiecesSoFar(
    width: string -> nat, line: string, nodes: seq<LayoutNode>, n: nat, layouts: seq<Layout>,
    position: nat, index: nat, previous: Option<LayoutNode>)
    requires WellFounded(nodes) && n <= |nodes| && Safe(line, Loose(n)) && position <= index <= |line|
  {
    && Pieces(width, line, nodes, n, 0, 0, None) == layouts + Pieces(width, line, nodes, n, position, index, previous)
    && AllFit(width, layouts)
  }

  lemma PiecesGrow(all: seq<Layout>, layouts: seq<Layout>, text: seq<Layout>, node: Layout, rest: seq<Layout>)
    requires all == layouts + (text + [node] + rest)
    ensures all == (layouts + text + [node]) + rest
  {
  }

  /** One marker: the text before it and the layout of its node are placed. */
  lemma MarkerPlaced(
    width: string -> nat, line: string, nodes: seq<LayoutNode>, n: nat, layouts: seq<Layout>,
    position: nat, index: nat, previous: Option<LayoutNode>, k: nat, end: nat)
    requires WellFounded(nodes) && n <= |nodes| && Safe(line, Loose(n)) && position <= index < |line|
    requires MarkerEnd(line, index) == end && MarkerValue(line, index) == k < n
    requires PiecesSoFar(width, line, nodes, n, layouts, position, index, previous)
    requires Fits(width, NodeLayout(width, nodes, k))
    ensures PiecesSoFar(width, line, nodes, n,
                        layouts + PieceBefore(width, line, position, index, previous, nodes[k]) + [NodeLayout(width, nodes, k)],
                        end, end, Some(nodes[k]))
  {
    PiecesGrow(Pieces(width, line, nodes, n, 0, 0, None), layouts,
               PieceBefore(width, line, position, index, previous, nodes[k]), NodeLayout(width, nodes, k),
               Pieces(width, line, nodes, n, end, end, Some(nodes[k])));
  }

  lemma LineDone(
    width: string -> nat, line: string, nodes: seq<LayoutNode>, n: nat, layouts: seq<Layout>,
    position: nat, previous: Option<LayoutNode>, last: seq<Layout>)
    requires WellFounded(nodes) && n <= |nodes| && Safe(line, Loose(n)) && position <= |line|
    requires PiecesSoFar(width, line, nodes, n, layouts, position, |line|, previous)
    requires last == if position < |line| then [TextLayout(width, TextAfter(line[position..], previous))] else []
    ensures Pieces(width, line, nodes, n, 0, 0, None) == layouts + last && AllFit(width, layouts + last)
  {
  }

  method RenderLine(width: string -> nat, sourceLine: string, nodes: seq<LayoutNode>, ghost n: nat)
    returns (layout: Layout)
    requires Additive(width) && WellFounded(nodes) && n <= |nodes| && Safe(sourceLine, Loose(n))
    ensures layout == LineLayout(width, sourceLine, nodes, n) && Fits(width, layout)
    decreases n, 0
  {
    var layouts: seq<Layout> := [];
    var position, index := 0, 0;
    var previous: Option<LayoutNode> := None;
    while index < |sourceLine|
      invariant 0 <= position <= index <= |sourceLine|
      invariant PiecesSoFar(width, sourceLine, nodes, n, layouts, position, index, previous)
      decreases |sourceLine| - index
    {
      var end := MarkerEnd(sourceLine, index);
      if end < 0 {
        index := index + 1;
      } else {
        var k := MarkerValue(sourceLine, index);
        SafeMarkers(sourceLine, index, Loose(n));
        var node := RenderNode(width, nodes, k);
        MarkerPlaced(width, sourceLine, nodes, n, layouts, position, index, previous, k, end);
        layouts := layouts + PieceBefore(width, sourceLine, position, index, previous, nodes[k]) + [node];
        position, index, previous := end, end, Some(nodes[k]);
      }
    }
    var last: seq<Layout> := [];
    if position < |sourceLine| {
      last := [TextLayout(width, TextAfter(sourceLine[position..], previous))];
    }
    LineDone(width, sourceLine, nodes, n, layouts, position, previous, last);
    layout := JoinLayouts(width, layouts + last);
  }

  lemma LinesGrow(width: string -> nat, lines: seq<string>, nodes: seq<LayoutNode>, n: nat, done: seq<string>, i: nat)
    requires WellFounded(nodes) && n <= |nodes| && AllSafe(lines, Loose(n)) && i < |lines|
    requires RenderedLines(width, lines, nodes, n) == done + RenderedLines(width, lines[i..], nodes, n)
    ensures RenderedLines(width, lines, nodes, n)
            == (done + LineLayout(width, lines[i], nodes, n).lines) + RenderedLines(width, lines[i + 1..], nodes, n)
  {
    var rest := lines[i..];
    assert rest[0] == lines[i] && rest[1..] == lines[i + 1..];
    Associative(done, LineLayout(width, lines[i], nodes, n).lines, RenderedLines(width, lines[i + 1..], nodes, n));
  }

  /** Rendering ends for every safe text over well-founded nodes, and what it renders fits. */
  method RenderLayout(width: string -> nat, source: string, nodes: seq<LayoutNode>, ghost n: nat)
    returns (layout: Layout)
    requires Additive(width) && WellFounded(nodes) && n <= |nodes| && Safe(source, Loose(n))
    ensures layout == LayoutOf(width, source, nodes, n) && Fits(width, layout)
    decreases n, 1
  {
    var sourceLines := SplitOn(source, '\n');
    SplitSafe(source, '\n', Loose(n));
    var renderedLines: seq<string> := [];
    var firstBaseline: nat := 0;
    for i := 0 to |sourceLines|
      invariant if i == 0 then renderedLines == [] else firstBaseline < |renderedLines|
      invariant i > 0 ==> firstBaseline == LineLayout(width, sourceLines[0], nodes, n).baseline
      invariant RenderedLines(width, sourceLines, nodes, n)
                == renderedLines + RenderedLines(width, sourceLines[i..], nodes, n)
    {
      var lineLayout := RenderLine(width, sourceLines[i], nodes, n);
      if |renderedLines| == 0 {
        firstBaseline := lineLayout.baseline;
      }
      LinesGrow(width, sourceLines, nodes, n, renderedLines, i);
      renderedLines := renderedLines + lineLayout.lines;
    }
    assert sourceLines[|sourceLines|..] == [] && renderedLines + [] == renderedLines;
    LayoutOfLines(width, source, sourceLines, nodes, n, renderedLines);
    layout := Layout(renderedLines, WidestLine(width, renderedLines), firstBaseline);
  }

  lemma LayoutOfLines(width: string -> nat, source: string, lines: seq<string>, nodes: seq<LayoutNode>, n: nat,
                      rendered: seq<string>)
    requires WellFounded(nodes) && n <= |nodes| && Safe(source, Loose(n))
    requires lines == SplitOn(source, '\n') && AllSafe(lines, Loose(n)) && rendered == RenderedLines(width, lines, nodes, n)
    ensures LayoutOf(width, source, nodes, n)
            == Layout(rendered, WidestLine(width, rendered), LineLayout(width, lines[0], nodes, n).baseline)
  {
  }

  // ----- Lower nodes decide -----

  ghost predicate SameBelow(nodes: seq<LayoutNode>, nodes': seq<LayoutNode>, n: nat) {
    && WellFounded(nodes) && WellFounded(nodes') && n <= |nodes| && n <= |nodes'|
    && forall k :: 0 <= k < n ==> nodes[k] == nodes'[k]
  }

  lemma {:induction false} LowerNodesDecideNode(
    width: string -> nat, nodes: seq<LayoutNode>, nodes': seq<LayoutNode>, n: nat, k: nat)
    requires SameBelow(nodes, nodes', n) && k < n
    ensures NodeLayout(width, nodes, k) == NodeLayout(width, nodes', k)
    decreases k, 3
  {
    if nodes[k].Fraction? {
      LowerNodesDecide(width, nodes[k].numerator, nodes, nodes', k);
      LowerNodesDecide(width, nodes[k].denominator, nodes, nodes', k);
    }
  }

  lemma {:induction false} LowerNodesDecidePieces(
    width: string -> nat, line: string, nodes: seq<LayoutNode>, nodes': seq<LayoutNode>, n: nat,
    position: nat, index: nat, previous: Option<LayoutNode>)
    requires SameBelow(nodes, nodes', n) && Safe(line, Loose(n)) && position <= index <= |line|
    ensures Pieces(width, line, nodes, n, position, index, previous) == Pieces(width, line, nodes', n, position, index, previous)
    decreases n, 0, |line| - index
  {
    if index < |line| {
      if MarkerEnd(line, index) < 0 {
        LowerNodesDecidePieces(width, line, nodes, nodes', n, position, index + 1, previous);
      } else {
        SafeMarkers(line, index, Loose(n));
        var k, end := MarkerValue(line, index), MarkerEnd(line, index);
        LowerNodesDecideNode(width, nodes, nodes', n, k);
        LowerNodesDecidePieces(width, line, nodes, nodes', n, end, end, Some(nodes[k]));
      }
    }
  }

  lemma {:induction false} LowerNodesDecideLines(
    width: string -> nat, lines: seq<string>, nodes: seq<LayoutNode>, nodes': seq<LayoutNode>, n: nat)
    requires SameBelow(nodes, nodes', n) && AllSafe(lines, Loose(n))
    ensures RenderedLines(width, lines, nodes, n) == RenderedLines(width, lines, nodes', n)
    ensures lines != [] ==> LineLayout(width, lines[0], nodes, n) == LineLayout(width, lines[0], nodes', n)
    decreases n, 1, |lines|
  {
    if lines != [] {
      LowerNodesDecidePieces(width, lines[0], nodes, nodes', n, 0, 0, None);
      LowerNodesDecideLines(width, lines[1..], nodes, nodes', n);
    }
  }

  /** How a text is laid out depends on the nodes below its bound only, whatever nodes were added later. */
  lemma {:induction false} LowerNodesDecide(
    width: string -> nat, source: string, nodes: seq<LayoutNode>, nodes': seq<LayoutNode>, n: nat)
    requires SameBelow(nodes, nodes', n) && Safe(source, Loose(n))
    ensures LayoutOf(width, source, nodes, n) == LayoutOf(width, source, nodes', n)
    decreases n, 2
  {
    SplitSafe(source, '\n', Loose(n));
    LowerNodesDecideLines(width, SplitOn(source, '\n'), nodes, nodes', n);
  }

  // ----- Text without markers -----

  lemma {:induction false} NoMarkerNoPieces(
    width: string -> nat, line: string, nodes: seq<LayoutNode>, n: nat, index: nat)
    requires WellFounded(nodes) && n <= |nodes| && Safe(line, Loose(n)) && index <= |line|
    requires forall j :: 0 <= j < |line| ==> MarkerEnd(line, j) < 0
    ensures Pieces(width, line, nodes, n, 0, index, None) == if line == "" then [] else [TextLayout(width, line)]
    decreases |line| - index
  {
    if index < |line| {
      NoMarkerNoPieces(width, line, nodes, n, index + 1);
    }
  }

  lemma JoinedAlone(width: string -> nat, line: string)
    ensures Joined(width, [TextLayout(width, line)]) == Layout([TrimEnd(line)], width(line), 0)
  {
    var text := TextLayout(width, line);
    var layouts := [text];
    assert layouts[..|layouts| - 1] == [] && layouts[|layouts| - 1] == text;
    assert Baseline(layouts) == 0 && Below(layouts) == 0 && TotalWidth(layouts) == width(line);
    assert PadLayoutLine(width, line, width(line), false) == line;
    assert RowText(width, layouts, 0, 0) == "" + line;
    assert "" + line == line;
    var rows := Rows(RowLine(width, layouts, 0), 1);
    assert rows == [TrimEnd(line)];
  }

  /** A line without whole markers is laid out as itself, without its trailing white space. */
  lemma PlainLineIsKept(width: string -> nat, line: string, nodes: seq<LayoutNode>, n: nat)
    requires WellFounded(nodes) && n <= |nodes| && Safe(line, Loose(n))
    requires forall j :: 0 <= j < |line| ==> MarkerEnd(line, j) < 0
    ensures LineLayout(width, line, nodes, n) == Layout([TrimEnd(line)], if line == "" then 0 else width(line), 0)
  {
    NoMarkerNoPieces(width, line, nodes, n, 0);
    if line != "" {
      JoinedAlone(width, line);
    }
  }
}
