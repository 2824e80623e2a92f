/**
  Two-dimensional layout of rendered LaTeX: markers are replaced by the layouts of their
  nodes, recursively, and the pieces of a line are joined along their baselines.
*/
module LatexLayout {
  import opened Arithmetic
  import opened Decimals
  import opened LatexFormat
  import opened LatexMeaning
  import opened LatexParsing
  import opened LatexText
  import opened Sequences
  import opened WhiteSpace
  import opened Wrappers

  datatype Layout = Layout(lines: seq<string>, width: nat, baseline: nat)

  /** Always true: mentioning a pair tells the verifier to add up its widths. */
  predicate Pair(a: string, b: string) { true }

  /** The visible width adds up; spaces and rules are one column wide. */
  ghost predicate Additive(width: string -> nat) {
    && (forall a, b {:trigger Pair(a, b)} :: Pair(a, b) ==> width(a + b) == width(a) + width(b))
    && width("") == 0 && width(" ") == 1 && width("─") == 1
  }

  lemma Adds(width: string -> nat, a: string, b: string)
    requires Additive(width)
    ensures width(a + b) == width(a) + width(b)
  {
    assert Pair(a, b);
  }

  /** The baseline is one of the lines and no line is wider than the layout. */
  ghost predicate Fits(width: string -> nat, layout: Layout) {
    && layout.baseline < |layout.lines|
    && forall r :: 0 <= r < |layout.lines| ==> width(layout.lines[r]) <= layout.width
  }

  lemma {:induction false} RepeatWidth(width: string -> nat, c: char, n: nat)
    requires Additive(width) && width([c]) == 1
    ensures width(Repeat(c, n)) == n
  {
    if n > 0 {
      RepeatWidth(width, c, n - 1);
      Adds(width, [c], Repeat(c, n - 1));
    }
  }

  function PadLayoutLine(width: string -> nat, line: string, target: nat, centered: bool): string {
    var padding := if target > width(line) then target - width(line) else 0;
    var left := if centered then padding / 2 else 0;
    Repeat(' ', left) + line + Repeat(' ', padding - left)
  }

  lemma PadFills(width: string -> nat, line: string, target: nat, centered: bool)
    requires Additive(width) && width(line) <= target
    ensures width(PadLayoutLine(width, line, target, centered)) == target
  {
    var padding := if target > width(line) then target - width(line) else 0;
    var left := if centered then padding / 2 else 0;
    RepeatWidth(width, ' ', left);
    RepeatWidth(width, ' ', padding - left);
    Adds(width, Repeat(' ', left), line);
    Adds(width, Repeat(' ', left) + line, Repeat(' ', padding - left));
  }

  lemma TrimNarrows(width: string -> nat, s: string)
    requires Additive(width)
    ensures width(TrimEnd(s)) <= width(s)
  {
    var t := TrimEnd(s);
    assert s == t + s[|t|..];
    Adds(width, t, s[|t|..]);
  }

  // ----- Joining along the baseline -----

  /** What a layout contributes to a row of the joined layout. */
  function Piece(width: string -> nat, layout: Layout, baseline: nat, row: nat): string {
    var sourceRow := row - baseline + layout.baseline;
    if 0 <= sourceRow < |layout.lines| then PadLayoutLine(width, layout.lines[sourceRow], layout.width, false)
    else Repeat(' ', layout.width)
  }

  function RowText(width: string -> nat, layouts: seq<Layout>, baseline: nat, row: nat): string {
    if layouts == [] then ""
    else RowText(width, layouts[..|layouts| - 1], baseline, row) + Piece(width, layouts[|layouts| - 1], baseline, row)
  }

  function TotalWidth(layouts: seq<Layout>): nat {
    if layouts == [] then 0 else TotalWidth(layouts[..|layouts| - 1]) + layouts[|layouts| - 1].width
  }

  function Baseline(layouts: seq<Layout>): (b: nat)
    ensures forall i :: 0 <= i < |layouts| ==> layouts[i].baseline <= b
  {
    if layouts == [] then 0 else Max(Baseline(layouts[..|layouts| - 1]), layouts[|layouts| - 1].baseline)
  }

  function Below(layouts: seq<Layout>): (b: nat)
    ensures forall i :: 0 <= i < |layouts| ==> |layouts[i].lines| - layouts[i].baseline - 1 <= b
  {
    if layouts == [] then 0
    else
      var last := layouts[|layouts| - 1];
      Max(Below(layouts[..|layouts| - 1]),
          if |last.lines| > last.baseline then |last.lines| - last.baseline - 1 else 0)
  }

  ghost predicate AllFit(width: string -> nat, layouts: seq<Layout>) {
    forall i :: 0 <= i < |layouts| ==> Fits(width, layouts[i])
  }

  lemma PieceFills(width: string -> nat, layout: Layout, baseline: nat, row: nat)
    requires Additive(width) && Fits(width, layout)
    ensures width(Piece(width, layout, baseline, row)) == layout.width
  {
    var sourceRow := row - baseline + layout.baseline;
    if 0 <= sourceRow < |layout.lines| {
      PadFills(width, layout.lines[sourceRow], layout.width, false);
    } else {
      RepeatWidth(width, ' ', layout.width);
    }
  }

  lemma {:induction false} RowWidth(width: string -> nat, layouts: seq<Layout>, baseline: nat, row: nat)
    requires Additive(width) && AllFit(width, layouts)
    ensures width(RowText(width, layouts, baseline, row)) == TotalWidth(layouts)
  {
    if layouts != [] {
      var shorter, last := layouts[..|layouts| - 1], layouts[|layouts| - 1];
      RowWidth(width, shorter, baseline, row);
      PieceFills(width, last, baseline, row);
      Adds(width, RowText(width, shorter, baseline, row), Piece(width, last, baseline, row));
    }
  }

  lemma {:induction false} RowSplits(width: string -> nat, layouts: seq<Layout>, baseline: nat, row: nat, i: nat)
    returns (before: string, after: string)
    requires Additive(width) && AllFit(width, layouts) && i < |layouts|
    ensures RowText(width, layouts, baseline, row) == before + Piece(width, layouts[i], baseline, row) + after
    ensures width(before) == TotalWidth(layouts[..i])
    decreases |layouts|
  {
    var shorter, last := layouts[..|layouts| - 1], Piece(width, layouts[|layouts| - 1], baseline, row);
    assert RowText(width, layouts, baseline, row) == RowText(width, shorter, baseline, row) + last;
    if i == |layouts| - 1 {
      before, after := RowText(width, shorter, baseline, row), "";
      RowWidth(width, shorter, baseline, row);
      assert before + last + "" == before + last;
    } else {
      var rest;
      before, rest := RowSplits(width, shorter, baseline, row, i);
      assert shorter[..i] == layouts[..i] && shorter[i] == layouts[i];
      Associative(before + Piece(width, layouts[i], baseline, row), rest, last);
      after := rest + last;
    }
  }

  /**
    Columns align: in every row of the joined layout, the piece of layout i starts at the
    column where the layouts before it end and is exactly as wide as layout i.
  */
  lemma ColumnsAlign(width: string -> nat, layouts: seq<Layout>, baseline: nat, row: nat, i: nat)
    returns (before: string, after: string)
    requires Additive(width) && AllFit(width, layouts) && i < |layouts|
    ensures RowText(width, layouts, baseline, row) == before + Piece(width, layouts[i], baseline, row) + after
    ensures width(before) == TotalWidth(layouts[..i])
    ensures width(Piece(width, layouts[i], baseline, row)) == layouts[i].width
  {
    before, after := RowSplits(width, layouts, baseline, row, i);
    PieceFills(width, layouts[i], baseline, row);
  }

  /** Rows align: line r of layout i stands as far from the joined baseline as from its own. */
  lemma RowsAlign(width: string -> nat, layouts: seq<Layout>, i: nat, r: nat)
    requires i < |layouts| && r < |layouts[i].lines|
    ensures var row := Baseline(layouts) - layouts[i].baseline + r;
            && 0 <= row <= Baseline(layouts) + Below(layouts)
            && Piece(width, layouts[i], Baseline(layouts), row)
               == PadLayoutLine(width, layouts[i].lines[r], layouts[i].width, false)
  {
    assert layouts[i].baseline <= Baseline(layouts);
    assert |layouts[i].lines| - layouts[i].baseline - 1 <= Below(layouts);
  }

  method Measure(layouts: seq<Layout>) returns (baseline: nat, below: nat, total: nat)
    requires forall i :: 0 <= i < |layouts| ==> layouts[i].baseline < |layouts[i].lines|
    ensures baseline == Baseline(layouts) && below == Below(layouts) && total == TotalWidth(layouts)
  {
    baseline, below, total := 0, 0, 0;
    for i := 0 to |layouts|
      invariant baseline == Baseline(layouts[..i]) && below == Below(layouts[..i]) && total == TotalWidth(layouts[..i])
    {
      assert layouts[..i + 1][..i] == layouts[..i];
      baseline := Max(baseline, layouts[i].baseline);
      below := Max(below, |layouts[i].lines| - layouts[i].baseline - 1);
      total := total + layouts[i].width;
    }
    assert layouts[..|layouts|] == layouts;
  }

  method JoinRow(width: string -> nat, layouts: seq<Layout>, baseline: nat, row: nat) returns (line: string)
    ensures line == RowText(width, layouts, baseline, row)
  {
    line := "";
    for i := 0 to |layouts|
      invariant line == RowText(width, layouts[..i], baseline, row)
    {
      assert layouts[..i + 1][..i] == layouts[..i];
      line := line + Piece(width, layouts[i], baseline, row);
    }
    assert layouts[..|layouts|] == layouts;
  }

  function Rows(line: nat -> string, count: nat): (lines: seq<string>)
    ensures |lines| == count && forall r :: 0 <= r < count ==> lines[r] == line(r)
  {
    if count == 0 then [] else Rows(line, count - 1) + [line(count - 1)]
  }

  /** The rows of the joined layout, as a function of their number. */
  function RowLine(width: string -> nat, layouts: seq<Layout>, baseline: nat): nat -> string {
    (row: nat) => TrimEnd(RowText(width, layouts, baseline, row))
  }

  /** All pieces next to each other, with their baselines in one row. */
  function Joined(width: string -> nat, layouts: seq<Layout>): Layout {
    if layouts == [] then Layout([""], 0, 0)
    else
      Layout(Rows(RowLine(width, layouts, Baseline(layouts)), Baseline(layouts) + Below(layouts) + 1),
             TotalWidth(layouts), Baseline(layouts))
  }

  lemma RowFits(width: string -> nat, layouts: seq<Layout>, baseline: nat, row: nat)
    requires Additive(width) && AllFit(width, layouts)
    ensures width(RowLine(width, layouts, baseline)(row)) <= TotalWidth(layouts)
  {
    RowWidth(width, layouts, baseline, row);
    TrimNarrows(width, RowText(width, layouts, baseline, row));
  }

  lemma JoinedFits(width: string -> nat, layouts: seq<Layout>)
    requires Additive(width) && AllFit(width, layouts)
    ensures Fits(width, Joined(width, layouts))
  {
    var joined := Joined(width, layouts);
    forall r | 0 <= r < |joined.lines| ensures width(joined.lines[r]) <= joined.width {
      if layouts != [] {
        RowFits(width, layouts, Baseline(layouts), r);
      }
    }
  }

  method JoinRows(width: string -> nat, layouts: seq<Layout>, baseline: nat, count: nat) returns (lines: seq<string>)
    ensures lines == Rows(RowLine(width, layouts, baseline), count)
  {
    lines := [];
    for row := 0 to count
      invariant lines == Rows(RowLine(width, layouts, baseline), row)
    {
      var line := JoinRow(width, layouts, baseline, row);
      lines := lines + [TrimEnd(line)];
    }
  }

  method JoinLayouts(width: string -> nat, layouts: seq<Layout>) returns (joined: Layout)
    requires Additive(width) && AllFit(width, layouts)
    ensures joined == Joined(width, layouts) && Fits(width, joined)
  {
    JoinedFits(width, layouts);
    if layouts == [] {
      return Layout([""], 0, 0);
    }
    var baseline, below, total := Measure(layouts);
    var lines := JoinRows(width, layouts, baseline, baseline + below + 1);
    joined := Layout(lines, total, baseline);
  }

  // ----- Markers in a line -----

  /** The end of the marker that starts at k, or -1. */
  function MarkerEnd(s: string, k: nat): (end: int)
    requires k < |s|
    ensures end >= 0 ==> k + 2 < end <= |s| && s[k] == MARK_START && s[end - 1] == MARK_END
                         && forall j :: k < j < end - 1 ==> IsDigit(s[j])
  {
    var digits := DigitsFrom(s, k + 1);
    if s[k] == MARK_START && k + 1 < digits < |s| && s[digits] == MARK_END then digits + 1 else -1
  }

  function DigitsFrom(s: string, k: nat): (end: nat)
    ensures k <= end && (k <= |s| ==> end <= |s|) && forall j :: k <= j < end ==> j < |s| && IsDigit(s[j])
    decreases |s| - k
  {
    if k < |s| && IsDigit(s[k]) then DigitsFrom(s, k + 1) else k
  }

  function MarkerValue(s: string, k: nat): nat
    requires k < |s| && MarkerEnd(s, k) >= 0
  {
    ParseDecimal(s[k + 1..MarkerEnd(s, k) - 1])
  }

  lemma {:induction false} RunDigits(digits: string, limit: Bound)
    requires forall j :: 0 <= j < |digits| ==> IsDigit(digits[j])
    ensures Run(In(0, 0), digits, limit) == Some(In(ParseDecimal(digits), |digits|))
  {
    if digits != [] {
      var shorter, last := digits[..|digits| - 1], digits[|digits| - 1..];
      RunDigits(shorter, limit);
      RunConcat(In(0, 0), shorter, last, limit);
      assert shorter + last == digits;
      assert last[1..] == [];
    }
  }

  lemma {:induction false} DigitsStop(s: string, k: nat, end: nat)
    requires k <= end < |s| && !IsDigit(s[end]) && forall j :: k <= j < end ==> IsDigit(s[j])
    ensures DigitsFrom(s, k) == end
    decreases end - k
  {
    if k < end {
      DigitsStop(s, k + 1, end);
    }
  }

  /** The layout reads back from a marker the index that the parser wrote into it. */
  lemma MarkerReadsBack(k: nat)
    ensures MarkerEnd(Marker(k), 0) == |Marker(k)| && MarkerValue(Marker(k), 0) == k
  {
    var m, digits := Marker(k), Decimal(k);
    assert m[1..|m| - 1] == digits;
    forall j | 1 <= j < |m| - 1 ensures IsDigit(m[j]) {
      assert m[j] == digits[j - 1];
    }
    DigitsStop(m, 1, |m| - 1);
    RunDecimal(k, Loose(0));
    RunDigits(digits, Loose(0));
  }

  /** Every marker that the layout finds in a safe line refers to a node below the bound. */
  lemma SafeMarkers(line: string, k: nat, limit: Bound)
    requires Safe(line, limit) && k < |line| && MarkerEnd(line, k) >= 0
    ensures MarkerValue(line, k) < limit.below
  {
    var end := MarkerEnd(line, k);
    var digits := line[k + 1..end - 1];
    RunConcat(Out, line[..k], line[k..], limit);
    assert line[..k] + line[k..] == line;
    var st := Run(Out, line[..k], limit).value;
    assert line[k..][1..] == line[k + 1..];
    assert st == Out;
    RunConcat(In(0, 0), digits, line[end - 1..], limit);
    assert digits + line[end - 1..] == line[k + 1..];
    RunDigits(digits, limit);
  }
}
