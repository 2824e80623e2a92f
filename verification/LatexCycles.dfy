/**
  When laying out rendered LaTeX ends. A fraction is laid out by laying out its numerator
  and its denominator, so the layout of a text ends exactly when no fraction that the text
  leads to leads back to itself. Markers in the source can forge such a fraction.
*/
module LatexCycles {
  import opened Decimals
  import opened LatexExpressions
  import opened LatexFormat
  import opened LatexGuards
  import opened LatexLayout
  import opened LatexMeaning
  import opened LatexParsing
  import opened LatexReadings
  import opened LatexRendering
  import opened LatexText
  import opened Sequences
  import opened WhiteSpace
  import opened Wrappers

  /** Some marker in the text refers to node k. */
  ghost predicate RefersTo(text: string, k: nat) {
    exists i :: 0 <= i < |text| && MarkerEnd(text, i) >= 0 && MarkerValue(text, i) == k
  }

  /** Laying out the text lays out the parts of this fraction; markers without a node are skipped. */
  ghost predicate LaysOut(nodes: seq<LayoutNode>, text: string, k: nat) {
    k < |nodes| && nodes[k].Fraction? && RefersTo(text, k)
  }

  /** Laying out the text calls itself at most this deep: the layout ends if and only if there is such a bound. */
  ghost predicate NestsWithin(nodes: seq<LayoutNode>, text: string, depth: nat)
    decreases depth
  {
    forall k: nat :: LaysOut(nodes, text, k) ==>
      && depth > 0
      && NestsWithin(nodes, nodes[k].numerator, depth - 1)
      && NestsWithin(nodes, nodes[k].denominator, depth - 1)
  }

  ghost predicate LeadsTo(nodes: seq<LayoutNode>, a: nat, b: nat)
    requires a < |nodes| && nodes[a].Fraction?
  {
    LaysOut(nodes, nodes[a].numerator, b) || LaysOut(nodes, nodes[a].denominator, b)
  }

  /** A chain of nested calls, from the text down. */
  ghost predicate IsPath(nodes: seq<LayoutNode>, text: string, path: seq<nat>) {
    && (forall i :: 0 <= i < |path| ==> path[i] < |nodes| && nodes[path[i]].Fraction?)
    && (path != [] ==> LaysOut(nodes, text, path[0]))
    && forall i :: 0 <= i < |path| - 1 ==> LeadsTo(nodes, path[i], path[i + 1])
  }

  ghost predicate Repeats(path: seq<nat>, i: nat, j: nat) { i < j < |path| && path[i] == path[j] }

  /** Some fraction that the text leads to leads back to itself. */
  ghost predicate IsCyclic(nodes: seq<LayoutNode>, text: string) {
    exists path, i, j :: IsPath(nodes, text, path) && Repeats(path, i, j)
  }

  // ----- A bound on the depth excludes cycles -----

  lemma PathBelow(nodes: seq<LayoutNode>, text: string, path: seq<nat>) returns (below: string)
    requires IsPath(nodes, text, path) && path != []
    ensures below == nodes[path[0]].numerator || below == nodes[path[0]].denominator
    ensures IsPath(nodes, below, path[1..])
  {
    below := nodes[path[0]].numerator;
    if |path| > 1 {
      assert LeadsTo(nodes, path[0], path[0 + 1]);
      if !LaysOut(nodes, below, path[1]) {
        below := nodes[path[0]].denominator;
      }
    }
    forall i | 0 <= i < |path[1..]| - 1 ensures LeadsTo(nodes, path[1..][i], path[1..][i + 1]) {
      assert LeadsTo(nodes, path[i + 1], path[i + 1 + 1]);
    }
  }

  lemma {:induction false} PathsAreShort(nodes: seq<LayoutNode>, text: string, path: seq<nat>, depth: nat)
    requires IsPath(nodes, text, path) && NestsWithin(nodes, text, depth)
    ensures |path| <= depth
    decreases depth
  {
    if path != [] {
      assert LaysOut(nodes, text, path[0]);
      var below := PathBelow(nodes, text, path);
      PathsAreShort(nodes, below, path[1..], depth - 1);
    }
  }

  /** Going round a cycle once more. */
  lemma Around(nodes: seq<LayoutNode>, text: string, path: seq<nat>, i: nat, j: nat) returns (longer: seq<nat>)
    requires IsPath(nodes, text, path) && Repeats(path, i, j)
    ensures IsPath(nodes, text, longer) && Repeats(longer, j, j + (j - i))
  {
    longer := path[..j + 1] + path[i + 1..j + 1];
    forall k | 0 <= k < |longer| - 1 ensures LeadsTo(nodes, longer[k], longer[k + 1]) {
      if k < j {
        assert LeadsTo(nodes, path[k], path[k + 1]);
      } else {
        var m := k - j + i;
        assert LeadsTo(nodes, path[m], path[m + 1]);
      }
    }
  }

  lemma {:induction false} LongPath(nodes: seq<LayoutNode>, text: string, path: seq<nat>, i: nat, j: nat, n: nat)
    returns (longer: seq<nat>)
    requires IsPath(nodes, text, path) && Repeats(path, i, j)
    ensures IsPath(nodes, text, longer) && |longer| > n
    decreases n - j
  {
    if j >= n {
      longer := path;
    } else {
      longer := Around(nodes, text, path, i, j);
      longer := LongPath(nodes, text, longer, j, j + (j - i), n);
    }
  }

  // ----- Without cycles the number of nodes is a bound -----

  lemma {:induction false} DeepPath(nodes: seq<LayoutNode>, text: string, depth: nat) returns (path: seq<nat>)
    requires !NestsWithin(nodes, text, depth)
    ensures IsPath(nodes, text, path) && |path| == depth + 1
    decreases depth
  {
    var k: nat :| LaysOut(nodes, text, k)
                  && !(depth > 0 && NestsWithin(nodes, nodes[k].numerator, depth - 1)
                       && NestsWithin(nodes, nodes[k].denominator, depth - 1));
    if depth == 0 {
      path := [k];
    } else {
      var below := if NestsWithin(nodes, nodes[k].numerator, depth - 1) then nodes[k].denominator else nodes[k].numerator;
      var rest := DeepPath(nodes, below, depth - 1);
      PathAbove(nodes, text, k, below, rest);
      path := [k] + rest;
    }
  }

  lemma PathAbove(nodes: seq<LayoutNode>, text: string, k: nat, below: string, rest: seq<nat>)
    requires LaysOut(nodes, text, k) && (below == nodes[k].numerator || below == nodes[k].denominator)
    requires IsPath(nodes, below, rest)
    ensures IsPath(nodes, text, [k] + rest)
  {
    var path := [k] + rest;
    forall i | 0 <= i < |path| - 1 ensures LeadsTo(nodes, path[i], path[i + 1]) {
      if i > 0 {
        assert LeadsTo(nodes, rest[i - 1], rest[i - 1 + 1]);
      }
    }
  }

  /** More numbers than there are numbers below n: two of them are equal. */
  lemma {:induction false} Pigeonhole(path: seq<nat>, n: nat) returns (i: nat, j: nat)
    requires |path| > n && forall k :: 0 <= k < |path| ==> path[k] < n
    ensures Repeats(path, i, j)
    decreases n
  {
    var last := |path| - 1;
    if a :| 0 <= a < last && path[a] == path[last] {
      i, j := a, last;
    } else {
      // The last number is gone from the rest; n - 1 takes its place.
      var rest := seq(last, k requires 0 <= k < last => if path[k] == n - 1 then path[last] else path[k]);
      i, j := Pigeonhole(rest, n - 1);
    }
  }

  /** The layout of a text ends exactly when no fraction it leads to leads back to itself. */
  lemma LayoutEndsExactly(nodes: seq<LayoutNode>, text: string)
    ensures (exists depth :: NestsWithin(nodes, text, depth)) <==> !IsCyclic(nodes, text)
  {
    if IsCyclic(nodes, text) {
      var path, i, j :| IsPath(nodes, text, path) && Repeats(path, i, j);
      forall depth | NestsWithin(nodes, text, depth) ensures false {
        var longer := LongPath(nodes, text, path, i, j, depth);
        PathsAreShort(nodes, text, longer, depth);
      }
    } else if !NestsWithin(nodes, text, |nodes|) {
      var path := DeepPath(nodes, text, |nodes|);
      var i, j := Pigeonhole(path, |nodes|);
      assert IsCyclic(nodes, text);
    } else {
      assert NestsWithin(nodes, text, |nodes|);
    }
  }

  /** Text and nodes from a source without markers are never cyclic: calls go to lower nodes only. */
  lemma {:induction false} SafeNestsWithin(nodes: seq<LayoutNode>, text: string, n: nat)
    requires WellFounded(nodes) && n <= |nodes| && Safe(text, Loose(n))
    ensures NestsWithin(nodes, text, n)
    decreases n
  {
    forall k: nat | LaysOut(nodes, text, k)
      ensures n > 0 && NestsWithin(nodes, nodes[k].numerator, n - 1) && NestsWithin(nodes, nodes[k].denominator, n - 1)
    {
      var i :| 0 <= i < |text| && MarkerEnd(text, i) >= 0 && MarkerValue(text, i) == k;
      SafeMarkers(text, i, Loose(n));
      SafeMonotone(nodes[k].numerator, Loose(k), Loose(n - 1));
      SafeMonotone(nodes[k].denominator, Loose(k), Loose(n - 1));
      SafeNestsWithin(nodes, nodes[k].numerator, n - 1);
      SafeNestsWithin(nodes, nodes[k].denominator, n - 1);
    }
  }

  // ----- Forged markers -----

  /** A marker is plain text that refers to its node. */
  lemma MarkerRefers(k: nat)
    ensures RefersTo(Marker(k), k) && Plain(Marker(k)) && IsPlainText(Marker(k)) && Marker(k) != []
  {
    var m, digits := Marker(k), Decimal(k);
    MarkerReadsBack(k);
    forall j | 0 <= j < |m| ensures !IsSpace(m[j]) && m[j] != NAMED_START && m[j] != NAMED_END && IsOrdinary(m[j]) && m[j] != '.' {
      if 0 < j < |m| - 1 {
        assert m[j] == digits[j - 1] && IsDigit(digits[j - 1]);
      }
    }
  }

  /** A single fraction whose numerator refers to that fraction, and a text that refers to it. */
  lemma OwnReferenceIsCyclic(nodes: seq<LayoutNode>, text: string)
    requires |nodes| == 1 && nodes[0].Fraction? && RefersTo(nodes[0].numerator, 0) && RefersTo(text, 0)
    ensures IsCyclic(nodes, text) && !exists depth :: NestsWithin(nodes, text, depth)
  {
    var path: seq<nat> := [0, 0];
    assert LaysOut(nodes, text, 0) && LeadsTo(nodes, path[0], path[0 + 1]);
    assert IsPath(nodes, text, path) && Repeats(path, 0, 1);
    LayoutEndsExactly(nodes, text);
  }

  /** The source of a fraction of two texts. */
  function FractionSource(w: string, v: string): string { "\\frac" + (("{" + w + "}") + ("{" + v + "}")) }

  /** In display mode it becomes one node, and the text the marker of that node. */
  lemma FractionIsNode(t: Tables, w: string, v: string)
    requires IsFree(t, "frac") && IsPlainText(w) && IsPlainText(v)
    ensures var source := FractionSource(w, v);
            Whole(Env(t, source, true), [])
            == Meaning(NormalizeOutput(t, Marker(0)),
                       State(|source|, [Fraction(NormalizeOutput(t, w), NormalizeOutput(t, v))], true))
  {
    var f := Over(Text(w), Text(v));
    assert IsWellFormed(t, Text(w)) && IsWellFormed(t, Text(v)) && Source(Text(w)) == w && Source(Text(v)) == v;
    FormulaRenders(t, true, [], f);
    EmptyFirst(w);
    EmptyFirst(v);
    EmptyFirst(Marker(0));
    assert Write(t, true, false, "", [], Text(w)) == Written(w, []) && Write(t, true, false, "", [], Text(v)) == Written(v, []);
  }

  /** A source that is one fraction of two texts becomes one node, and the text its marker. */
  method ParseFractionAlone(w: string, v: string, tables: Tables) returns (rendered: Option<string>, nodes: seq<LayoutNode>)
    requires tables.Valid() && IsFree(tables, "frac") && IsPlainText(w) && IsPlainText(v)
    ensures rendered == Some(NormalizeOutput(tables, Marker(0)))
    ensures nodes == [Fraction(NormalizeOutput(tables, w), NormalizeOutput(tables, v))]
  {
    FractionIsNode(tables, w, v);
    var list := new LayoutNodes();
    var parser := new LatexParser(FractionSource(w, v), list, true, tables, Any);
    rendered := parser.Render(Whole(Env(tables, FractionSource(w, v), true), []));
    nodes := list.nodes;
  }

  /**
    Parsing a fraction whose numerator is the text of marker 0, in display mode, makes a
    node whose numerator refers to that node itself, and a text that leads to it: laying it
    out does not end.
  */
  method ForgeCycle(tables: Tables) returns (rendered: Option<string>, nodes: seq<LayoutNode>)
    requires tables.Valid() && IsFree(tables, "frac")
    ensures |nodes| == 1 && nodes[0].Fraction? && RefersTo(nodes[0].numerator, 0)
    ensures rendered.Some? && IsCyclic(nodes, rendered.value)
    ensures !exists depth :: NestsWithin(nodes, rendered.value, depth)
  {
    LetterIsPlain();
    MarkerRefers(0);
    rendered, nodes := ParseFractionAlone(Marker(0), "x", tables);
    OwnMarkerIsCyclic(tables, nodes, NormalizeOutput(tables, "x"));
  }

  lemma LetterIsPlain()
    ensures IsPlainText("x")
  {
  }

  lemma OwnMarkerIsCyclic(tables: Tables, nodes: seq<LayoutNode>, denominator: string)
    requires nodes == [Fraction(NormalizeOutput(tables, Marker(0)), denominator)]
    ensures RefersTo(nodes[0].numerator, 0) && IsCyclic(nodes, NormalizeOutput(tables, Marker(0)))
    ensures !exists depth :: NestsWithin(nodes, NormalizeOutput(tables, Marker(0)), depth)
  {
    MarkerRefers(0);
    NormalizeLeavesPlain(tables, Marker(0));
    OwnReferenceIsCyclic(nodes, Marker(0));
  }
}
