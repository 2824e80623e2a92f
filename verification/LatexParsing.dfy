/**
  The recursive parser of the LaTeX renderer, which computes the meaning of its source.
  Parsers for nested pieces of source share one growing list of layout nodes. On every source
  every method ends and moves forward only; if no layout marker starts in the source, each
  node refers to lower-numbered nodes only; if no character of a marker is in it, no marker
  stands in a matrix; and if it is guarded besides, none stands at an operator and none is
  struck through.
*/
module LatexParsing {
  import opened Decimals
  import opened LatexFormat
  import opened LatexGuards
  import opened LatexMeaning
  import opened LatexText
  import opened Sequences
  import opened WhiteSpace
  import opened Wrappers

  /** A matrix has several lines, one of them its baseline. */
  ghost predicate Shaped(nodes: seq<LayoutNode>) {
    forall k :: 0 <= k < |nodes| && nodes[k].Matrix? ==>
      |nodes[k].lines| > 1 && nodes[k].baseline < |nodes[k].lines|
  }

  /** The markers in the texts of a node are within the bound. */
  ghost predicate NodeSafe(node: LayoutNode, limit: Bound) {
    match node
    case Fraction(numerator, denominator) => Safe(numerator, limit) && Safe(denominator, limit)
    case Operator(operator, lower, upper) =>
      && Safe(operator, limit)
      && (lower.Some? ==> Safe(lower.value, limit)) && (upper.Some? ==> Safe(upper.value, limit))
    case Matrix(lines, _) => AllSafe(lines, limit)
  }

  /** Every node refers to lower-numbered nodes only. */
  ghost predicate WellFounded(nodes: seq<LayoutNode>) {
    && Shaped(nodes)
    && forall k :: 0 <= k < |nodes| ==> NodeSafe(nodes[k], Loose(k))
  }

  /** The texts that the layout places as they are hold no character of a marker. */
  ghost predicate IsFlat(node: LayoutNode) {
    node.Fraction? || NodeSafe(node, Strict(0))
  }

  /** What holds of node k when it was made from source of this kind. */
  ghost predicate NodeKept(mode: Mode, node: LayoutNode, k: nat) {
    && (mode != Any ==> NodeSafe(node, Loose(k)))
    && (IsPure(mode) && node.Matrix? ==> IsFlat(node))
    && (mode == Guarded ==> NodeSafe(node, Strict(k)) && IsFlat(node))
  }

  ghost predicate Kept(mode: Mode, nodes: seq<LayoutNode>) {
    && Shaped(nodes)
    && forall k :: 0 <= k < |nodes| ==> NodeKept(mode, nodes[k], k)
  }

  /** Nodes are only added, except that the lines of a matrix may be touched. */
  ghost predicate Extends(before: seq<LayoutNode>, after: seq<LayoutNode>) {
    && |before| <= |after|
    && forall k :: 0 <= k < |before| ==> before[k] == after[k] || (before[k].Matrix? && after[k].Matrix?)
  }

  lemma GrowsWellFounded(nodes: seq<LayoutNode>, node: LayoutNode)
    requires WellFounded(nodes) && (node.Matrix? ==> |node.lines| > 1 && node.baseline < |node.lines|)
    ensures WellFounded(nodes + [node]) <==> NodeSafe(node, Loose(|nodes|))
  {
    var all := nodes + [node];
    assert all[|nodes|] == node;
    assert forall k :: 0 <= k < |nodes| ==> all[k] == nodes[k];
  }

  lemma GrowsKept(mode: Mode, nodes: seq<LayoutNode>, node: LayoutNode)
    requires Kept(mode, nodes) && NodeKept(mode, node, |nodes|)
    requires node.Matrix? ==> |node.lines| > 1 && node.baseline < |node.lines|
    ensures Kept(mode, nodes + [node])
  {
    var all := nodes + [node];
    assert all[|nodes|] == node;
    assert forall k :: 0 <= k < |nodes| ==> all[k] == nodes[k];
  }

  /** The parser of a cell may rely on what the parser around it keeps. */
  lemma KeptForCells(mode: Mode, nodes: seq<LayoutNode>)
    requires Kept(mode, nodes)
    ensures Kept(CellMode(mode), nodes)
  {
    forall k | 0 <= k < |nodes| ensures NodeKept(CellMode(mode), nodes[k], k) {
      assert NodeKept(mode, nodes[k], k);
    }
  }

  lemma KeptIsWellFounded(mode: Mode, nodes: seq<LayoutNode>)
    requires mode != Any && Kept(mode, nodes)
    ensures WellFounded(nodes)
  {
    forall k | 0 <= k < |nodes| ensures NodeSafe(nodes[k], Loose(k)) {
      assert NodeKept(mode, nodes[k], k);
    }
  }

  class LayoutNodes {
    var nodes: seq<LayoutNode>

    constructor ()
      ensures nodes == []
    {
      nodes := [];
    }

    /** Appends a node and returns the marker that stands for it. */
    method Push(node: LayoutNode) returns (marker: string)
      requires node.Matrix? ==> |node.lines| > 1 && node.baseline < |node.lines|
      modifies this
      ensures old(Shaped(nodes)) ==> Shaped(nodes)
      ensures old(WellFounded(nodes)) ==> (WellFounded(nodes) <==> NodeSafe(node, Loose(|old(nodes)|)))
      ensures nodes == old(nodes) + [node] && Extends(old(nodes), nodes)
      ensures marker == Marker(|old(nodes)|)
    {
      if WellFounded(nodes) {
        GrowsWellFounded(nodes, node);
      }
      nodes := nodes + [node];
      marker := Marker(|nodes| - 1);
    }
  }

  /** The name of a command: all letters from start on, or a single other character. */
  predicate IsName(s: string, start: nat, end: nat) {
    && start < end <= |s|
    && if IsAsciiLetter(s[start]) then
         (forall j :: start <= j < end ==> IsAsciiLetter(s[j])) && (end < |s| ==> !IsAsciiLetter(s[end]))
       else end == start + 1
  }

  /** A line break, which may be of two characters. */
  predicate IsLineBreak(s: string, start: nat, end: nat) {
    && start < end <= |s| && (s[start] == '\n' || s[start] == '\r')
    && (end == start + 1 || (end == start + 2 && s[start + 1] == '\n'))
  }

  lemma FixedTextIsFree(t: Tables, command: string, limit: Bound)
    requires FixedText(t, command).Some?
    ensures Free(FixedText(t, command).value, limit)
  {
  }

  /** Whether the parser is in an argument that must come out plain, in how many groups, or at its end. */
  datatype Calm = Loud | Quiet(depth: nat) | Past

  function Opened(calm: Calm): Calm { if calm.Quiet? then Quiet(calm.depth + 1) else calm }

  function Closed(calm: Calm): Calm {
    match calm
    case Quiet(depth) => if depth == 0 then Past else Quiet(depth - 1)
    case _ => calm
  }

  /** Always true: mentioning it shows what a valid parser knows. */
  predicate Unfold(details: bool) { true }

  /** The pieces of source whose meanings are told. */
  datatype Construct =
    | OfSequence | OfElement | OfCharacter | OfCommand | OfInterpreted | OfNegation | OfSymbol | OfNamed | OfRest
    | OfArgument | OfTwoArguments | OfAFraction | OfBinomial | OfRoot | OfStacked | OfOperatorName | OfLimits | OfWithLimits
    | OfOptionalArgument | OfInEnvironment | OfInBody | OfBodyUpTo | OfBody | OfInGrid | OfAlignedLines | OfTable | OfCells | OfNested | OfWhole

  /** Always true: mentioning it shows what the told meaning of such a piece is. */
  predicate Spell(details: bool, piece: Construct) { true }

  class LatexParser {
    const source: string
    const list: LayoutNodes
    const display: bool
    const tables: Tables
    ghost const mode: Mode   // what is known of the source
    var position: nat
    var supported: bool
    var stackFractions: bool
    ghost var calm: Calm

    ghost predicate Valid()
      reads this, list
    {
      && position <= |source| + 1 && (!calm.Loud? ==> mode == Guarded)
      && forall details :: Unfold(details) ==> Known()
    }

    /** What is known of the tables, the source and the nodes. */
    ghost predicate Known()
      reads this, list
    {
      && tables.Valid() && Suits(mode, tables, source, display) && Kept(mode, list.nodes)
      && (calm.Quiet? ==> IsTame(tables, source, position, calm.depth))
    }

    /** What markers may stand in a text: none in a cell and in a plain argument. */
    ghost function Limit(): Bound
      reads `calm, list
    {
      if mode == Bare || !calm.Loud? then Strict(0) else Bound(|list.nodes|, mode == Guarded)
    }

    /** Safe, as far as the source was free of markers. */
    ghost predicate Ok(s: string)
      reads `calm, list
    {
      mode != Any ==> Safe(s, Limit())
    }

    ghost predicate AllOk(parts: seq<string>)
      reads `calm, list
    {
      mode != Any ==> AllSafe(parts, Limit())
    }

    /** No marker is in a cell of clean source. */
    ghost predicate CellsOk(cells: seq<string>)
      reads `calm, list
    {
      mode != Any ==> AllSafe(cells, CellLimit())
    }

    ghost function CellLimit(): Bound
      reads `calm, list
    {
      if IsPure(mode) then Strict(0) else Limit()
    }

    /** As free of markers as the source. */
    ghost predicate Unforged(s: string) { mode != Any ==> Free(s, Bound(0, IsPure(mode))) }

    /** Nodes were only added, and none in a cell. */
    ghost predicate Grown(before: seq<LayoutNode>)
      reads list
    {
      Extends(before, list.nodes) && (mode == Bare ==> list.nodes == before)
    }

    constructor (source: string, list: LayoutNodes, display: bool, tables: Tables, ghost mode: Mode)
      requires tables.Valid() && Suits(mode, tables, source, display) && Kept(mode, list.nodes)
      ensures Valid() && this.source == source && this.list == list && this.display == display && this.tables == tables
      ensures this.mode == mode && calm.Loud? && position == 0 && supported && stackFractions
    {
      this.source, this.list, this.display, this.tables, this.mode := source, list, display, tables, mode;
      position, supported, stackFractions, calm := 0, true, true, Loud;
    }

    // ----- The meaning of what is parsed -----

    ghost function World(): Env { Env(tables, source, display) }

    ghost function Here(): State
      reads this, list
    {
      State(position, list.nodes, supported)
    }

    /** What was told is what came out. */
    ghost predicate Done(told: Meaning, result: string)
      reads this, list
    {
      result == told.text && Here() == told.after
    }

    // What a method is told of its outcome: the meaning of what it parses. It is hidden until it is spelled out.

    ghost predicate TellsSequence(told: Meaning, st: State, stack: bool, end: Option<char>, before: string) {
      forall details :: Spell(details, OfSequence) ==> told == Sequence(World(), st, stack, end, before)
    }

    ghost predicate TellsElement(told: Meaning, st: State, stack: bool, before: string) {
      st.at < |source| && forall details :: Spell(details, OfElement) ==> told == Element(World(), st, stack, before)
    }

    ghost predicate TellsCharacter(told: Meaning, st: State, before: string) {
      st.at < |source| && forall details :: Spell(details, OfCharacter) ==> told == Character(World(), st, before)
    }

    ghost predicate TellsCommand(told: Meaning, st: State, stack: bool) {
      st.at < |source| && forall details :: Spell(details, OfCommand) ==> told == Command(World(), st, stack)
    }

    ghost predicate TellsInterpreted(told: Meaning, st: State, stack: bool, command: string) {
      forall details :: Spell(details, OfInterpreted) ==> told == Interpreted(World(), st, stack, command)
    }

    ghost predicate TellsNegation(told: Meaning, st: State) {
      forall details :: Spell(details, OfNegation) ==> told == Negation(World(), st)
    }

    ghost predicate TellsSymbol(told: Meaning, st: State, command: string) {
      command in tables.symbols && forall details :: Spell(details, OfSymbol) ==> told == Symbol(World(), st, command)
    }

    ghost predicate TellsNamed(told: Meaning, st: State, stack: bool, command: string) {
      forall details :: Spell(details, OfNamed) ==> told == Named(World(), st, stack, command)
    }

    ghost predicate TellsRest(told: Meaning, st: State, stack: bool, command: string) {
      forall details :: Spell(details, OfRest) ==> told == Rest(World(), st, stack, command)
    }

    ghost predicate TellsArgument(told: Meaning, st: State, stack: bool) {
      forall details :: Spell(details, OfArgument) ==> told == Argument(World(), st, stack)
    }

    ghost predicate TellsTwoArguments(told: Two, st: State, stack: bool) {
      forall details :: Spell(details, OfTwoArguments) ==> told == TwoArguments(World(), st, stack)
    }

    ghost predicate TellsAFraction(told: Meaning, st: State, stack: bool, stackable: bool) {
      forall details :: Spell(details, OfAFraction) ==> told == AFraction(World(), st, stack, stackable)
    }

    ghost predicate TellsBinomial(told: Meaning, st: State, stack: bool) {
      forall details :: Spell(details, OfBinomial) ==> told == Binomial(World(), st, stack)
    }

    ghost predicate TellsRoot(told: Meaning, st: State, stack: bool) {
      forall details :: Spell(details, OfRoot) ==> told == Root(World(), st, stack)
    }

    ghost predicate TellsStacked(told: Meaning, st: State, stack: bool, kind: Kind) {
      forall details :: Spell(details, OfStacked) ==> told == Stacked(World(), st, stack, kind)
    }

    ghost predicate TellsOperatorName(told: Meaning, st: State, stack: bool) {
      forall details :: Spell(details, OfOperatorName) ==> told == OperatorName(World(), st, stack)
    }

    ghost predicate TellsLimits(told: Limited, st: State, lower: Option<string>, upper: Option<string>) {
      forall details :: Spell(details, OfLimits) ==> told == Limits(World(), st, lower, upper)
    }

    ghost predicate TellsWithLimits(told: Meaning, st: State, operator: string, bracket: bool, displayLimits: bool, spaced: bool) {
      forall details :: Spell(details, OfWithLimits) ==> told == WithLimits(World(), st, operator, bracket, displayLimits, spaced)
    }

    ghost predicate TellsOptionalArgument(told: Optional, st: State) {
      forall details :: Spell(details, OfOptionalArgument) ==> told == OptionalArgument(World(), st)
    }

    ghost predicate TellsInEnvironment(told: Meaning, st: State) {
      forall details :: Spell(details, OfInEnvironment) ==> told == InEnvironment(World(), st)
    }

    ghost predicate TellsInBody(told: Meaning, st: State, environment: string) {
      0 < st.at <= |source| && forall details :: Spell(details, OfInBody) ==> told == InBody(World(), st, environment)
    }

    ghost predicate TellsBodyUpTo(told: Meaning, st: State, environment: string, end: int) {
      && 0 < st.at <= |source| && (end >= 0 ==> st.at <= end < |source|)
      && forall details :: Spell(details, OfBodyUpTo) ==> told == BodyUpTo(World(), st, environment, end)
    }

    ghost predicate TellsBody(told: Meaning, st: State, environment: string, body: string) {
      |body| < |source| && forall details :: Spell(details, OfBody) ==> told == Body(World(), st, environment, body)
    }

    ghost predicate TellsInGrid(told: Meaning, st: State, environment: string, rows: seq<string>) {
      AllShorter(rows, |source|) && forall details :: Spell(details, OfInGrid) ==> told == InGrid(World(), st, environment, rows)
    }

    ghost predicate TellsAlignedLines(told: Lines, st: State, rows: seq<string>, n: nat, pairs: bool) {
      && n <= |rows| && AllShorter(rows, |source|)
      && forall details :: Spell(details, OfAlignedLines) ==> told == AlignedLines(World(), st, rows, n, pairs)
    }

    ghost predicate TellsTable(told: Tabled, st: State, rows: seq<string>, n: nat) {
      n <= |rows| && AllShorter(rows, |source|) && forall details :: Spell(details, OfTable) ==> told == Table(World(), st, rows, n)
    }

    ghost predicate TellsCells(told: Lines, st: State, cells: seq<string>, n: nat) {
      && n <= |cells| && AllShorter(cells, |source|)
      && forall details :: Spell(details, OfCells) ==> told == Cells(World(), st, cells, n)
    }

    ghost predicate TellsNested(told: Meaning, st: State, text: string, stack: bool) {
      |text| < |source| && forall details :: Spell(details, OfNested) ==> told == Nested(World(), st, text, stack)
    }

    ghost predicate TellsWhole(told: Meaning, e: Env, nodes: seq<LayoutNode>) {
      forall details :: Spell(details, OfWhole) ==> told == Whole(e, nodes)
    }

    // ----- Sequences -----

    predicate At(k: nat, c: char) { k < |source| && source[k] == c }

    predicate BlankAt(k: nat) { k < |source| && IsBlank(source[k]) }

    predicate SpaceAt(k: nat) { k < |source| && IsSpace(source[k]) }

    lemma WholeOf(told: Meaning) returns (inner: Meaning)
      requires TellsWhole(told, World(), list.nodes) && position == 0 && supported && stackFractions
      ensures TellsSequence(inner, Here(), stackFractions, None, "")
      ensures told == Meaning(NormalizeOutput(tables, inner.text),
                              inner.after.(ok := inner.after.ok && inner.after.at == |source|))
    {
      assert Spell(true, OfWhole);
      inner := Sequence(World(), State(0, list.nodes, true), true, None, "");
    }

    /** A text when all of the source is supported, and then what the source means. */
    method Render(ghost told: Meaning) returns (rendered: Option<string>)
      requires Valid() && position == 0 && calm.Loud? && supported && stackFractions
      requires TellsWhole(told, World(), list.nodes)
      modifies this, list
      ensures Valid() && Grown(old(list.nodes)) && calm == old(calm)
      ensures rendered.Some? ==> Ok(rendered.value) && !EndsInSpace(rendered.value)
      ensures rendered == (if told.after.ok then Some(told.text) else None) && list.nodes == told.after.nodes
      decreases |source|, |source| + 1 - position, 10
    {
      ghost var inner := WholeOf(told);
      var text := ParseSequence(None, inner);
      if !supported || position != |source| {
        return None;
      }
      if mode != Any {
        NormalizeSafe(tables, text, Limit());
      }
      NormalizedIsTrimmed(tables, text);
      return Some(NormalizeOutput(tables, text));
    }

    lemma SequenceStep(told: Meaning, end: Option<char>, before: string) returns (first: Meaning)
      requires TellsSequence(told, Here(), stackFractions, end, before)
      ensures position >= |source| ==> told == if end.Some? then Unsupported(Here(), before) else Meaning(before, Here())
      ensures position < |source| && end == Some(source[position]) ==> told == Meaning(before, Here().(at := position + 1))
      ensures position < |source| && end != Some(source[position]) ==>
                if source[position] == '}' then told == Unsupported(Here(), before)
                else TellsElement(first, Here(), stackFractions, before) && TellsSequence(told, first.after, stackFractions, end, first.text)
    {
      assert Spell(true, OfSequence);
      first := if position < |source| then Element(World(), Here(), stackFractions, before) else told;
    }

    method ParseSequence(endCharacter: Option<char>, ghost told: Meaning) returns (result: string)
      requires Valid() && !calm.Past? && (calm.Quiet? ==> endCharacter == Some('}'))
      requires TellsSequence(told, Here(), stackFractions, endCharacter, "")
      modifies this, list
      ensures Valid() && position >= old(position) && Grown(old(list.nodes)) && calm == Closed(old(calm))
      ensures Ok(result) && stackFractions == old(stackFractions)
      ensures Done(told, result)
      decreases |source|, |source| + 1 - position, 9
    {
      result := "";
      EmptyIsOk();
      while position < |source|
        invariant Valid() && position >= old(position) && Grown(old(list.nodes)) && calm == old(calm)
        invariant Ok(result) && stackFractions == old(stackFractions)
        invariant TellsSequence(told, Here(), stackFractions, endCharacter, result)
        decreases |source| - position
      {
        ghost var first := SequenceStep(told, endCharacter, result);
        var character := source[position];
        if endCharacter == Some(character) {
          CloseSequence();
          return;
        }
        if character == '}' {
          supported := false;
          return;
        }
        result := ParseElement(result, character, first);
      }
      ghost var first := SequenceStep(told, endCharacter, result);
      calm := Closed(calm);
      if endCharacter.Some? {
        supported := false;
      }
    }

    /** The character that ends a sequence is passed over. */
    method CloseSequence()
      requires Valid() && !calm.Past? && position < |source| && (calm.Quiet? ==> At(position, '}'))
      modifies `position, `calm
      ensures Valid() && position == old(position) + 1 && calm == Closed(old(calm))
    {
      position, calm := position + 1, Closed(calm);
    }

    /** One turn of the loop of ParseSequence. */
    method ParseElement(before: string, character: char, ghost told: Meaning) returns (result: string)
      requires Valid() && !calm.Past? && At(position, character) && Ok(before) && (calm.Quiet? ==> character != '}')
      requires TellsElement(told, Here(), stackFractions, before)
      modifies this, list
      ensures Valid() && position > old(position) && Grown(old(list.nodes)) && calm == old(calm)
      ensures Ok(result) && stackFractions == old(stackFractions)
      ensures Done(told, result)
      decreases |source|, |source| + 1 - position, 8
    {
      if character == '{' {
        result := ParseGroup(before, told);
      } else if character == '\\' {
        result := ParseCommandAfter(before, told);
      } else if character == '^' || character == '_' {
        result := ParseScript(before, if character == '_' then Sub else Sup, told);
      } else {
        assert TellsCharacter(told, Here(), before) by { assert Spell(true, OfElement); }
        result := ParsePlain(before, character, told);
      }
    }

    lemma GroupOf(told: Meaning, before: string) returns (inner: Meaning)
      requires TellsElement(told, Here(), stackFractions, before) && At(position, '{')
      ensures told == inner.(text := before + inner.text)
      ensures TellsSequence(inner, Here().(at := position + 1), stackFractions, Some('}'), "")
    {
      assert Spell(true, OfElement);
      inner := Sequence(World(), Here().(at := position + 1), stackFractions, Some('}'), "");
    }

    method ParseGroup(before: string, ghost told: Meaning) returns (result: string)
      requires Valid() && !calm.Past? && At(position, '{') && Ok(before)
      requires TellsElement(told, Here(), stackFractions, before)
      modifies this, list
      ensures Valid() && position > old(position) && Grown(old(list.nodes)) && calm == old(calm)
      ensures Ok(result) && stackFractions == old(stackFractions)
      ensures Done(told, result)
      decreases |source|, |source| + 1 - position, 1
    {
      ghost var inner := GroupOf(told, before);
      position, calm := position + 1, Opened(calm);
      var group := ParseSequence(Some('}'), inner);
      if mode != Any {
        SafeMonotone(before, old(Limit()), Limit());
        SafeConcat(before, group, Limit());
      }
      result := before + group;
    }

    lemma ScriptOf(told: Meaning, before: string, kind: Kind) returns (inner: Meaning)
      requires TellsElement(told, Here(), stackFractions, before) && At(position, if kind == Sub then '_' else '^')
      ensures told == inner.(text := AttachScript(TrimEnd(before), FormatScript(tables, inner.text, kind)))
      ensures TellsArgument(inner, Here().(at := position + 1), stackFractions && false)
    {
      assert Spell(true, OfElement);
      inner := Argument(World(), Here().(at := position + 1), false);
    }

    /** Where only plain text may come out, a script starts its argument at once. */
    lemma TameScript()
      requires Valid() && position < |source| && (At(position, '_') || At(position, '^'))
      ensures calm.Quiet? && position + 1 < |source| ==> StartsArgument(source[position + 1])
      ensures calm.Quiet? ==> IsTame(tables, source, position + 1, calm.depth)
    {
      assert Unfold(true);
    }

    method SkipMark()
      requires Valid() && !calm.Past? && position < |source| && (At(position, '_') || At(position, '^'))
      modifies `position
      ensures Valid() && position == old(position) + 1 && ArgumentReady(false)
    {
      TameScript();
      position := position + 1;
    }

    method ParseScript(before: string, kind: Kind, ghost told: Meaning) returns (result: string)
      requires Valid() && !calm.Past? && position < |source| && Ok(before)
      requires At(position, if kind == Sub then '_' else '^')
      requires TellsElement(told, Here(), stackFractions, before)
      modifies this, list
      ensures Valid() && position > old(position) && Grown(old(list.nodes)) && calm == old(calm)
      ensures Ok(result) && stackFractions == old(stackFractions)
      ensures Done(told, result)
      decreases |source|, |source| + 1 - position, 1
    {
      ghost var inner := ScriptOf(told, before, kind);
      SkipMark();
      assert Here() == old(Here()).(at := position);
      var argument := ParseRequiredArgument(false, false, inner);
      ScriptIsOk(before, argument, kind, old(Limit()));
      result := AttachScript(TrimEnd(before), FormatScript(tables, argument, kind));
    }

    lemma ScriptIsOk(before: string, argument: string, kind: Kind, limit: Bound)
      requires Valid() && Ok(argument) && (mode != Any ==> Safe(before, limit) && Within(limit, Limit()))
      ensures Ok(AttachScript(TrimEnd(before), FormatScript(tables, argument, kind)))
    {
      KnowsTables();
      if mode != Any {
        SafeMonotone(before, limit, Limit());
        ScriptSafe(tables, argument, kind, Limit());
        TrimSafe(before, Limit());
        AttachSafe(TrimEnd(before), FormatScript(tables, argument, kind), Limit());
      }
    }

    lemma CommandOf(told: Meaning, before: string) returns (inner: Meaning)
      requires TellsElement(told, Here(), stackFractions, before) && At(position, '\\')
      ensures TellsCommand(inner, Here(), stackFractions)
      ensures told == inner.(text := if inner.text == NEGATIVE_SPACE then WithoutOperatorEnd(TrimEnd(before)) else before + inner.text)
    {
      assert Spell(true, OfElement);
      inner := Command(World(), Here(), stackFractions);
    }

    /** A command, and what it does to the text before it. */
    method ParseCommandAfter(before: string, ghost told: Meaning) returns (result: string)
      requires Valid() && !calm.Past? && At(position, '\\') && Ok(before)
      requires TellsElement(told, Here(), stackFractions, before)
      modifies this, list
      ensures Valid() && position > old(position) && Grown(old(list.nodes)) && calm == old(calm)
      ensures Ok(result) && stackFractions == old(stackFractions)
      ensures Done(told, result)
      decreases |source|, |source| + 1 - position, 1
    {
      assert !calm.Loud? ==> ConstantAt(tables, source, position) by { assert Unfold(true); }
      ghost var inner := CommandOf(told, before);
      var command := ParseCommand(inner);
      if mode != Any {
        SafeMonotone(before, old(Limit()), Limit());
      }
      if command == NEGATIVE_SPACE {
        result := WithoutOperatorEnd(TrimEnd(before));
        if mode != Any {
          TrimSafe(before, Limit());
          OperatorEndSafe(TrimEnd(before), Limit());
        }
      } else {
        if mode != Any {
          SafeConcat(before, command, Limit());
        }
        result := before + command;
      }
    }

    lemma CharacterOf(told: Meaning, before: string)
      requires TellsCharacter(told, Here(), before)
      ensures told == Character(World(), Here(), before)
    {
      assert Spell(true, OfCharacter);
    }

    method ParsePlain(before: string, character: char, ghost told: Meaning) returns (result: string)
      requires Valid() && At(position, character) && Ok(before)
      requires calm.Quiet? ==> character != '{' && character != '}' && character != '\\'
      requires TellsCharacter(told, Here(), before)
      modifies this, list
      ensures Valid() && position > old(position) && Grown(old(list.nodes)) && calm == old(calm)
      ensures Ok(result) && stackFractions == old(stackFractions)
      ensures Done(told, result)
    {
      CharacterOf(told, before);
      if IsSpace(character) {
        assert AfterSpaces(source, position) == AfterSpaces(source, position + 1);
        ParseWhitespace();
        result := before + " ";
        if mode != Any {
          SafeBetween("", before, " ", Limit());
          assert "" + before + " " == before + " ";
        }
        return;
      }
      SliceUnforged(position, position + 1);
      ghost var here := Here();
      position := position + 1;
      if character == '=' || character == '<' || character == '>' {
        result := TrimEnd(before) + (" " + [character] + " ");
        if mode != Any {
          TrimSafe(before, Limit());
          SafeBetween("", TrimEnd(before), " " + [character] + " ", Limit());
          assert "" + TrimEnd(before) == TrimEnd(before);
        }
        return;
      }
      if character == '&' {
        return before;
      }
      result := ParseCharacter(before, character, here, told);
    }

    method ParseCharacter(before: string, character: char, ghost here: State, ghost told: Meaning) returns (result: string)
      requires Valid() && Unforged([character]) && Ok(before)
      requires here.at < |source| && source[here.at] == character && here == Here().(at := here.at) && position == here.at + 1
      requires !IsSpace(character) && character != '=' && character != '<' && character != '>' && character != '&'
      requires told == Character(World(), here, before)
      modifies list
      ensures Valid() && Grown(old(list.nodes)) && calm == old(calm)
      ensures Ok(result)
      ensures Done(told, result)
    {
      if character == '~' {
        if mode != Any {
          SafeBetween("", before, " ", Limit());
        }
        assert "" + before == before;
        return before + " ";
      }
      if character == '.' {
        var marker := TrailingMarker(before);
        if marker.Some? && marker.value < |list.nodes| && list.nodes[marker.value].Matrix? {
          AppendDot(before, marker.value);
          return before;
        }
      }
      if mode != Any {
        SafeBetween("", before, [character], Limit());
      }
      assert "" + before == before;
      return before + [character];
    }

    /** A full stop in the last line of a matrix. */
    method AppendDot(before: string, k: nat)
      requires Valid() && Ok(before) && TrailingMarker(before) == Some(k) && k < |list.nodes| && list.nodes[k].Matrix?
      modifies list
      ensures Valid() && Grown(old(list.nodes)) && calm == old(calm) && Ok(before)
      ensures EndsInMatrix(before, old(list.nodes)) && list.nodes == WithDot(old(list.nodes), k)
    {
      var node := list.nodes[k];
      var lastLine := |node.lines| - 1;
      KnowsNodes();
      DotKept(mode, list.nodes, k);
      if mode == Bare {
        NoMarksExactly(before);
      }
      list.nodes := list.nodes[k := node.(lines := node.lines[lastLine := node.lines[lastLine] + "."])];
    }

    method ParseWhitespace()
      requires Valid()
      modifies `position
      ensures Valid() && position == AfterSpaces(source, old(position))
    {
      while SpaceAt(position)
        invariant Valid() && old(position) <= position && AfterSpaces(source, old(position)) == AfterSpaces(source, position)
        decreases |source| - position
      {
        position := position + 1;
      }
    }

    method SkipBlanks(from: nat) returns (k: nat)
      requires from <= |source| + 1
      ensures k == AfterBlanks(source, from)
    {
      k := from;
      while BlankAt(k)
        invariant from <= k <= |source| + 1 && AfterBlanks(source, from) == AfterBlanks(source, k)
        decreases |source| - k
      {
        k := k + 1;
      }
    }

    ghost predicate TameFrom(k: nat)
      reads `calm
    {
      forall details :: Unfold(details) ==> (calm.Quiet? ==> IsTame(tables, source, k, calm.depth))
    }

    lemma TameAfterCommand(start: nat, end: nat)
      requires TameFrom(start) && At(start, '\\')
      requires IsName(source, start + 1, end) || IsLineBreak(source, start + 1, end)
      ensures TameFrom(end)
    {
      assert Unfold(true);
      if calm.Quiet? {
        TameAfterName(tables, source, start, end, calm.depth);
      }
    }

    lemma ConstantIsRead(start: nat, end: nat)
      requires !calm.Loud? ==> At(start, '\\') && ConstantAt(tables, source, start)
      requires IsName(source, start + 1, end)
      ensures !calm.Loud? ==> IsConstant(tables, source[start + 1..end])
    {
      if !calm.Loud? {
        ConstantName(tables, source, start, end);
      }
    }

    lemma KnowsTables()
      requires Valid()
      ensures tables.Valid()
    {
      assert Unfold(true);
    }

    lemma SliceUnforged(a: nat, b: nat)
      requires Valid() && a <= b <= |source|
      ensures Unforged(source[a..b])
    {
      assert Unfold(true);
    }

    lemma SliceSuited(a: nat, b: nat)
      requires Valid() && a <= b <= |source| && (b < |source| ==> !IsAsciiLetter(source[b]))
      ensures Suits(mode, tables, source[a..b], display)
    {
      assert Unfold(true);
      SliceSuits(mode, tables, source, a, b, display);
    }

    lemma KnowsNodes()
      requires Valid()
      ensures Kept(mode, list.nodes) && (mode == Bare ==> !display)
    {
      assert Unfold(true);
    }

    // ----- Commands -----

    lemma EmptyIsOk()
      ensures Ok("") && Ok(" ")
    {
      FreeIsSafe("", Limit());
      FreeIsSafe(" ", Limit());
    }

    /** What a command means, once its name was read: up to `end`. */
    lemma NameOf(told: Meaning) returns (end: nat)
      requires TellsCommand(told, Here(), stackFractions)
      ensures position + 1 >= |source| ==> told == Unsupported(Here().(at := position + 1), "")
      ensures position + 1 < |source| && (source[position + 1] == '\n' || source[position + 1] == '\r') ==>
                told == Meaning(" ", Here().(at := if source[position + 1] == '\r' && At(position + 2, '\n') then position + 3 else position + 2))
      ensures position + 1 < |source| && source[position + 1] != '\n' && source[position + 1] != '\r' ==>
                && end == (if IsAsciiLetter(source[position + 1]) then LettersEnd(source, position + 1) else position + 2)
                && position + 1 < end <= |source|
                && TellsInterpreted(told, Here().(at := end), stackFractions, source[position + 1..end])
    {
      assert Spell(true, OfCommand);
      end := if position + 1 < |source| && IsAsciiLetter(source[position + 1]) then LettersEnd(source, position + 1) else position + 2;
    }

    method ParseCommand(ghost told: Meaning) returns (result: string)
      requires Valid() && At(position, '\\') && (!calm.Loud? ==> ConstantAt(tables, source, position))
      requires TellsCommand(told, Here(), stackFractions)
      modifies this, list
      ensures Valid() && position > old(position) && Grown(old(list.nodes)) && calm == old(calm)
      ensures Ok(result) && stackFractions == old(stackFractions)
      ensures Done(told, result)
      decreases |source|, |source| + 1 - position, 0
    {
      ghost var start := position;
      ghost var end := NameOf(told);
      assert TameFrom(start);
      EmptyIsOk();
      position := position + 1;
      if position >= |source| {
        supported := false;
        return "";
      }
      var first := source[position];
      if first == '\n' || first == '\r' {
        position := position + 1;
        if first == '\r' && At(position, '\n') {
          position := position + 1;
        }
        TameAfterCommand(start, position);
        return " ";
      }
      var command := ReadName();
      CommandIsRead(start, end);
      result := Interpret(command, start, told);
    }

    /** What is known once the name of the command at `start` was read. */
    lemma CommandIsRead(start: nat, end: nat)
      requires TameFrom(start) && At(start, '\\') && IsName(source, start + 1, position)
      requires (!calm.Loud? ==> ConstantAt(tables, source, start)) && forall details :: Unfold(details) ==> Suits(mode, tables, source, display)
      requires end == (if IsAsciiLetter(source[start + 1]) then LettersEnd(source, start + 1) else start + 2)
      ensures position == end && TameFrom(position) && Unforged(source[start + 1..position])
      ensures !calm.Loud? ==> IsConstant(tables, source[start + 1..position])
    {
      TameAfterCommand(start, position);
      ConstantIsRead(start, position);
      if IsAsciiLetter(source[start + 1]) {
        LettersStop(source, start + 1, position);
      }
      assert Unfold(true);
    }

    method ReadName() returns (command: string)
      requires position < |source|
      modifies `position
      ensures IsName(source, old(position), position) && command == source[old(position)..position]
    {
      var start := position;
      position := position + 1;
      if IsAsciiLetter(source[start]) {
        while position < |source| && IsAsciiLetter(source[position])
          invariant start < position <= |source|
          invariant forall j :: start <= j < position ==> IsAsciiLetter(source[j])
        {
          position := position + 1;
        }
      }
      command := source[start..position];
    }

    /** What the first tables make of a command. */
    lemma InterpretedOf(told: Meaning, command: string)
      requires TellsInterpreted(told, Here(), stackFractions, command)
      ensures var fixed := FixedText(tables, command);
              if fixed.Some? then told == Meaning(fixed.value, Here())
              else if command == "not" then TellsNegation(told, Here())
              else if command in tables.limitOperators then TellsWithLimits(told, Here(), command, true, true, true)
              else if command in tables.symbols then TellsSymbol(told, Here(), command)
              else TellsNamed(told, Here(), stackFractions, command)
    {
      assert Spell(true, OfInterpreted);
    }

    method Interpret(command: string, ghost start: nat, ghost told: Meaning)
      returns (result: string)
      requires Valid() && Unforged(command) && IsCommand(command, start)
      requires !calm.Loud? ==> IsConstant(tables, command)
      requires TellsInterpreted(told, Here(), stackFractions, command)
      modifies this, list
      ensures Valid() && position >= old(position) && Grown(old(list.nodes)) && calm == old(calm)
      ensures Ok(result) && stackFractions == old(stackFractions)
      ensures Done(told, result)
      decreases |source|, |source| + 1 - position, 8
    {
      InterpretedOf(told, command);
      var fixed := FixedText(tables, command);
      if fixed.Some? {
        result := fixed.value;
        if mode != Any {
          FixedTextIsFree(tables, command, Bound(0, IsPure(mode)));
          FreeIsSafe(result, Limit());
        }
      } else if command == "not" {
        NotIsGuarded(start);
        result := ParseNot(told);
      } else if command in tables.limitOperators {
        KnowsTables();
        TableTextIsOk(command);
        result := ParseOperator(command, true, true, true, told);
      } else if command in tables.symbols {
        result := ParseSymbol(command, told);
      } else {
        result := InterpretNamed(command, start, told);
      }
    }

    lemma TableTextIsOk(text: string)
      requires NoMarks(text)
      ensures LimitOk(Some(text))
    {
      FreeIsSafe(text, Limit());
      FreeIsSafe(text, Strict(0));
    }

    lemma ArgumentTold() returns (inner: Meaning)
      ensures TellsArgument(inner, Here(), stackFractions && true)
    {
      inner := Argument(World(), Here(), stackFractions && true);
    }

    /** What the later tables make of a command. */
    lemma NamedOf(told: Meaning, command: string, inner: Meaning)
      requires TellsNamed(told, Here(), stackFractions, command) && TellsArgument(inner, Here(), stackFractions && true)
      ensures if command in tables.namedOperators then told == Meaning([NAMED_START] + command + [NAMED_END], Here())
              else if command in tables.sizes then told == Meaning("", Here())
              else if command == "left" || command == "middle" || command == "right" then
                told == Meaning("", if At(position, '.') then Here().(at := position + 1) else Here())
              else if command == "frac" || command == "dfrac" || command == "tfrac" then TellsAFraction(told, Here(), stackFractions, command != "tfrac")
              else if command == "sqrt" then TellsRoot(told, Here(), stackFractions)
              else if command == "boxed" || command == "fbox" then told == inner.(text := "[" + Trim(inner.text) + "]")
              else if command == "binom" || command == "dbinom" || command == "tbinom" then TellsBinomial(told, Here(), stackFractions)
              else if command in tables.accents then told == inner.(text := AccentText(tables, command, inner.text))
              else if command == "mathbb" then told == inner.(text := Blackboard(tables, inner.text))
              else if command == "operatorname" then TellsOperatorName(told, Here(), stackFractions)
              else TellsRest(told, Here(), stackFractions, command)
    {
      assert Spell(true, OfNamed) && Spell(true, OfArgument);
      assert Boxed(World(), Here(), stackFractions) == inner.(text := "[" + Trim(inner.text) + "]");
      assert Doubled(World(), Here(), stackFractions) == inner.(text := Blackboard(tables, inner.text));
      if command in tables.accents {
        assert Accented(World(), Here(), stackFractions, command) == inner.(text := AccentText(tables, command, inner.text));
      }
    }

    method InterpretNamed(command: string, ghost start: nat, ghost told: Meaning)
      returns (result: string)
      requires Valid() && Unforged(command) && IsCommand(command, start)
      requires !calm.Loud? ==> command in tables.namedOperators || command in tables.sizes
      requires TellsNamed(told, Here(), stackFractions, command)
      modifies this, list
      ensures Valid() && position >= old(position) && Grown(old(list.nodes)) && calm == old(calm)
      ensures Ok(result) && stackFractions == old(stackFractions)
      ensures Done(told, result)
      decreases |source|, |source| + 1 - position, 7
    {
      ghost var inner := ArgumentTold();
      NamedOf(told, command, inner);
      if command in tables.namedOperators {
        result := [NAMED_START] + command + [NAMED_END];
        if mode != Any {
          FreeIsSafe(result, Limit());
        }
      } else if command in tables.sizes {
        result := "";
      } else if command == "left" || command == "middle" || command == "right" {
        if At(position, '.') {
          position := position + 1;
        }
        result := "";
      } else if command == "frac" || command == "dfrac" || command == "tfrac" {
        result := ParseFraction(command != "tfrac", told);
      } else if command == "sqrt" {
        result := ParseRoot(told);
      } else if command == "boxed" || command == "fbox" {
        var value := ParseRequiredArgument(true, false, inner);
        if mode != Any {
          TrimSafe(value, Limit());
          SafeBetween("[", Trim(value), "]", Limit());
        }
        result := "[" + Trim(value) + "]";
      } else if command == "binom" || command == "dbinom" || command == "tbinom" {
        result := ParseBinomial(told);
      } else if command in tables.accents {
        result := ParseAccent(command, inner);
      } else if command == "mathbb" {
        var value := ParseRequiredArgument(true, false, inner);
        KnowsTables();
        if mode != Any {
          BlackboardKeeps(tables, value, Limit());
          KeepsSafe(value, Blackboard(tables, value), Limit());
        }
        result := Blackboard(tables, value);
      } else if command == "operatorname" {
        OperatorNameIsGuarded(start);
        result := ParseOperatorName(told);
      } else {
        result := InterpretRest(command, told);
      }
    }

    /** What is made of the remaining commands. */
    lemma RestOf(told: Meaning, command: string, inner: Meaning)
      requires TellsRest(told, Here(), stackFractions, command) && TellsArgument(inner, Here(), stackFractions && true)
      ensures if command == "mod" || command == "bmod" then told == Meaning(" mod ", Here())
              else if command == "pmod" || command == "pod" then
                told == inner.(text := (if command == "pmod" then " (mod " else " (") + Trim(inner.text) + ")")
              else if command == "overset" || command == "stackrel" then TellsStacked(told, Here(), stackFractions, Sup)
              else if command == "underset" then TellsStacked(told, Here(), stackFractions, Sub)
              else if command in tables.plainWrappers then
                told == inner.(text := if "text" <= command || command == "mbox" then inner.text else Trim(inner.text))
              else if command == "begin" then TellsInEnvironment(told, Here())
              else told == Unsupported(Here(), if command == "end" then "" else "\\" + command)
    {
      assert Spell(true, OfRest) && Spell(true, OfArgument);
      var named, asIs := command == "pmod", "text" <= command || command == "mbox";
      assert Modulus(World(), Here(), stackFractions, named)
             == inner.(text := (if named then " (mod " else " (") + Trim(inner.text) + ")");
      assert Wrapped(World(), Here(), stackFractions, asIs) == inner.(text := if asIs then inner.text else Trim(inner.text));
    }

    method InterpretRest(command: string, ghost told: Meaning) returns (result: string)
      requires Valid() && calm.Loud? && Unforged(command)
      requires TellsRest(told, Here(), stackFractions, command)
      modifies this, list
      ensures Valid() && position >= old(position) && Grown(old(list.nodes)) && calm == old(calm)
      ensures Ok(result) && stackFractions == old(stackFractions)
      ensures Done(told, result)
      decreases |source|, |source| + 1 - position, 6
    {
      ghost var inner := ArgumentTold();
      RestOf(told, command, inner);
      if command == "mod" || command == "bmod" {
        result := " mod ";
        if mode != Any {
          FreeIsSafe(result, Limit());
        }
      } else if command == "pmod" || command == "pod" {
        var value := ParseRequiredArgument(true, false, inner);
        var prefix := if command == "pmod" then " (mod " else " (";
        if mode != Any {
          TrimSafe(value, Limit());
          SafeBetween(prefix, Trim(value), ")", Limit());
        }
        result := prefix + Trim(value) + ")";
      } else if command == "overset" || command == "stackrel" {
        result := ParseStacked(Sup, told);
      } else if command == "underset" {
        result := ParseStacked(Sub, told);
      } else if command in tables.plainWrappers {
        var value := ParseRequiredArgument(true, false, inner);
        if mode != Any {
          TrimSafe(value, Limit());
        }
        result := if "text" <= command || command == "mbox" then value else Trim(value);
      } else if command == "begin" {
        result := ParseEnvironment(told);
      } else if command == "end" {
        supported := false;
        result := "";
      } else {
        supported := false;
        result := "\\" + command;
        if mode != Any {
          FreeIsSafe(result, Limit());
        }
      }
    }

    /** The command that was just read. */
    ghost predicate IsCommand(command: string, start: nat)
      reads `position
    {
      start + 1 < position <= |source| && source[start] == '\\' && command == source[start + 1..position]
    }

    lemma NotIsGuarded(start: nat)
      requires Valid() && IsCommand("not", start)
      ensures mode == Guarded ==> IsPlainArgument(tables, source, position, false)
    {
      if mode == Guarded {
        CommandOccurs("not", start);
        AfterHere(source, start, NOT);
        assert Unfold(true) && GuardedAt(tables, source, start, display);
      }
    }

    lemma OperatorNameIsGuarded(start: nat)
      requires Valid() && IsCommand("operatorname", start)
      ensures mode == Guarded && display ==> IsPlainArgument(tables, source, position, true)
    {
      if mode == Guarded && display {
        CommandOccurs("operatorname", start);
        AfterHere(source, start, OPERATOR_NAME);
        assert Unfold(true) && GuardedAt(tables, source, start, display);
      }
    }

    lemma CommandOccurs(command: string, start: nat)
      requires IsCommand(command, start)
      ensures OccursAt(source, "\\" + command, start) && position == start + |"\\" + command|
    {
      assert source[start..position] == [source[start]] + source[start + 1..position];
    }

    lemma NegationOf(told: Meaning) returns (inner: Meaning)
      requires TellsNegation(told, Here())
      ensures TellsArgument(inner, Here(), stackFractions && false)
      ensures var value := Trim(inner.text);
              told == if value in tables.negated then inner.(text := " " + tables.negated[value] + " ")
                      else if value == "" then Unsupported(inner.after, "") else inner.(text := StrikeThrough(value))
    {
      assert Spell(true, OfNegation);
      inner := Argument(World(), Here(), false);
    }

    method ParseNot(ghost told: Meaning) returns (result: string)
      requires Valid() && calm.Loud? && (mode == Guarded ==> IsPlainArgument(tables, source, position, false))
      requires TellsNegation(told, Here())
      modifies this, list
      ensures Valid() && position >= old(position) && Grown(old(list.nodes)) && calm == old(calm)
      ensures Ok(result) && stackFractions == old(stackFractions)
      ensures Done(told, result)
      decreases |source|, |source| + 1 - position, 4
    {
      ghost var inner := NegationOf(told);
      var argument := ParseRequiredArgument(false, mode == Guarded, inner);
      var value := Trim(argument);
      if mode != Any {
        TrimSafe(argument, Limit());
      }
      if mode == Guarded {
        TrimSafe(argument, Strict(0));
      }
      if IsPure(mode) && mode != Pure {
        NoMarksExactly(value);
      }
      if value in tables.negated {
        result := " " + tables.negated[value] + " ";
        KnowsTables();
        assert NoMarks(tables.negated[value]);
        if mode != Any {
          FreeIsSafe(tables.negated[value], Limit());
          SafeBetween(" ", tables.negated[value], " ", Limit());
        }
      } else if value == "" {
        supported := false;
        result := "";
      } else {
        if mode != Any {
          StrikeSafe(value, Limit());
        }
        result := StrikeThrough(value);
      }
    }

    lemma SymbolOf(told: Meaning, command: string)
      requires TellsSymbol(told, Here(), command)
      ensures if command in tables.displayLimitSymbols then TellsWithLimits(told, Here(), tables.symbols[command], false, true, false)
              else told == Meaning(SymbolText(tables, command), Here())
    {
      assert Spell(true, OfSymbol);
    }

    method ParseSymbol(command: string, ghost told: Meaning) returns (result: string)
      requires Valid() && command in tables.symbols && (!calm.Loud? ==> command !in tables.displayLimitSymbols)
      requires TellsSymbol(told, Here(), command)
      modifies this, list
      ensures Valid() && position >= old(position) && Grown(old(list.nodes)) && calm == old(calm)
      ensures Ok(result) && stackFractions == old(stackFractions)
      ensures Done(told, result)
      decreases |source|, |source| + 1 - position, 5
    {
      KnowsTables();
      SymbolOf(told, command);
      var symbol := tables.symbols[command];
      assert NoMarks(symbol);
      if command in tables.displayLimitSymbols {
        TableTextIsOk(symbol);
        result := ParseOperator(symbol, false, true, false, told);
      } else {
        result := SymbolText(tables, command);
        if mode != Any {
          FreeIsSafe(symbol, Limit());
          SafeBetween(" ", symbol, " ", Limit());
        }
      }
    }

    lemma TwoOf(told: Two, stack: bool) returns (first: Meaning, second: Meaning)
      requires TellsTwoArguments(told, Here(), stackFractions && stack)
      ensures TellsArgument(first, Here(), stackFractions && stack)
      ensures TellsArgument(second, first.after, stackFractions && stack)
      ensures told == Two(first.text, second.text, second.after)
    {
      assert Spell(true, OfTwoArguments);
      first := Argument(World(), Here(), stackFractions && stack);
      second := Argument(World(), first.after, stackFractions && stack);
    }

    method ParseTwoArguments(stack: bool, ghost told: Two) returns (first: string, second: string)
      requires Valid() && calm.Loud?
      requires TellsTwoArguments(told, Here(), stackFractions && stack)
      modifies this, list
      ensures Valid() && position >= old(position) && Grown(old(list.nodes)) && calm == old(calm)
      ensures Ok(first) && Ok(second) && stackFractions == old(stackFractions)
      ensures told == Two(first, second, Here())
      decreases |source|, |source| + 1 - position, 4
    {
      ghost var one, two := TwoOf(told, stack);
      first := ParseRequiredArgument(stack, false, one);
      ghost var between := Limit();
      second := ParseRequiredArgument(stack, false, two);
      if mode != Any {
        SafeMonotone(first, between, Limit());
      }
    }

    lemma BinomialOf(told: Meaning) returns (two: Two)
      requires TellsBinomial(told, Here(), stackFractions)
      ensures TellsTwoArguments(two, Here(), stackFractions && true) && told == Meaning("(" + two.first + " choose " + (two.second + ")"), two.after)
    {
      assert Spell(true, OfBinomial);
      two := TwoArguments(World(), Here(), stackFractions && true);
    }

    method ParseBinomial(ghost told: Meaning) returns (result: string)
      requires Valid() && calm.Loud?
      requires TellsBinomial(told, Here(), stackFractions)
      modifies this, list
      ensures Valid() && position >= old(position) && Grown(old(list.nodes)) && calm == old(calm)
      ensures Ok(result) && stackFractions == old(stackFractions)
      ensures Done(told, result)
      decreases |source|, |source| + 1 - position, 5
    {
      ghost var two := BinomialOf(told);
      var n, k := ParseTwoArguments(true, two);
      if mode != Any {
        SafeBetween("(", n, " choose ", Limit());
        SafeBetween("", k, ")", Limit());
      }
      assert "" + k == k;
      if mode != Any {
        SafeConcat("(" + n + " choose ", k + ")", Limit());
      }
      result := "(" + n + " choose " + (k + ")");
    }

    /** A node that is as it must be is added, and so is the marker that stands for it. */
    method PushNode(node: LayoutNode) returns (marker: string)
      requires Valid() && calm.Loud? && mode != Bare && NodeKept(mode, node, |list.nodes|)
      requires node.Matrix? ==> |node.lines| > 1 && node.baseline < |node.lines|
      modifies list
      ensures Valid() && Ok(marker) && Grown(old(list.nodes))
      ensures Done(WithNode(old(Here()), node), marker)
    {
      KnowsNodes();
      GrowsKept(mode, list.nodes, node);
      marker := list.Push(node);
      MarkerIsSafe(|old(list.nodes)|, Limit());
    }

    lemma FractionOf(told: Meaning, stackable: bool) returns (two: Two)
      requires TellsAFraction(told, Here(), stackFractions, stackable)
      ensures var stacks := display && stackFractions && stackable;
              && TellsTwoArguments(two, Here(), stackFractions && !stacks)
              && told == if stacks then WithNode(two.after, Fraction(NormalizeOutput(tables, two.first), NormalizeOutput(tables, two.second)))
                         else Meaning(FormatFraction(tables, two.first, two.second), two.after)
    {
      assert Spell(true, OfAFraction);
      two := TwoArguments(World(), Here(), stackFractions && !(display && stackFractions && stackable));
    }

    method ParseFraction(stackable: bool, ghost told: Meaning) returns (result: string)
      requires Valid() && calm.Loud?
      requires TellsAFraction(told, Here(), stackFractions, stackable)
      modifies this, list
      ensures Valid() && position >= old(position) && Grown(old(list.nodes)) && calm == old(calm)
      ensures Ok(result) && stackFractions == old(stackFractions)
      ensures Done(told, result)
      decreases |source|, |source| + 1 - position, 5
    {
      ghost var two := FractionOf(told, stackable);
      var shouldStack := display && stackFractions && stackable;
      var numerator, denominator := ParseTwoArguments(!shouldStack, two);
      if shouldStack {
        KnowsNodes();
        FractionKept(mode, numerator, denominator, tables, |list.nodes|);
        result := PushNode(Fraction(NormalizeOutput(tables, numerator), NormalizeOutput(tables, denominator)));
      } else {
        if mode != Any {
          FractionSafe(tables, numerator, denominator, Limit());
        }
        result := FormatFraction(tables, numerator, denominator);
      }
    }

    lemma RootOf(told: Meaning) returns (degree: Optional, value: Meaning)
      requires TellsRoot(told, Here(), stackFractions)
      ensures TellsOptionalArgument(degree, Here())
      ensures TellsArgument(value, degree.after, stackFractions && true)
      ensures told == value.(text := RootText(tables, degree.value, value.text))
    {
      assert Spell(true, OfRoot);
      degree := OptionalArgument(World(), Here());
      value := Argument(World(), degree.after, stackFractions && true);
    }

    method ParseRoot(ghost told: Meaning) returns (result: string)
      requires Valid() && calm.Loud?
      requires TellsRoot(told, Here(), stackFractions)
      modifies this, list
      ensures Valid() && position >= old(position) && Grown(old(list.nodes)) && calm == old(calm)
      ensures Ok(result) && stackFractions == old(stackFractions)
      ensures Done(told, result)
      decreases |source|, |source| + 1 - position, 4
    {
      ghost var degree, inner := RootOf(told);
      var optional := ParseOptionalArgument(degree);
      ghost var between := Limit();
      var value := ParseRequiredArgument(true, false, inner);
      if optional.Some? && mode != Any {
        SafeMonotone(optional.value, between, Limit());
      }
      KnowsTables();
      if mode != Any {
        RootTextSafe(tables, optional, value, Limit());
      }
      if optional.None? || Trim(optional.value) == "2" {
        result := FormatRoot(tables, value, "√");
      } else if Trim(optional.value) == "3" {
        result := FormatRoot(tables, value, "∛");
      } else if Trim(optional.value) == "4" {
        result := FormatRoot(tables, value, "∜");
      } else {
        result := FormatScript(tables, Trim(optional.value), Sup) + FormatRoot(tables, value, "√");
      }
    }

    method ParseAccent(command: string, ghost inner: Meaning) returns (result: string)
      requires Valid() && calm.Loud? && command in tables.accents
      requires TellsArgument(inner, Here(), stackFractions && true)
      modifies this, list
      ensures Valid() && position >= old(position) && Grown(old(list.nodes)) && calm == old(calm)
      ensures Ok(result) && stackFractions == old(stackFractions)
      ensures Done(inner.(text := AccentText(tables, command, inner.text)), result)
      decreases |source|, |source| + 1 - position, 4
    {
      var value := ParseRequiredArgument(true, false, inner);
      KnowsTables();
      assert NoMark(tables.accents[command]) && NoMarks(command);
      if mode != Any {
        SafeBetween("", value, [tables.accents[command]], Limit());
      }
      assert "" + value == value;
      if mode != Any {
        SafeBetween(command + "(", value, ")", Limit());
      }
      result := if |value| == 1 then value + [tables.accents[command]] else command + "(" + value + ")";
    }

    lemma StackedOf(told: Meaning, kind: Kind) returns (two: Two)
      requires TellsStacked(told, Here(), stackFractions, kind)
      ensures TellsTwoArguments(two, Here(), stackFractions && true) && told == Meaning(Trim(two.second) + FormatScript(tables, two.first, kind), two.after)
    {
      assert Spell(true, OfStacked);
      two := TwoArguments(World(), Here(), stackFractions && true);
    }

    method ParseStacked(kind: Kind, ghost told: Meaning) returns (result: string)
      requires Valid() && calm.Loud?
      requires TellsStacked(told, Here(), stackFractions, kind)
      modifies this, list
      ensures Valid() && position >= old(position) && Grown(old(list.nodes)) && calm == old(calm)
      ensures Ok(result) && stackFractions == old(stackFractions)
      ensures Done(told, result)
      decreases |source|, |source| + 1 - position, 5
    {
      ghost var two := StackedOf(told, kind);
      var script, value := ParseTwoArguments(true, two);
      KnowsTables();
      if mode != Any {
        TrimSafe(value, Limit());
        ScriptSafe(tables, script, kind, Limit());
        SafeConcat(Trim(value), FormatScript(tables, script, kind), Limit());
      }
      result := Trim(value) + FormatScript(tables, script, kind);
    }

    /** The argument of `\operatorname`, after the star if there is one. */
    lemma OperatorNameOf(told: Meaning) returns (inner: Meaning)
      requires TellsOperatorName(told, Here(), stackFractions)
      ensures var starred := At(position, '*');
              && (TellsArgument(inner, if starred then Here().(at := position + 1) else Here(), stackFractions && true))
              && TellsWithLimits(told, inner.after, Trim(NormalizeOutput(tables, inner.text)), true, starred, true)
    {
      assert Spell(true, OfOperatorName);
      inner := Argument(World(), if At(position, '*') then Here().(at := position + 1) else Here(), stackFractions && true);
    }

    method ParseOperatorName(ghost told: Meaning) returns (result: string)
      requires Valid() && calm.Loud?
      requires mode == Guarded && display ==> IsPlainArgument(tables, source, position, true)
      requires TellsOperatorName(told, Here(), stackFractions)
      modifies this, list
      ensures Valid() && position >= old(position) && Grown(old(list.nodes)) && calm == old(calm)
      ensures Ok(result) && stackFractions == old(stackFractions)
      ensures Done(told, result)
      decreases |source|, |source| + 1 - position, 5
    {
      ghost var inner := OperatorNameOf(told);
      var starred := At(position, '*');
      if starred {
        position := position + 1;
      }
      assert Here() == if starred then old(Here()).(at := position) else old(Here());
      if mode == Guarded && display {
        StarIsPlain(tables, source, position);
      }
      var argument := ParseRequiredArgument(true, mode == Guarded && display, inner);
      if mode != Any {
        NormalizeSafe(tables, argument, Limit());
        TrimSafe(NormalizeOutput(tables, argument), Limit());
      }
      if mode == Guarded && display {
        NormalizeSafe(tables, argument, Strict(0));
        TrimSafe(NormalizeOutput(tables, argument), Strict(0));
      }
      result := ParseOperator(Trim(NormalizeOutput(tables, argument)), true, starred, true, told);
    }

    // ----- Operators with limits -----

    /** `\limits` or `\nolimits` after blanks, not followed by a letter. */
    method ParseModifier(displayLimits: bool) returns (useDisplayLimits: bool)
      requires Valid() && calm.Loud?
      modifies `position
      ensures Valid() && position >= old(position)
      ensures Modified(useDisplayLimits, position) == Modifier(source, old(position), displayLimits)
    {
      useDisplayLimits := displayLimits;
      var k := SkipBlanks(position);
      if WordAt(source, LIMITS, k) {
        useDisplayLimits := true;
        position := k + |LIMITS|;
      } else if WordAt(source, NO_LIMITS, k) {
        useDisplayLimits := false;
        position := k + |NO_LIMITS|;
      }
    }

    /** The text of a limit: in guarded source it is plain. */
    ghost predicate LimitOk(limit: Option<string>)
      reads `calm, list
    {
      limit.Some? ==> Ok(limit.value) && (mode == Guarded && display ==> Unmarked(limit.value))
    }

    lemma LimitStaysOk(limit: Option<string>, before: Bound)
      requires limit.Some? && mode != Any ==> Safe(limit.value, before) && Within(before, Limit())
      requires limit.Some? && mode == Guarded && display ==> Unmarked(limit.value)
      ensures LimitOk(limit)
    {
      if limit.Some? && mode != Any {
        SafeMonotone(limit.value, before, Limit());
      }
    }

    method ParseLimit(scriptPosition: nat, ghost inner: Meaning) returns (value: string)
      requires Valid() && calm.Loud? && position <= scriptPosition < |source|
      requires source[scriptPosition] == '_' || source[scriptPosition] == '^'
      requires TellsArgument(inner, Here().(at := scriptPosition + 1), false)
      modifies this, list
      ensures Valid() && position > old(position) && Grown(old(list.nodes)) && calm == old(calm)
      ensures LimitOk(Some(value)) && Within(old(Limit()), Limit()) && stackFractions == old(stackFractions)
      ensures Done(inner.(text := LimitText(tables, inner.text)), value)
      decreases |source|, |source| + 1 - position, 2
    {
      position := scriptPosition + 1;
      assert mode == Guarded ==> GuardedAt(tables, source, scriptPosition, display) by { assert Unfold(true); }
      var argument := ParseRequiredArgument(false, mode == Guarded && display, inner);
      value := LimitText(tables, argument);
      if mode != Any {
        NormalizeSafe(tables, argument, Limit());
        WithoutSpacesSafe(NormalizeOutput(tables, argument), Limit());
      }
      if mode == Guarded && display {
        NormalizeSafe(tables, argument, Strict(0));
        WithoutSpacesSafe(NormalizeOutput(tables, argument), Strict(0));
      }
    }

    /** The limits after one more. */
    ghost predicate LimitsAfter(told: Limited, inner: Meaning, isLower: bool, lower: Option<string>, upper: Option<string>) {
      var value := Some(LimitText(tables, inner.text));
      forall details :: Spell(details, OfLimits) ==>
        told == if isLower then Limits(World(), inner.after.(ok := inner.after.ok && lower.None?), value, upper)
                else Limits(World(), inner.after.(ok := inner.after.ok && upper.None?), lower, value)
    }

    lemma LimitsOf(told: Limited, lower: Option<string>, upper: Option<string>, k: nat) returns (inner: Meaning)
      requires TellsLimits(told, Here(), lower, upper) && k == AfterBlanks(source, position)
      ensures !At(k, '_') && !At(k, '^') ==> told == Limited(lower, upper, Here())
      ensures At(k, '_') || At(k, '^') ==> LimitsAfter(told, inner, At(k, '_'), lower, upper)
      ensures At(k, '_') || At(k, '^') ==> TellsArgument(inner, Here().(at := k + 1), false)
    {
      inner := Argument(World(), Here().(at := k + 1), false);
      if At(k, '_') || At(k, '^') {
        assert Spell(true, OfLimits);
      } else {
        assert Spell(true, OfLimits);
      }
    }

    method ParseLimits(ghost told: Limited) returns (lower: Option<string>, upper: Option<string>)
      requires Valid() && calm.Loud?
      requires TellsLimits(told, Here(), None, None)
      modifies this, list
      ensures Valid() && position >= old(position) && Grown(old(list.nodes)) && calm == old(calm)
      ensures LimitOk(lower) && LimitOk(upper) && stackFractions == old(stackFractions)
      ensures told == Limited(lower, upper, Here())
      decreases |source|, |source| + 1 - position, 3
    {
      lower, upper := None, None;
      while true
        invariant Valid() && position >= old(position) && Grown(old(list.nodes)) && calm == old(calm)
        invariant LimitOk(lower) && LimitOk(upper) && stackFractions == old(stackFractions)
        invariant TellsLimits(told, Here(), lower, upper)
        decreases |source| + 1 - position
      {
        var scriptPosition := SkipBlanks(position);
        ghost var inner := LimitsOf(told, lower, upper, scriptPosition);
        if !At(scriptPosition, '_') && !At(scriptPosition, '^') {
          break;
        }
        lower, upper := ParseNextLimit(scriptPosition, lower, upper, told, inner);
      }
    }

    /** One limit more; a second one of a kind is not supported. */
    method ParseNextLimit(scriptPosition: nat, lower: Option<string>, upper: Option<string>, ghost told: Limited, ghost inner: Meaning)
      returns (lower': Option<string>, upper': Option<string>)
      requires Valid() && calm.Loud? && position <= scriptPosition && (At(scriptPosition, '_') || At(scriptPosition, '^'))
      requires LimitOk(lower) && LimitOk(upper)
      requires LimitsAfter(told, inner, At(scriptPosition, '_'), lower, upper)
      requires TellsArgument(inner, Here().(at := scriptPosition + 1), false)
      modifies this, list
      ensures Valid() && position > old(position) && Grown(old(list.nodes)) && calm == old(calm)
      ensures LimitOk(lower') && LimitOk(upper') && stackFractions == old(stackFractions)
      ensures TellsLimits(told, Here(), lower', upper')
      decreases |source|, |source| + 1 - position, 3, 0
    {
      var isLower := At(scriptPosition, '_');
      ghost var before := Limit();
      lower', upper' := lower, upper;
      var value := ParseLimit(scriptPosition, inner);
      LimitStaysOk(lower, before);
      LimitStaysOk(upper, before);
      if isLower {
        if lower.Some? { supported := false; }
        lower' := Some(value);
      } else {
        if upper.Some? { supported := false; }
        upper' := Some(value);
      }
    }

    lemma WithLimitsOf(told: Meaning, operator: string, bracket: bool, displayLimits: bool, spaced: bool) returns (inner: Limited)
      requires TellsWithLimits(told, Here(), operator, bracket, displayLimits, spaced)
      ensures var modified := Modifier(source, position, displayLimits);
              && (TellsLimits(inner, Here().(at := modified.at), None, None))
              && told == if display && modified.displayLimits && (inner.lower.Some? || inner.upper.Some?)
                         then WithNode(inner.after, Operator(operator, inner.lower, inner.upper))
                         else Meaning(OperatorText(tables, operator, inner.lower, inner.upper, bracket, spaced), inner.after)
    {
      assert Spell(true, OfWithLimits);
      inner := Limits(World(), Here().(at := Modifier(source, position, displayLimits).at), None, None);
    }

    method ParseOperator(operator: string, bracket: bool, displayLimits: bool, spaced: bool,
                         ghost told: Meaning) returns (result: string)
      requires Valid() && calm.Loud? && LimitOk(Some(operator))
      requires TellsWithLimits(told, Here(), operator, bracket, displayLimits, spaced)
      modifies this, list
      ensures Valid() && position >= old(position) && Grown(old(list.nodes)) && calm == old(calm)
      ensures Ok(result) && stackFractions == old(stackFractions)
      ensures Done(told, result)
      decreases |source|, |source| + 1 - position, 4
    {
      ghost var inner := WithLimitsOf(told, operator, bracket, displayLimits, spaced);
      var useDisplayLimits := ParseModifier(displayLimits);
      var lower, upper := ParseLimits(inner);
      ghost var n := Limit();
      if mode != Any {
        SafeMonotone(operator, old(Limit()), n);
      }
      if display && useDisplayLimits && (lower.Some? || upper.Some?) {
        KnowsNodes();
        OperatorKept(mode, operator, lower, upper, |list.nodes|);
        result := PushNode(Operator(operator, lower, upper));
        return;
      }
      KnowsTables();
      if mode != Any {
        OperatorTextSafe(tables, operator, lower, upper, bracket, spaced, n);
      }
      result := OperatorText(tables, operator, lower, upper, bracket, spaced);
    }

    // ----- Arguments -----

    /** `quiet`: the argument is known to be plain, and comes out without markers. */
    method ParseRequiredArgument(stack: bool, ghost quiet: bool, ghost told: Meaning)
      returns (value: string)
      requires Valid() && ArgumentReady(quiet)
      requires TellsArgument(told, Here(), stackFractions && stack)
      modifies this, list
      ensures Valid() && position >= old(position) && Grown(old(list.nodes)) && calm == old(calm)
      ensures Ok(value) && stackFractions == old(stackFractions) && (quiet ==> Unmarked(value))
      ensures Done(told, value)
      decreases |source|, |source| + 1 - position, 3
    {
      var previousStackFractions := stackFractions;
      stackFractions := previousStackFractions && stack;
      value := ParseRequiredArgumentValue(quiet, told);
      stackFractions := previousStackFractions;
    }

    ghost predicate ArgumentReady(quiet: bool)
      reads `calm, `position
    {
      && !calm.Past?
      && (quiet ==> calm.Loud? && mode == Guarded && IsPlainArgument(tables, source, position, false))
      && (calm.Quiet? ==> position >= |source| || StartsArgument(source[position]))
    }

    lemma PlainAfterSpaces(from: nat, k: nat)
      requires from <= k && IsPlainArgument(tables, source, from, false) && forall j :: from <= j < k ==> SpaceAt(j)
      ensures IsPlainArgument(tables, source, k, false)
      decreases k - from
    {
      if from < k {
        assert SpaceAt(from);
        PlainAfterSpaces(from + 1, k);
      }
    }

    lemma ArgumentOf(told: Meaning)
      requires TellsArgument(told, Here(), stackFractions)
      ensures var k := AfterSpaces(source, position);
              if k >= |source| then told == Unsupported(Here().(at := k), "")
              else if source[k] == '{' then
                TellsSequence(told, Here().(at := k + 1), stackFractions, Some('}'), "")
              else if source[k] == '\\' then
                TellsCommand(told, Here().(at := k), stackFractions)
              else told == Meaning([source[k]], Here().(at := k + 1))
    {
      assert Spell(true, OfArgument);
    }

    method ParseRequiredArgumentValue(ghost quiet: bool, ghost told: Meaning) returns (value: string)
      requires Valid() && ArgumentReady(quiet)
      requires TellsArgument(told, Here(), stackFractions)
      modifies this, list
      ensures Valid() && position >= old(position) && Grown(old(list.nodes)) && calm == old(calm)
      ensures Ok(value) && stackFractions == old(stackFractions) && (quiet ==> Unmarked(value))
      ensures Done(told, value)
      decreases |source|, |source| + 1 - position, 2
    {
      ArgumentOf(told);
      ParseWhitespace();
      if quiet {
        PlainAfterSpaces(old(position), position);
      }
      if position >= |source| {
        supported := false;
        EmptyIsOk();
        FreeIsSafe("", Strict(0));
        return "";
      }
      if source[position] == '{' {
        value := ParseBraced(quiet, told);
      } else if source[position] == '\\' {
        value := ParseCommandArgument(quiet, told);
      } else {
        value := [source[position]];
        SliceUnforged(position, position + 1);
        if mode != Any {
          FreeIsSafe(value, Limit());
        }
        if mode == Guarded {
          FreeIsSafe(value, Strict(0));
        }
        position := position + 1;
      }
    }

    method ParseBraced(ghost quiet: bool, ghost told: Meaning) returns (value: string)
      requires Valid() && ArgumentReady(quiet) && At(position, '{')
      requires TellsSequence(told, Here().(at := position + 1), stackFractions, Some('}'), "")
      modifies this, list
      ensures Valid() && position > old(position) && Grown(old(list.nodes)) && calm == old(calm)
      ensures Ok(value) && stackFractions == old(stackFractions) && (quiet ==> Unmarked(value))
      ensures Done(told, value)
      decreases |source|, |source| + 1 - position, 1
    {
      ghost var before := calm;
      position, calm := position + 1, if quiet then Quiet(0) else Opened(calm);
      value := ParseSequence(Some('}'), told);
      calm := before;
      if quiet {
        SafeMonotone(value, Strict(0), Limit());
      }
    }

    method ParseCommandArgument(ghost quiet: bool, ghost told: Meaning) returns (value: string)
      requires Valid() && ArgumentReady(quiet) && At(position, '\\')
      requires TellsCommand(told, Here(), stackFractions)
      modifies this, list
      ensures Valid() && position > old(position) && Grown(old(list.nodes)) && calm == old(calm)
      ensures Ok(value) && stackFractions == old(stackFractions) && (quiet ==> Unmarked(value))
      ensures Done(told, value)
      decreases |source|, |source| + 1 - position, 1
    {
      ghost var before := calm;
      calm := if quiet then Past else calm;
      assert !calm.Loud? ==> ConstantAt(tables, source, position) by { assert Unfold(true); }
      value := ParseCommand(told);
      calm := before;
      if quiet {
        SafeMonotone(value, Strict(0), Limit());
      }
    }

    lemma OptionalOf(told: Optional) returns (inner: Meaning)
      requires TellsOptionalArgument(told, Here())
      ensures var k := AfterBlanks(source, position);
              var close := IndexFrom(source, "]", k + 1);
              if !At(k, '[') then told == Optional(None, Here().(at := k))
              else if close < 0 then told == Optional(None, State(k, list.nodes, false))
              else
                && close < |source| && told == Optional(Some(inner.text), inner.after)
                && TellsNested(inner, Here().(at := close + 1), source[k + 1..close], true)
    {
      assert Spell(true, OfOptionalArgument);
      var k := AfterBlanks(source, position);
      var close := IndexFrom(source, "]", k + 1);
      inner := Meaning("", Here());
      if At(k, '[') && close >= 0 {
        inner := Nested(World(), Here().(at := close + 1), source[k + 1..close], true);
      }
    }

    method ParseOptionalArgument(ghost told: Optional) returns (value: Option<string>)
      requires Valid() && calm.Loud?
      requires TellsOptionalArgument(told, Here())
      modifies this, list
      ensures Valid() && position >= old(position) && Grown(old(list.nodes)) && calm == old(calm)
      ensures (value.Some? ==> Ok(value.value)) && stackFractions == old(stackFractions)
      ensures told == Optional(value, Here())
      decreases |source|, |source| + 1 - position, 3
    {
      ghost var inner := OptionalOf(told);
      position := SkipBlanks(position);
      if !At(position, '[') {
        return None;
      }
      var end := IndexFrom(source, "]", position + 1);
      if end < 0 {
        supported := false;
        return None;
      }
      var text := source[position + 1..end];
      BracketEnds(source, position + 1);
      SliceSuited(position + 1, end);
      position := end + 1;
      var rendered := RenderNested(text, true, mode, inner);
      return Some(rendered);
    }

    /** The text up to the matching brace; the position is after that brace. */
    method ReadRawGroup() returns (group: Option<string>)
      requires Valid() && calm.Loud?
      modifies `position, `supported
      ensures Valid() && position >= old(position)
      ensures var open := AfterBlanks(source, old(position));
              var end := MatchingBrace(source, open + 1, 1);
              if !At(open, '{') then group == None && !supported && position == open
              else if end >= |source| then group == None && !supported && position == end
              else group == Some(source[open + 1..end]) && position == end + 1 && supported == old(supported)
      ensures group.Some? ==> Unforged(group.value)
    {
      position := SkipBlanks(position);
      if !At(position, '{') {
        supported := false;
        return None;
      }
      position := position + 1;
      var start := position;
      var depth := 1;
      while position < |source|
        invariant start <= position <= |source| + 1 && depth > 0 && supported == old(supported)
        invariant MatchingBrace(source, start, 1) == MatchingBrace(source, position, depth)
        decreases |source| - position
      {
        var character := source[position];
        if character == '\\' {
          position := position + 2;
          continue;
        }
        if character == '{' { depth := depth + 1; }
        if character == '}' { depth := depth - 1; }
        if depth == 0 {
          SliceUnforged(start, position);
          group := Some(source[start..position]);
          position := position + 1;
          return;
        }
        position := position + 1;
      }
      supported := false;
      return None;
    }

    // ----- Environments -----

    lemma EnvironmentOf(told: Meaning)
      requires TellsInEnvironment(told, Here())
      ensures var k := AfterBlanks(source, position);
              var close := MatchingBrace(source, k + 1, 1);
              if !At(k, '{') then told == Unsupported(Here().(at := k), "")
              else if close >= |source| then told == Unsupported(Here().(at := close), "")
              else if close == k + 1 then told == Meaning("", Here().(at := close + 1))
              else TellsInBody(told, Here().(at := close + 1), source[k + 1..close])
    {
      assert Spell(true, OfInEnvironment);
    }

    method ParseEnvironment(ghost told: Meaning) returns (result: string)
      requires Valid() && calm.Loud?
      requires TellsInEnvironment(told, Here())
      modifies this, list
      ensures Valid() && position >= old(position) && Grown(old(list.nodes)) && calm == old(calm)
      ensures Ok(result) && stackFractions == old(stackFractions)
      ensures Done(told, result)
      decreases |source|, |source| + 1 - position, 5
    {
      EnvironmentOf(told);
      var group := ReadRawGroup();
      EmptyIsOk();
      if group.None? || group.value == "" {
        return "";
      }
      assert Here() == old(Here()).(at := position);
      result := ParseBody(group.value, told);
    }

    lemma InBodyOf(told: Meaning, environment: string, end: int)
      requires TellsInBody(told, Here(), environment) && end == IndexFrom(source, EndMarker(environment), position)
      ensures TellsBodyUpTo(told, Here(), environment, end)
    {
      assert Spell(true, OfInBody);
    }

    lemma BodyUpToOf(told: Meaning, environment: string, end: int)
      requires TellsBodyUpTo(told, Here(), environment, end)
      ensures if end < 0 then told == Unsupported(Here(), "")
              else TellsBody(told, Here().(at := end + |EndMarker(environment)|), environment, source[position..end])
    {
      assert Spell(true, OfBodyUpTo);
    }

    method ParseBody(environment: string, ghost told: Meaning) returns (result: string)
      requires Valid() && calm.Loud?
      requires TellsInBody(told, Here(), environment)
      modifies this, list
      ensures Valid() && position >= old(position) && Grown(old(list.nodes)) && calm == old(calm)
      ensures Ok(result) && stackFractions == old(stackFractions)
      ensures Done(told, result)
      decreases |source|, |source| + 1 - position, 4
    {
      var endMarker := EndMarker(environment);
      var end := IndexFrom(source, endMarker, position);
      InBodyOf(told, environment, end);
      BodyUpToOf(told, environment, end);
      if end < 0 {
        supported := false;
        EmptyIsOk();
        return "";
      }
      EndMarkerStarts(source, environment, position);
      result := RenderBody(environment, end, told);
    }

    /** The body of an environment up to where its end stands, which is read as well. */
    method RenderBody(environment: string, end: nat, ghost told: Meaning) returns (result: string)
      requires Valid() && calm.Loud? && 0 < position <= end && end + |EndMarker(environment)| <= |source| && At(end, '\\')
      requires TellsBody(told, Here().(at := end + |EndMarker(environment)|), environment, source[position..end])
      modifies this, list
      ensures Valid() && position >= old(position) && Grown(old(list.nodes)) && calm == old(calm)
      ensures Ok(result) && stackFractions == old(stackFractions)
      ensures Done(told, result)
      decreases |source|, |source| + 1 - position, 3
    {
      var body := source[position..end];
      SliceSuited(position, end);
      ghost var after := Here().(at := end + |EndMarker(environment)|);
      position := end + |EndMarker(environment)|;
      assert Here() == after;
      result := RenderEnvironment(environment, body, told);
    }

    /** What the kind of an environment makes of its body. */
    lemma BodyOf(told: Meaning, environment: string, body: string) returns (inner: Meaning, lines: Lines, table: Tabled)
      requires TellsBody(told, Here(), environment, body)
      ensures match EnvironmentKind(environment)
              case Equation => TellsNested(inner, Here(), body, true) && told == inner.(text := Trim(inner.text))
              case Aligned(pairs) =>
                var rows := SplitRows(if pairs then StripGroup(body) else body);
                TellsAlignedLines(lines, Here(), rows, |rows|, pairs) && told == Meaning(JoinWith(lines.lines, "\n"), lines.after)
              case Cases =>
                TellsTable(table, Here(), SplitRows(body), |SplitRows(body)|)
                && told == Meaning(JoinWith(CaseText(table.rows, |table.rows|), "\n"), table.after)
              case Grid(preamble) => TellsInGrid(told, Here(), environment, SplitRows(if preamble then StripGroup(body) else body))
              case Unknown => told == Unsupported(Here(), body)
    {
      assert Spell(true, OfBody);
      RowsShorter(body, |source|);
      inner, lines, table := told, Lines([], Here()), Tabled([], Here());
      match EnvironmentKind(environment)
      case Equation => inner := Nested(World(), Here(), body, true);
      case Aligned(pairs) =>
        var rows := SplitRows(if pairs then StripGroup(body) else body);
        lines := AlignedLines(World(), Here(), rows, |rows|, pairs);
      case Cases => table := Table(World(), Here(), SplitRows(body), |SplitRows(body)|);
      case _ =>
    }

    method RenderEnvironment(environment: string, body: string, ghost told: Meaning) returns (result: string)
      requires Valid() && calm.Loud? && Suits(mode, tables, body, display) && |body| < |source|
      requires TellsBody(told, Here(), environment, body)
      modifies this, list
      ensures Valid() && position == old(position) && Grown(old(list.nodes)) && calm == old(calm)
      ensures Ok(result) && stackFractions == old(stackFractions)
      ensures Done(told, result)
      decreases |source|, 0, 3
    {
      ghost var inner, lines, table := BodyOf(told, environment, body);
      match EnvironmentKind(environment)
      case Equation =>
        var rendered := RenderNested(body, true, mode, inner);
        if mode != Any {
          TrimSafe(rendered, Limit());
        }
        result := Trim(rendered);
      case Aligned(pairs) =>
        StripSuits(mode, tables, body, display);
        result := RenderAligned(if pairs then StripGroup(body) else body, pairs, lines);
      case Cases =>
        result := RenderCases(body, table);
      case Grid(preamble) =>
        StripSuits(mode, tables, body, display);
        result := RenderMatrix(environment, if preamble then StripGroup(body) else body, told);
      case Unknown =>
        supported := false;
        if mode != Any {
          FreeIsSafe(body, Limit());
        }
        result := body;
    }

    lemma AlignedStep(before: Lines, rows: seq<string>, n: nat, pairs: bool, start: State)
      returns (inner: Meaning, after: Lines)
      requires TellsAlignedLines(before, start, rows, n, pairs) && n < |rows| && before.after == Here()
      ensures |RowSource(rows[n], pairs)| < |source| && TellsNested(inner, Here(), RowSource(rows[n], pairs), true)
      ensures TellsAlignedLines(after, start, rows, n + 1, pairs)
      ensures after == Lines(if Trim(inner.text) != "" then before.lines + [Trim(inner.text)] else before.lines, inner.after)
    {
      assert Spell(true, OfAlignedLines);
      RowSourceIsShorter(rows[n], pairs, Strict(0));
      inner := Nested(World(), Here(), RowSource(rows[n], pairs), true);
      after := AlignedLines(World(), start, rows, n + 1, pairs);
    }

    /** Nothing was read yet. */
    lemma NoneAligned(rows: seq<string>, pairs: bool)
      requires AllShorter(rows, |source|)
      ensures TellsAlignedLines(Lines([], Here()), Here(), rows, 0, pairs)
    {
    }

    lemma AllAligned(told: Lines, before: Lines, rows: seq<string>, pairs: bool, start: State)
      requires TellsAlignedLines(told, start, rows, |rows|, pairs) && TellsAlignedLines(before, start, rows, |rows|, pairs)
      ensures told == before
    {
      assert Spell(true, OfAlignedLines);
    }

    method RenderAligned(body: string, alignedAt: bool, ghost told: Lines) returns (result: string)
      requires Valid() && calm.Loud? && Suits(mode, tables, body, display) && |body| < |source|
      requires TellsAlignedLines(told, Here(), SplitRows(body), |SplitRows(body)|, alignedAt)
      modifies this, list
      ensures Valid() && position == old(position) && Grown(old(list.nodes)) && calm == old(calm)
      ensures Ok(result) && stackFractions == old(stackFractions)
      ensures Done(Meaning(JoinWith(told.lines, "\n"), told.after), result)
      decreases |source|, 0, 2
    {
      var rows := SplitRows(body);
      var lines: seq<string> := [];
      ghost var start := Here();
      NoneAligned(rows, alignedAt);
      for i := 0 to |rows|
        invariant Valid() && position == old(position) && Grown(old(list.nodes)) && calm == old(calm)
        invariant AllOk(lines) && stackFractions == old(stackFractions)
        invariant TellsAlignedLines(Lines(lines, Here()), start, rows, i, alignedAt)
      {
        lines := RenderNextLine(body, i, alignedAt, lines, start);
      }
      AllAligned(told, Lines(lines, Here()), rows, alignedAt, start);
      if mode != Any {
        JoinSafe(lines, "\n", Limit());
      }
      result := JoinWith(lines, "\n");
    }

    /** One line more, unless it is empty. */
    method RenderNextLine(body: string, index: nat, alignedAt: bool, lines: seq<string>, ghost start: State) returns (lines': seq<string>)
      requires Valid() && calm.Loud? && Suits(mode, tables, body, display) && |body| < |source| && index < |SplitRows(body)|
      requires AllOk(lines) && TellsAlignedLines(Lines(lines, Here()), start, SplitRows(body), index, alignedAt)
      modifies this, list
      ensures Valid() && position == old(position) && Grown(old(list.nodes)) && calm == old(calm)
      ensures AllOk(lines') && stackFractions == old(stackFractions)
      ensures TellsAlignedLines(Lines(lines', Here()), start, SplitRows(body), index + 1, alignedAt)
      decreases |source|, 0, 1
    {
      RowSuits(mode, tables, body, index, alignedAt, display);
      ghost var before := Limit();
      ghost var inner, after := AlignedStep(Lines(lines, Here()), SplitRows(body), index, alignedAt, start);
      var rendered := RenderNested(RowSource(SplitRows(body)[index], alignedAt), true, mode, inner);
      if mode != Any {
        TrimSafe(rendered, Limit());
        AllSafeMonotone(lines, before, Limit());
      }
      lines' := if Trim(rendered) != "" then lines + [Trim(rendered)] else lines;
    }

    lemma TableStep(before: Tabled, rows: seq<string>, n: nat, start: State) returns (row: Lines, after: Tabled)
      requires TellsTable(before, start, rows, n) && n < |rows| && before.after == Here()
      ensures var cells := SplitOn(rows[n], '&');
              TellsCells(row, Here(), cells, |cells|) && TellsTable(after, start, rows, n + 1)
      ensures after == Tabled(if HasText(row.lines) then before.rows + [row.lines] else before.rows, row.after)
    {
      assert Spell(true, OfTable);
      var cells := SplitOn(rows[n], '&');
      CellsShorter(rows[n], |source|);
      row := Cells(World(), Here(), cells, |cells|);
      after := Table(World(), start, rows, n + 1);
    }

    lemma WholeTable(told: Tabled, before: Tabled, rows: seq<string>, start: State)
      requires TellsTable(told, start, rows, |rows|) && TellsTable(before, start, rows, |rows|)
      ensures told == before
    {
      assert Spell(true, OfTable);
    }

    ghost predicate RowsOk(table: seq<seq<string>>)
      reads `calm, list
    {
      forall r :: 0 <= r < |table| ==> CellsOk(table[r])
    }

    lemma RowsStayOk(table: seq<seq<string>>, before: Bound)
      requires mode != Any ==> Within(before, CellLimit()) && forall r :: 0 <= r < |table| ==> AllSafe(table[r], before)
      ensures RowsOk(table)
    {
      forall r | mode != Any && 0 <= r < |table| ensures AllSafe(table[r], CellLimit()) {
        AllSafeMonotone(table[r], before, CellLimit());
      }
    }

    /** The cells of an alternative or a matrix, without the rows that are empty throughout. */
    method RenderCells(body: string, ghost told: Tabled) returns (table: seq<seq<string>>)
      requires Valid() && calm.Loud? && Unforged(body) && |body| < |source|
      requires TellsTable(told, Here(), SplitRows(body), |SplitRows(body)|)
      modifies this, list
      ensures Valid() && position == old(position) && Grown(old(list.nodes)) && calm == old(calm)
      ensures |table| <= |SplitRows(body)| && RowsOk(table)
      ensures told == Tabled(table, Here()) && stackFractions == old(stackFractions)
      decreases |source|, 0, 1
    {
      var rows := SplitRows(body);
      table := [];
      ghost var start := Here();
      for i := 0 to |rows|
        invariant Valid() && position == old(position) && Grown(old(list.nodes)) && calm == old(calm)
        invariant |table| <= i && RowsOk(table)
        invariant TellsTable(Tabled(table, Here()), start, rows, i) && stackFractions == old(stackFractions)
      {
        table := RenderNextRow(body, i, table, start);
      }
      WholeTable(told, Tabled(table, Here()), rows, start);
    }

    /** One row more, unless it is empty throughout. */
    method RenderNextRow(body: string, index: nat, table: seq<seq<string>>, ghost start: State) returns (table': seq<seq<string>>)
      requires Valid() && calm.Loud? && Unforged(body) && |body| < |source| && index < |SplitRows(body)|
      requires |table| <= index && RowsOk(table)
      requires TellsTable(Tabled(table, Here()), start, SplitRows(body), index)
      modifies this, list
      ensures Valid() && position == old(position) && Grown(old(list.nodes)) && calm == old(calm)
      ensures |table'| <= index + 1 && RowsOk(table') && stackFractions == old(stackFractions)
      ensures TellsTable(Tabled(table', Here()), start, SplitRows(body), index + 1)
      decreases |source|, 0, 0, 1
    {
      ghost var before := CellLimit();
      ghost var inner, after := TableStep(Tabled(table, Here()), SplitRows(body), index, start);
      var row := RenderRow(body, index, inner);
      RowsStayOk(table, before);
      table' := if HasText(row) then table + [row] else table;
    }

    lemma RowStep(before: Lines, cells: seq<string>, n: nat, start: State) returns (inner: Meaning, after: Lines)
      requires TellsCells(before, start, cells, n) && n < |cells| && before.after == Here()
      ensures TellsNested(inner, Here(), cells[n], false) && TellsCells(after, start, cells, n + 1)
      ensures after == Lines(before.lines + [Trim(inner.text)], inner.after)
    {
      assert Spell(true, OfCells);
      inner := Nested(World(), Here(), cells[n], false);
      after := Cells(World(), start, cells, n + 1);
    }

    lemma WholeRow(told: Lines, before: Lines, cells: seq<string>, start: State)
      requires TellsCells(told, start, cells, |cells|) && TellsCells(before, start, cells, |cells|)
      ensures told == before
    {
      assert Spell(true, OfCells);
    }

    method RenderRow(body: string, index: nat, ghost told: Lines) returns (row: seq<string>)
      requires Valid() && calm.Loud? && Unforged(body) && |body| < |source| && index < |SplitRows(body)|
      requires var cells := SplitOn(SplitRows(body)[index], '&'); TellsCells(told, Here(), cells, |cells|)
      modifies this, list
      ensures Valid() && position == old(position) && Grown(old(list.nodes)) && calm == old(calm)
      ensures CellsOk(row) && stackFractions == old(stackFractions)
      ensures told == Lines(row, Here())
      decreases |source|, 0, 0, 0
    {
      var cells := SplitOn(SplitRows(body)[index], '&');
      row := [];
      ghost var start := Here();
      for i := 0 to |cells|
        invariant Valid() && position == old(position) && Grown(old(list.nodes)) && calm == old(calm)
        invariant CellsOk(row) && stackFractions == old(stackFractions)
        invariant TellsCells(Lines(row, Here()), start, cells, i)
      {
        CellSuits(mode, tables, body, index, i);
        ghost var before := CellLimit();
        ghost var inner, after := RowStep(Lines(row, Here()), cells, i, start);
        var rendered := RenderNested(cells[i], false, CellMode(mode), inner);
        if mode != Any {
          TrimSafe(rendered, CellLimit());
          AllSafeMonotone(row, before, CellLimit());
        }
        row := row + [Trim(rendered)];
      }
      WholeRow(told, Lines(row, Here()), cells, start);
    }

    method CaseLines(rows: seq<seq<string>>, ghost n: Bound) returns (lines: seq<string>)
      requires mode != Any ==> forall i :: 0 <= i < |rows| ==> AllSafe(rows[i], n)
      ensures lines == CaseText(rows, |rows|) && (mode != Any ==> AllSafe(lines, n))
    {
      lines := [];
      for i := 0 to |rows|
        invariant lines == CaseText(rows, i) && (mode != Any ==> AllSafe(lines, n))
      {
        var delimiter := CaseDelimiter(i, |rows|);
        CaseDelimiterFree(i, |rows|);
        if mode != Any {
          CaseLineSafe(delimiter, rows[i], n);
        }
        lines := lines + [CaseLine(delimiter, rows[i])];
      }
    }

    method MatrixLines(environment: string, rows: seq<seq<string>>, ghost n: Bound) returns (lines: seq<string>)
      requires mode != Any ==> forall i :: 0 <= i < |rows| ==> AllSafe(rows[i], n)
      ensures lines == MatrixText(tables, environment, rows, |rows|) && (mode != Any ==> AllSafe(lines, n))
    {
      lines := [];
      for i := 0 to |rows|
        invariant lines == MatrixText(tables, environment, rows, i) && (mode != Any ==> AllSafe(lines, n))
      {
        if mode != Any {
          MatrixLineSafe(tables, environment, rows, i, n);
        }
        lines := lines + [MatrixLine(tables, environment, rows, i)];
      }
    }

    method RenderCases(body: string, ghost told: Tabled) returns (result: string)
      requires Valid() && calm.Loud? && Suits(mode, tables, body, display) && |body| < |source|
      requires TellsTable(told, Here(), SplitRows(body), |SplitRows(body)|)
      modifies this, list
      ensures Valid() && position == old(position) && Grown(old(list.nodes)) && calm == old(calm)
      ensures Ok(result) && stackFractions == old(stackFractions)
      ensures Done(Meaning(JoinWith(CaseText(told.rows, |told.rows|), "\n"), told.after), result)
      decreases |source|, 0, 2
    {
      var rows := RenderCells(body, told);
      var lines := CaseLines(rows, CellLimit());
      if mode != Any {
        AllSafeMonotone(lines, CellLimit(), Limit());
        JoinSafe(lines, "\n", Limit());
      }
      result := JoinWith(lines, "\n");
    }

    lemma GridOf(told: Meaning, environment: string, rows: seq<string>) returns (table: Tabled)
      requires TellsInGrid(told, Here(), environment, rows)
      ensures TellsTable(table, Here(), rows, |rows|)
      ensures var lines := MatrixText(tables, environment, table.rows, |table.rows|);
              told == if |lines| <= 1 then Meaning(if |lines| == 1 then lines[0] else "", table.after)
                      else WithNode(table.after, Matrix(lines, 0))
    {
      assert Spell(true, OfInGrid);
      table := Table(World(), Here(), rows, |rows|);
    }

    method RenderMatrix(environment: string, body: string, ghost told: Meaning) returns (result: string)
      requires Valid() && calm.Loud? && Suits(mode, tables, body, display) && |body| < |source|
      requires TellsInGrid(told, Here(), environment, SplitRows(body))
      modifies this, list
      ensures Valid() && position == old(position) && Grown(old(list.nodes)) && calm == old(calm)
      ensures Ok(result) && stackFractions == old(stackFractions)
      ensures Done(told, result)
      decreases |source|, 0, 2
    {
      ghost var table := GridOf(told, environment, SplitRows(body));
      var rows := RenderCells(body, table);
      var lines := MatrixLines(environment, rows, CellLimit());
      if mode == Bare {
        OneRow(body);
      }
      if mode != Any {
        AllSafeMonotone(lines, CellLimit(), Limit());
        FreeIsSafe("", Limit());
      }
      if |lines| <= 1 {
        result := if |lines| == 1 then lines[0] else "";
      } else {
        MatrixKept(mode, lines, 0, |list.nodes|);
        result := PushNode(Matrix(lines, 0));
      }
    }

    lemma NestedOf(told: Meaning, text: string, stack: bool) returns (whole: Meaning)
      requires TellsNested(told, Here(), text, stack)
      ensures TellsWhole(whole, Env(tables, text, display && stack), list.nodes)
      ensures told == if whole.after.ok then Meaning(whole.text, Here().(nodes := whole.after.nodes))
                      else Meaning(text, State(position, whole.after.nodes, false))
    {
      assert Spell(true, OfNested);
      whole := Whole(Env(tables, text, display && stack), list.nodes);
    }

    method RenderNested(text: string, stack: bool, ghost inner: Mode, ghost told: Meaning) returns (result: string)
      requires Valid() && calm.Loud? && Suits(inner, tables, text, display && stack) && |text| < |source|
      requires inner == mode || inner == CellMode(mode)
      requires TellsNested(told, Here(), text, stack)
      modifies this, list
      ensures Valid() && position == old(position) && Grown(old(list.nodes)) && calm == old(calm)
      ensures (inner == mode ==> Ok(result)) && stackFractions == old(stackFractions)
      ensures inner == CellMode(mode) && mode != Any ==> Safe(result, CellLimit())
      ensures Done(told, result)
      decreases |text|, |text| + 1, 11
    {
      KnowsTables();
      KnowsNodes();
      KeptForCells(mode, list.nodes);
      ghost var whole := NestedOf(told, text, stack);
      var nested := new LatexParser(text, list, display && stack, tables, inner);
      assert nested.World() == Env(tables, text, display && stack);
      var rendered := nested.Render(whole);
      if rendered.None? {
        supported := false;
        if mode != Any {
          FreeIsSafe(text, nested.Limit());
        }
        result := text;
      } else {
        result := rendered.value;
      }
    }
  }

  lemma CaseDelimiterFree(index: nat, count: nat)
    ensures NoMarks(CaseDelimiter(index, count))
  {
  }

  lemma RootTextSafe(t: Tables, degree: Option<string>, value: string, limit: Bound)
    requires t.Valid() && (degree.Some? ==> Safe(degree.value, limit)) && Safe(value, limit)
    ensures Safe(RootText(t, degree, value), limit)
  {
    RootSafe(t, value, "√", limit);
    RootSafe(t, value, "∛", limit);
    RootSafe(t, value, "∜", limit);
    if degree.Some? {
      TrimSafe(degree.value, limit);
      ScriptSafe(t, Trim(degree.value), Sup, limit);
      SafeConcat(FormatScript(t, Trim(degree.value), Sup), FormatRoot(t, value, "√"), limit);
    }
  }

  lemma FractionKept(mode: Mode, numerator: string, denominator: string, t: Tables, k: nat)
    requires mode != Any ==> Safe(numerator, Bound(k, mode == Guarded)) && Safe(denominator, Bound(k, mode == Guarded))
    ensures NodeKept(mode, Fraction(NormalizeOutput(t, numerator), NormalizeOutput(t, denominator)), k)
  {
    if mode != Any {
      var limit := Bound(k, mode == Guarded);
      NormalizeSafe(t, numerator, limit);
      NormalizeSafe(t, denominator, limit);
      SafeMonotone(NormalizeOutput(t, numerator), limit, Loose(k));
      SafeMonotone(NormalizeOutput(t, denominator), limit, Loose(k));
    }
  }

  ghost predicate PartKept(mode: Mode, part: string, k: nat) {
    && (mode != Any ==> Safe(part, Bound(k, mode == Guarded)))
    && (mode == Guarded ==> Unmarked(part))
  }

  lemma OperatorKept(mode: Mode, operator: string, lower: Option<string>, upper: Option<string>, k: nat)
    requires PartKept(mode, operator, k)
    requires (lower.Some? ==> PartKept(mode, lower.value, k)) && (upper.Some? ==> PartKept(mode, upper.value, k))
    ensures NodeKept(mode, Operator(operator, lower, upper), k)
  {
    if mode != Any {
      var limit := Bound(k, mode == Guarded);
      SafeMonotone(operator, limit, Loose(k));
      if lower.Some? { SafeMonotone(lower.value, limit, Loose(k)); }
      if upper.Some? { SafeMonotone(upper.value, limit, Loose(k)); }
    }
  }

  lemma MatrixKept(mode: Mode, lines: seq<string>, baseline: nat, k: nat)
    requires mode != Any ==> AllSafe(lines, if IsPure(mode) then Strict(0) else Loose(k))
    ensures NodeKept(mode, Matrix(lines, baseline), k)
  {
    if IsPure(mode) {
      AllSafeMonotone(lines, Strict(0), Strict(k));
      AllSafeMonotone(lines, Strict(0), Loose(k));
    }
  }

  lemma BracketEnds(source: string, k: nat)
    ensures var end := IndexFrom(source, "]", k);
            end >= 0 ==> source[end] == ']'
  {
    IndexFromIsFirst(source, "]", k);
    var end := IndexFrom(source, "]", k);
    if end >= 0 {
      assert source[end..end + 1][0] == source[end];
    }
  }

  /** The end of an environment starts with a backslash. */
  lemma EndMarkerStarts(source: string, environment: string, position: nat)
    ensures var end := IndexFrom(source, EndMarker(environment), position);
            end >= 0 ==> source[end] == '\\'
  {
    var endMarker := EndMarker(environment);
    IndexFromIsFirst(source, endMarker, position);
    var end := IndexFrom(source, endMarker, position);
    if end >= 0 {
      assert source[end..end + |endMarker|][0] == source[end];
    }
  }

  lemma TameAfterName(t: Tables, s: string, start: nat, end: nat, depth: nat)
    requires IsTame(t, s, start, depth) && start < |s| && s[start] == '\\'
    requires IsName(s, start + 1, end) || IsLineBreak(s, start + 1, end)
    ensures IsTame(t, s, end, depth)
  {
    assert IsTame(t, s, start + 2, depth);
    if IsAsciiLetter(s[start + 1]) {
      TameAfterLetters(t, s, start + 2, end, depth);
    }
  }

  lemma ConstantName(t: Tables, s: string, start: nat, end: nat)
    requires start < |s| && s[start] == '\\' && ConstantAt(t, s, start) && IsName(s, start + 1, end)
    ensures IsConstant(t, s[start + 1..end])
  {
    if IsAsciiLetter(s[start + 1]) {
      LettersStop(s, start + 1, end);
    }
  }

  // ----- Pieces of ParseSequence -----

  /** A full stop at the end of the last line of a matrix keeps what is known of the nodes. */
  lemma DotKept(mode: Mode, nodes: seq<LayoutNode>, k: nat)
    requires Kept(mode, nodes) && k < |nodes| && nodes[k].Matrix?
    ensures var last := |nodes[k].lines| - 1;
            Kept(mode, nodes[k := nodes[k].(lines := nodes[k].lines[last := nodes[k].lines[last] + "."])])
  {
    var node, last := nodes[k], |nodes[k].lines| - 1;
    assert NodeKept(mode, node, k);
    if mode != Any {
      DotKeepsSafe(node, Loose(k));
    }
    if IsPure(mode) {
      DotKeepsSafe(node, Strict(0));
    }
    if mode == Guarded {
      DotKeepsSafe(node, Strict(k));
    }
  }

  lemma DotKeepsSafe(node: LayoutNode, n: Bound)
    requires node.Matrix? && |node.lines| > 1 && NodeSafe(node, n)
    ensures var last := |node.lines| - 1;
            NodeSafe(node.(lines := node.lines[last := node.lines[last] + "."]), n)
  {
    var last := |node.lines| - 1;
    SafeBetween("", node.lines[last], ".", n);
    assert "" + node.lines[last] == node.lines[last];
  }

  lemma OperatorEndSafe(s: string, n: Bound)
    requires Safe(s, n)
    ensures Safe(WithoutOperatorEnd(s), n)
  {
    if EndsWithNamedOperator(s) {
      DropLastSafe(s, n);
    }
  }

  lemma AttachSafe(s: string, script: string, n: Bound)
    requires Safe(s, n) && Safe(script, n)
    ensures Safe(AttachScript(s, script), n)
  {
    OperatorEndSafe(s, n);
    SafeConcat(WithoutOperatorEnd(s), script, n);
    FreeIsSafe([NAMED_END], n);
    SafeConcat(WithoutOperatorEnd(s) + script, [NAMED_END], n);
  }

  lemma AllSafeMonotone(parts: seq<string>, n: Bound, m: Bound)
    requires Within(n, m) && AllSafe(parts, n)
    ensures AllSafe(parts, m)
  {
    forall k | 0 <= k < |parts| ensures Safe(parts[k], m) {
      SafeMonotone(parts[k], n, m);
    }
  }
}
