/**
  What LaTeX source means to the renderer: the parser as functions of the source, the
  position in it, and the layout nodes so far. Source that is not supported has a meaning
  too, with a flag that says so.
*/
module LatexMeaning {
  import opened Decimals
  import opened LatexFormat
  import opened LatexGuards
  import opened LatexText
  import opened Sequences
  import opened WhiteSpace
  import opened Wrappers

  datatype LayoutNode =
    | Fraction(numerator: string, denominator: string)
    | Operator(operator: string, lower: Option<string>, upper: Option<string>)
    | Matrix(lines: seq<string>, baseline: nat)

  const NEGATIVE_SPACE := "\0"

  // ----- Scanning -----

  /** Where the run of digits that ends at k starts. */
  function DigitsBefore(s: string, k: nat): (start: nat)
    requires k <= |s|
    ensures start <= k && forall j :: start <= j < k ==> IsDigit(s[j])
  {
    if k > 0 && IsDigit(s[k - 1]) then DigitsBefore(s, k - 1) else k
  }

  /** The index in the marker at the end of a text. */
  function TrailingMarker(s: string): Option<nat> {
    if s == [] || s[|s| - 1] != MARK_END then None
    else
      var start := DigitsBefore(s, |s| - 1);
      if 0 < start < |s| - 1 && s[start - 1] == MARK_START then Some(ParseDecimal(s[start..|s| - 1])) else None
  }

  predicate EndsWithNamedOperator(s: string) { s != [] && s[|s| - 1] == NAMED_END }

  function WithoutOperatorEnd(s: string): string {
    if EndsWithNamedOperator(s) then s[..|s| - 1] else s
  }

  /** A script after a named operator goes inside the operator's end. */
  function AttachScript(s: string, script: string): string {
    if EndsWithNamedOperator(s) then s[..|s| - 1] + script + [NAMED_END] else s + script
  }

  function AfterBlanks(s: string, k: nat): (end: nat)
    ensures k <= end && (k <= |s| ==> end <= |s|) && (k > |s| ==> end == k)
    ensures end < |s| ==> !IsBlank(s[end])
    ensures forall j :: k <= j < end ==> j < |s| && IsBlank(s[j])
    decreases |s| - k
  {
    if k < |s| && IsBlank(s[k]) then AfterBlanks(s, k + 1) else k
  }

  function AfterSpaces(s: string, k: nat): (end: nat)
    ensures k <= end && (k <= |s| ==> end <= |s|) && (k > |s| ==> end == k)
    ensures end < |s| ==> !IsSpace(s[end])
    ensures forall j :: k <= j < end ==> j < |s| && IsSpace(s[j])
    decreases |s| - k
  {
    if k < |s| && IsSpace(s[k]) then AfterSpaces(s, k + 1) else k
  }

  /**
    The brace that closes `depth` groups that are open at k; what follows a backslash is
    skipped. Without one, where the search ends, which is not in the text any more.
  */
  function MatchingBrace(s: string, k: nat, depth: nat): (end: nat)
    requires depth > 0
    ensures k <= end && (k <= |s| + 1 ==> end <= |s| + 1) && (end < |s| ==> s[end] == '}')
    decreases |s| - k
  {
    if k >= |s| then k
    else if s[k] == '\\' then MatchingBrace(s, k + 2, depth)
    else if s[k] == '{' then MatchingBrace(s, k + 1, depth + 1)
    else if s[k] == '}' then if depth == 1 then k else MatchingBrace(s, k + 1, depth - 1)
    else MatchingBrace(s, k + 1, depth)
  }

  /** Commands that stand for a text of their own whatever the symbol tables say. */
  function FixedText(t: Tables, command: string): Option<string> {
    if command == "\\" then Some("\n")
    else if command in t.spacing then Some(" ")
    else if command in t.negativeSpacing then Some(NEGATIVE_SPACE)
    else if command in t.ignored then Some("")
    else if command in ["{", "}", "$", "%", "#", "_", "&"] then Some(command)
    else if command == "|" then Some("‖")
    else None
  }

  /** A symbol: operators and relations stand between spaces. */
  function SymbolText(t: Tables, command: string): string
    requires command in t.symbols
  {
    if command == "cdot" || command == "times" || command in t.relations then " " + t.symbols[command] + " " else t.symbols[command]
  }

  /** The root sign of a degree; a degree without a sign of its own is written as a script. */
  function RootText(t: Tables, degree: Option<string>, value: string): string {
    if degree.None? || Trim(degree.value) == "2" then FormatRoot(t, value, "√")
    else if Trim(degree.value) == "3" then FormatRoot(t, value, "∛")
    else if Trim(degree.value) == "4" then FormatRoot(t, value, "∜")
    else FormatScript(t, Trim(degree.value), Sup) + FormatRoot(t, value, "√")
  }

  function AccentText(t: Tables, command: string, value: string): string
    requires command in t.accents
  {
    if |value| == 1 then value + [t.accents[command]] else command + "(" + value + ")"
  }

  /** The text of a limit whose argument comes out as this text. */
  function LimitText(t: Tables, argument: string): string { WithoutSpaces(NormalizeOutput(t, argument)) }

  /** Whether limits go above and below, and where that was read up to. */
  datatype Modified = Modified(displayLimits: bool, at: nat)

  const LIMITS := "\\limits"
  const NO_LIMITS := "\\nolimits"

  /** The word stands at k and no letter follows it. */
  predicate WordAt(s: string, word: string, k: nat) {
    k + |word| <= |s| && s[k..k + |word|] == word && (k + |word| < |s| ==> !IsAsciiLetter(s[k + |word|]))
  }

  /** `\limits` or `\nolimits` after blanks. */
  function Modifier(s: string, k: nat, displayLimits: bool): (m: Modified)
    ensures k <= m.at && (k <= |s| + 1 ==> m.at <= |s| + 1)
  {
    var p := AfterBlanks(s, k);
    if WordAt(s, LIMITS, p) then Modified(true, p + |LIMITS|)
    else if WordAt(s, NO_LIMITS, p) then Modified(false, p + |NO_LIMITS|)
    else Modified(displayLimits, k)
  }

  /** The environments: aligned ones may count their columns in pairs, grids may start with a preamble. */
  datatype Environment = Equation | Aligned(pairs: bool) | Cases | Grid(preamble: bool) | Unknown

  function EnvironmentKind(environment: string): Environment {
    if environment in ["equation", "equation*", "displaymath"] then Equation
    else if environment in ["alignedat", "alignat", "alignat*"] then Aligned(true)
    else if environment in ["aligned", "align", "align*", "gather", "gathered", "multline", "multline*", "split"]
    then Aligned(false)
    else if environment in ["cases", "cases*"] then Cases
    else if environment == "array" then Grid(true)
    else if environment in ["matrix", "smallmatrix", "pmatrix", "bmatrix", "Bmatrix", "vmatrix", "Vmatrix"]
    then Grid(false)
    else Unknown
  }

  function EndMarker(environment: string): string { "\\end{" + environment + "}" }

  predicate HasText(row: seq<string>) { exists c :: 0 <= c < |row| && row[c] != "" }

  function MatrixText(t: Tables, environment: string, rows: seq<seq<string>>, count: nat): (lines: seq<string>)
    requires count <= |rows|
    ensures |lines| == count
  {
    if count == 0 then []
    else MatrixText(t, environment, rows, count - 1) + [MatrixLine(t, environment, rows, count - 1)]
  }

  function CaseDelimiter(index: nat, count: nat): string {
    if index == 0 then "⎧" else if index + 1 == count then "⎩" else "⎨"
  }

  function CaseText(rows: seq<seq<string>>, count: nat): (lines: seq<string>)
    requires count <= |rows|
    ensures |lines| == count
  {
    if count == 0 then []
    else CaseText(rows, count - 1) + [CaseLine(CaseDelimiter(count - 1, |rows|), rows[count - 1])]
  }

  // ----- Meaning -----

  /** What does not change while a source is read. */
  datatype Env = Env(t: Tables, s: string, display: bool)

  /** How far the source was read, the nodes so far, and whether all was supported. */
  datatype State = State(at: nat, nodes: seq<LayoutNode>, ok: bool)

  datatype Meaning = Meaning(text: string, after: State)

  function Unsupported(st: State, text: string): Meaning { Meaning(text, st.(ok := false)) }

  /** A new node, and the marker that stands for it. */
  function WithNode(st: State, node: LayoutNode): Meaning {
    Meaning(Marker(|st.nodes|), st.(nodes := st.nodes + [node]))
  }

  /** A full stop after a matrix goes into its last line. */
  function WithDot(nodes: seq<LayoutNode>, k: nat): seq<LayoutNode>
    requires k < |nodes| && nodes[k].Matrix? && nodes[k].lines != []
  {
    var node := nodes[k];
    var lastLine := |node.lines| - 1;
    nodes[k := node.(lines := node.lines[lastLine := node.lines[lastLine] + "."])]
  }

  predicate EndsInMatrix(text: string, nodes: seq<LayoutNode>) {
    var marker := TrailingMarker(text);
    marker.Some? && marker.value < |nodes| && nodes[marker.value].Matrix? && nodes[marker.value].lines != []
  }

  ghost function Left(e: Env, k: nat): nat { if k <= |e.s| then |e.s| + 1 - k else 0 }

  /** Elements up to the end character, or to the end of the source. */
  ghost function Sequence(e: Env, st: State, stack: bool, end: Option<char>, before: string): (m: Meaning)
    ensures st.at <= m.after.at && (m.after.ok ==> st.ok)
    decreases |e.s|, Left(e, st.at), 10
  {
    if st.at >= |e.s| then if end.Some? then Unsupported(st, before) else Meaning(before, st)
    else if end == Some(e.s[st.at]) then Meaning(before, st.(at := st.at + 1))
    else if e.s[st.at] == '}' then Unsupported(st, before)
    else
      var m := Element(e, st, stack, before);
      Sequence(e, m.after, stack, end, m.text)
  }

  /** One element, and what it makes of the text before it. */
  ghost function Element(e: Env, st: State, stack: bool, before: string): (m: Meaning)
    requires st.at < |e.s|
    ensures st.at < m.after.at && (m.after.ok ==> st.ok)
    decreases |e.s|, Left(e, st.at), 9
  {
    var c, next := e.s[st.at], st.(at := st.at + 1);
    if c == '{' then
      var m := Sequence(e, next, stack, Some('}'), "");
      m.(text := before + m.text)
    else if c == '\\' then
      var m := Command(e, st, stack);
      m.(text := if m.text == NEGATIVE_SPACE then WithoutOperatorEnd(TrimEnd(before)) else before + m.text)
    else if c == '^' || c == '_' then
      var m := Argument(e, next, false);
      m.(text := AttachScript(TrimEnd(before), FormatScript(e.t, m.text, if c == '_' then Sub else Sup)))
    else Character(e, st, before)
  }

  /** A character without a syntax of its own. */
  ghost function Character(e: Env, st: State, before: string): (m: Meaning)
    requires st.at < |e.s|
    ensures st.at < m.after.at && (m.after.ok ==> st.ok)
  {
    var c, next := e.s[st.at], st.(at := st.at + 1);
    if IsSpace(c) then Meaning(before + " ", st.(at := AfterSpaces(e.s, st.at + 1)))
    else if c == '=' || c == '<' || c == '>' then Meaning(TrimEnd(before) + (" " + [c] + " "), next)
    else if c == '&' then Meaning(before, next)
    else if c == '~' then Meaning(before + " ", next)
    else if c == '.' && EndsInMatrix(before, st.nodes)
    then Meaning(before, next.(nodes := WithDot(st.nodes, TrailingMarker(before).value)))
    else Meaning(before + [c], next)
  }

  ghost function Command(e: Env, st: State, stack: bool): (m: Meaning)
    requires st.at < |e.s|
    ensures st.at < m.after.at && (m.after.ok ==> st.ok)
    decreases |e.s|, Left(e, st.at), 0
  {
    var p := st.at + 1;
    if p >= |e.s| then Unsupported(st.(at := p), "")
    else if e.s[p] == '\n' || e.s[p] == '\r' then
      Meaning(" ", st.(at := if e.s[p] == '\r' && p + 1 < |e.s| && e.s[p + 1] == '\n' then p + 2 else p + 1))
    else
      var end := if IsAsciiLetter(e.s[p]) then LettersEnd(e.s, p) else p + 1;
      Interpreted(e, st.(at := end), stack, e.s[p..end])
  }

  ghost function Interpreted(e: Env, st: State, stack: bool, command: string): (m: Meaning)
    ensures st.at <= m.after.at && (m.after.ok ==> st.ok)
    decreases |e.s|, Left(e, st.at), 8
  {
    if FixedText(e.t, command).Some? then Meaning(FixedText(e.t, command).value, st)
    else if command == "not" then Negation(e, st)
    else if command in e.t.limitOperators then WithLimits(e, st, command, true, true, true)
    else if command in e.t.symbols then Symbol(e, st, command)
    else Named(e, st, stack, command)
  }

  ghost function Negation(e: Env, st: State): (m: Meaning)
    ensures st.at <= m.after.at && (m.after.ok ==> st.ok)
    decreases |e.s|, Left(e, st.at), 4
  {
    var m := Argument(e, st, false);
    var value := Trim(m.text);
    if value in e.t.negated then m.(text := " " + e.t.negated[value] + " ")
    else if value == "" then Unsupported(m.after, "")
    else m.(text := StrikeThrough(value))
  }

  ghost function Symbol(e: Env, st: State, command: string): (m: Meaning)
    requires command in e.t.symbols
    ensures st.at <= m.after.at && (m.after.ok ==> st.ok)
    decreases |e.s|, Left(e, st.at), 7
  {
    if command in e.t.displayLimitSymbols then WithLimits(e, st, e.t.symbols[command], false, true, false)
    else Meaning(SymbolText(e.t, command), st)
  }

  ghost function Named(e: Env, st: State, stack: bool, command: string): (m: Meaning)
    ensures st.at <= m.after.at && (m.after.ok ==> st.ok)
    decreases |e.s|, Left(e, st.at), 7
  {
    if command in e.t.namedOperators then Meaning([NAMED_START] + command + [NAMED_END], st)
    else if command in e.t.sizes then Meaning("", st)
    else if command == "left" || command == "middle" || command == "right" then
      Meaning("", if st.at < |e.s| && e.s[st.at] == '.' then st.(at := st.at + 1) else st)
    else if command == "frac" || command == "dfrac" || command == "tfrac" then AFraction(e, st, stack, command != "tfrac")
    else if command == "sqrt" then Root(e, st, stack)
    else if command == "boxed" || command == "fbox" then Boxed(e, st, stack)
    else if command == "binom" || command == "dbinom" || command == "tbinom" then Binomial(e, st, stack)
    else if command in e.t.accents then Accented(e, st, stack, command)
    else if command == "mathbb" then Doubled(e, st, stack)
    else if command == "operatorname" then OperatorName(e, st, stack)
    else Rest(e, st, stack, command)
  }

  ghost function Rest(e: Env, st: State, stack: bool, command: string): (m: Meaning)
    ensures st.at <= m.after.at && (m.after.ok ==> st.ok)
    decreases |e.s|, Left(e, st.at), 6
  {
    if command == "mod" || command == "bmod" then Meaning(" mod ", st)
    else if command == "pmod" || command == "pod" then Modulus(e, st, stack, command == "pmod")
    else if command == "overset" || command == "stackrel" then Stacked(e, st, stack, Sup)
    else if command == "underset" then Stacked(e, st, stack, Sub)
    else if command in e.t.plainWrappers then Wrapped(e, st, stack, "text" <= command || command == "mbox")
    else if command == "begin" then InEnvironment(e, st)
    else if command == "end" then Unsupported(st, "")
    else Unsupported(st, "\\" + command)
  }

  // ----- Commands with arguments -----

  ghost function Boxed(e: Env, st: State, stack: bool): (m: Meaning)
    ensures st.at <= m.after.at && (m.after.ok ==> st.ok)
    decreases |e.s|, Left(e, st.at), 4
  {
    var m := Argument(e, st, stack);
    m.(text := "[" + Trim(m.text) + "]")
  }

  ghost function Accented(e: Env, st: State, stack: bool, command: string): (m: Meaning)
    requires command in e.t.accents
    ensures st.at <= m.after.at && (m.after.ok ==> st.ok)
    decreases |e.s|, Left(e, st.at), 4
  {
    var m := Argument(e, st, stack);
    m.(text := AccentText(e.t, command, m.text))
  }

  ghost function Doubled(e: Env, st: State, stack: bool): (m: Meaning)
    ensures st.at <= m.after.at && (m.after.ok ==> st.ok)
    decreases |e.s|, Left(e, st.at), 4
  {
    var m := Argument(e, st, stack);
    m.(text := Blackboard(e.t, m.text))
  }

  ghost function Modulus(e: Env, st: State, stack: bool, named: bool): (m: Meaning)
    ensures st.at <= m.after.at && (m.after.ok ==> st.ok)
    decreases |e.s|, Left(e, st.at), 4
  {
    var m := Argument(e, st, stack);
    m.(text := (if named then " (mod " else " (") + Trim(m.text) + ")")
  }

  ghost function Wrapped(e: Env, st: State, stack: bool, asIs: bool): (m: Meaning)
    ensures st.at <= m.after.at && (m.after.ok ==> st.ok)
    decreases |e.s|, Left(e, st.at), 4
  {
    var m := Argument(e, st, stack);
    m.(text := if asIs then m.text else Trim(m.text))
  }

  datatype Two = Two(first: string, second: string, after: State)

  ghost function TwoArguments(e: Env, st: State, stack: bool): (m: Two)
    ensures st.at <= m.after.at && (m.after.ok ==> st.ok)
    decreases |e.s|, Left(e, st.at), 4
  {
    var first := Argument(e, st, stack);
    var second := Argument(e, first.after, stack);
    Two(first.text, second.text, second.after)
  }

  ghost function Binomial(e: Env, st: State, stack: bool): (m: Meaning)
    ensures st.at <= m.after.at && (m.after.ok ==> st.ok)
    decreases |e.s|, Left(e, st.at), 5
  {
    var two := TwoArguments(e, st, stack);
    Meaning("(" + two.first + " choose " + (two.second + ")"), two.after)
  }

  ghost function Stacked(e: Env, st: State, stack: bool, kind: Kind): (m: Meaning)
    ensures st.at <= m.after.at && (m.after.ok ==> st.ok)
    decreases |e.s|, Left(e, st.at), 5
  {
    var two := TwoArguments(e, st, stack);
    Meaning(Trim(two.second) + FormatScript(e.t, two.first, kind), two.after)
  }

  /** A stacked fraction becomes a node, and the fractions inside it do not stack. */
  ghost function AFraction(e: Env, st: State, stack: bool, stackable: bool): (m: Meaning)
    ensures st.at <= m.after.at && (m.after.ok ==> st.ok)
    decreases |e.s|, Left(e, st.at), 5
  {
    var stacks := e.display && stack && stackable;
    var two := TwoArguments(e, st, stack && !stacks);
    if stacks then WithNode(two.after, Fraction(NormalizeOutput(e.t, two.first), NormalizeOutput(e.t, two.second)))
    else Meaning(FormatFraction(e.t, two.first, two.second), two.after)
  }

  datatype Optional = Optional(value: Option<string>, after: State)

  ghost function OptionalArgument(e: Env, st: State): (m: Optional)
    ensures st.at <= m.after.at && (m.after.ok ==> st.ok)
    decreases |e.s|, Left(e, st.at), 3
  {
    var k := AfterBlanks(e.s, st.at);
    if k >= |e.s| || e.s[k] != '[' then Optional(None, st.(at := k))
    else
      var close := IndexFrom(e.s, "]", k + 1);
      if close < 0 then Optional(None, State(k, st.nodes, false))
      else
        var m := Nested(e, st.(at := close + 1), e.s[k + 1..close], true);
        Optional(Some(m.text), m.after)
  }

  ghost function Root(e: Env, st: State, stack: bool): (m: Meaning)
    ensures st.at <= m.after.at && (m.after.ok ==> st.ok)
    decreases |e.s|, Left(e, st.at), 4
  {
    var degree := OptionalArgument(e, st);
    var m := Argument(e, degree.after, stack);
    m.(text := RootText(e.t, degree.value, m.text))
  }

  ghost function OperatorName(e: Env, st: State, stack: bool): (m: Meaning)
    ensures st.at <= m.after.at && (m.after.ok ==> st.ok)
    decreases |e.s|, Left(e, st.at), 6
  {
    var starred := st.at < |e.s| && e.s[st.at] == '*';
    var m := Argument(e, if starred then st.(at := st.at + 1) else st, stack);
    WithLimits(e, m.after, Trim(NormalizeOutput(e.t, m.text)), true, starred, true)
  }

  datatype Limited = Limited(lower: Option<string>, upper: Option<string>, after: State)

  /** The scripts after an operator; a second one of a kind is not supported. */
  ghost function Limits(e: Env, st: State, lower: Option<string>, upper: Option<string>): (m: Limited)
    ensures st.at <= m.after.at && (m.after.ok ==> st.ok)
    decreases |e.s|, Left(e, st.at), 4
  {
    var k := AfterBlanks(e.s, st.at);
    if k >= |e.s| || (e.s[k] != '_' && e.s[k] != '^') then Limited(lower, upper, st)
    else
      var m := Argument(e, st.(at := k + 1), false);
      var value := Some(LimitText(e.t, m.text));
      if e.s[k] == '_' then Limits(e, m.after.(ok := m.after.ok && lower.None?), value, upper)
      else Limits(e, m.after.(ok := m.after.ok && upper.None?), lower, value)
  }

  ghost function WithLimits(e: Env, st: State, operator: string, bracket: bool, displayLimits: bool, spaced: bool): (m: Meaning)
    ensures st.at <= m.after.at && (m.after.ok ==> st.ok)
    decreases |e.s|, Left(e, st.at), 5
  {
    var modified := Modifier(e.s, st.at, displayLimits);
    var m := Limits(e, st.(at := modified.at), None, None);
    if e.display && modified.displayLimits && (m.lower.Some? || m.upper.Some?)
    then WithNode(m.after, Operator(operator, m.lower, m.upper))
    else Meaning(OperatorText(e.t, operator, m.lower, m.upper, bracket, spaced), m.after)
  }

  /** A character, a command or a group, after white space. */
  ghost function Argument(e: Env, st: State, stack: bool): (m: Meaning)
    ensures st.at <= m.after.at && (m.after.ok ==> st.ok)
    decreases |e.s|, Left(e, st.at), 3
  {
    var k := AfterSpaces(e.s, st.at);
    if k >= |e.s| then Unsupported(st.(at := k), "")
    else if e.s[k] == '{' then Sequence(e, st.(at := k + 1), stack, Some('}'), "")
    else if e.s[k] == '\\' then Command(e, st.(at := k), stack)
    else Meaning([e.s[k]], st.(at := k + 1))
  }

  // ----- Nested source -----

  /** A whole source: supported only if all of it was read. */
  ghost function Whole(e: Env, nodes: seq<LayoutNode>): Meaning
    decreases |e.s|, Left(e, 0), 11
  {
    var m := Sequence(e, State(0, nodes, true), true, None, "");
    Meaning(NormalizeOutput(e.t, m.text), m.after.(ok := m.after.ok && m.after.at == |e.s|))
  }

  /** A piece of the source that is read by itself; where it is not supported it stays as it is. */
  ghost function Nested(e: Env, st: State, text: string, stack: bool): (m: Meaning)
    requires |text| < |e.s|
    ensures m.after.at == st.at && (m.after.ok ==> st.ok)
    decreases |e.s|, 0, 0
  {
    var m := Whole(Env(e.t, text, e.display && stack), st.nodes);
    if m.after.ok then Meaning(m.text, st.(nodes := m.after.nodes)) else Meaning(text, State(st.at, m.after.nodes, false))
  }

  ghost function InEnvironment(e: Env, st: State): (m: Meaning)
    ensures st.at <= m.after.at && (m.after.ok ==> st.ok)
    decreases |e.s|, Left(e, st.at), 5
  {
    var k := AfterBlanks(e.s, st.at);
    if k >= |e.s| || e.s[k] != '{' then Unsupported(st.(at := k), "")
    else
      var close := MatchingBrace(e.s, k + 1, 1);
      if close >= |e.s| then Unsupported(st.(at := close), "")
      else if close == k + 1 then Meaning("", st.(at := close + 1))
      else InBody(e, st.(at := close + 1), e.s[k + 1..close])
  }

  ghost function InBody(e: Env, st: State, environment: string): (m: Meaning)
    requires 0 < st.at <= |e.s|
    ensures st.at <= m.after.at && (m.after.ok ==> st.ok)
    decreases |e.s|, Left(e, st.at), 4
  {
    BodyUpTo(e, st, environment, IndexFrom(e.s, EndMarker(environment), st.at))
  }

  /** The body of an environment, up to where its end stands, if it does. */
  ghost function BodyUpTo(e: Env, st: State, environment: string, end: int): (m: Meaning)
    requires 0 < st.at <= |e.s| && (end >= 0 ==> st.at <= end < |e.s|)
    ensures st.at <= m.after.at && (m.after.ok ==> st.ok)
    decreases |e.s|, Left(e, st.at), 3
  {
    if end < 0 then Unsupported(st, "")
    else Body(e, st.(at := end + |EndMarker(environment)|), environment, e.s[st.at..end])
  }

  ghost predicate AllShorter(parts: seq<string>, n: nat) {
    forall k :: 0 <= k < |parts| ==> |parts[k]| < n
  }

  lemma RowsShorter(body: string, n: nat)
    requires |body| < n
    ensures AllShorter(SplitRows(body), n) && AllShorter(SplitRows(StripGroup(body)), n)
  {
    RowsAreShorter(body);
    RowsAreShorter(StripGroup(body));
  }

  lemma CellsShorter(row: string, n: nat)
    requires |row| < n
    ensures AllShorter(SplitOn(row, '&'), n)
  {
    CellsAreShorter(row, Strict(0));
  }

  ghost function Body(e: Env, st: State, environment: string, body: string): (m: Meaning)
    requires |body| < |e.s|
    ensures m.after.at == st.at && (m.after.ok ==> st.ok)
    decreases |e.s|, 0, 4
  {
    RowsShorter(body, |e.s|);
    match EnvironmentKind(environment)
    case Equation =>
      var m := Nested(e, st, body, true);
      m.(text := Trim(m.text))
    case Aligned(pairs) =>
      var rows := SplitRows(if pairs then StripGroup(body) else body);
      var m := AlignedLines(e, st, rows, |rows|, pairs);
      Meaning(JoinWith(m.lines, "\n"), m.after)
    case Cases =>
      var rows := SplitRows(body);
      var m := Table(e, st, rows, |rows|);
      Meaning(JoinWith(CaseText(m.rows, |m.rows|), "\n"), m.after)
    case Grid(preamble) => InGrid(e, st, environment, SplitRows(if preamble then StripGroup(body) else body))
    case Unknown => Unsupported(st, body)
  }

  /** A table of several lines becomes a node. */
  ghost function InGrid(e: Env, st: State, environment: string, rows: seq<string>): (m: Meaning)
    requires AllShorter(rows, |e.s|)
    ensures m.after.at == st.at && (m.after.ok ==> st.ok)
    decreases |e.s|, 0, 3
  {
    var m := Table(e, st, rows, |rows|);
    var lines := MatrixText(e.t, environment, m.rows, |m.rows|);
    if |lines| <= 1 then Meaning(if |lines| == 1 then lines[0] else "", m.after) else WithNode(m.after, Matrix(lines, 0))
  }

  datatype Lines = Lines(lines: seq<string>, after: State)

  /** The first n rows of an aligned environment, each read by itself; those that come out empty are dropped. */
  ghost function AlignedLines(e: Env, st: State, rows: seq<string>, n: nat, pairs: bool): (m: Lines)
    requires n <= |rows| && AllShorter(rows, |e.s|)
    ensures m.after.at == st.at && (m.after.ok ==> st.ok)
    decreases |e.s|, 0, 1, n
  {
    if n == 0 then Lines([], st)
    else
      var before := AlignedLines(e, st, rows, n - 1, pairs);
      RowSourceIsShorter(rows[n - 1], pairs, Strict(0));
      var m := Nested(e, before.after, RowSource(rows[n - 1], pairs), true);
      Lines(if Trim(m.text) != "" then before.lines + [Trim(m.text)] else before.lines, m.after)
  }

  /** The first n cells of a row, each read by itself; fractions in them do not stack. */
  ghost function Cells(e: Env, st: State, cells: seq<string>, n: nat): (m: Lines)
    requires n <= |cells| && AllShorter(cells, |e.s|)
    ensures m.after.at == st.at && (m.after.ok ==> st.ok)
    decreases |e.s|, 0, 1, n
  {
    if n == 0 then Lines([], st)
    else
      var before := Cells(e, st, cells, n - 1);
      var m := Nested(e, before.after, cells[n - 1], false);
      Lines(before.lines + [Trim(m.text)], m.after)
  }

  datatype Tabled = Tabled(rows: seq<seq<string>>, after: State)

  /** The first n rows of a table; those whose cells all come out empty are dropped. */
  ghost function Table(e: Env, st: State, rows: seq<string>, n: nat): (m: Tabled)
    requires n <= |rows| && AllShorter(rows, |e.s|)
    ensures m.after.at == st.at && (m.after.ok ==> st.ok)
    decreases |e.s|, 0, 2, n
  {
    if n == 0 then Tabled([], st)
    else
      var before := Table(e, st, rows, n - 1);
      CellsShorter(rows[n - 1], |e.s|);
      var cells := SplitOn(rows[n - 1], '&');
      var m := Cells(e, before.after, cells, |cells|);
      Tabled(if HasText(m.lines) then before.rows + [m.lines] else before.rows, m.after)
  }
}
