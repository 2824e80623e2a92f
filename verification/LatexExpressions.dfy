/**
  Formulas as trees, written as LaTeX source and rendered. The source of every formula is
  supported, and what it comes out as is put together from what its parts come out as.
*/
module LatexExpressions {
  import opened LatexFormat
  import opened LatexGuards
  import opened LatexMeaning
  import opened LatexReadings
  import opened LatexText
  import opened LatexWriting
  import opened Sequences
  import opened WhiteSpace
  import opened Wrappers

  datatype Formula =
    | Text(text: string)
    | Then(first: Formula, second: Formula)
    | Grouped(body: Formula)
    | Super(script: Formula)
    | Lower(script: Formula)
    | Symbol(command: string)
    | Relation(sign: char)
    | Tie
    | Over(above: Formula, below: Formula)
    | Root(radicand: Formula)
    | Framed(body: Formula)
    | Choose(above: Formula, below: Formula)
    | Accent(command: string, body: Formula)

  /** The source of a formula. */
  function Source(f: Formula): string {
    match f
    case Text(text) => text
    case Then(first, second) => Source(first) + Source(second)
    case Grouped(body) => "{" + Source(body) + "}"
    case Super(script) => "^" + ("{" + Source(script) + "}")
    case Lower(script) => "_" + ("{" + Source(script) + "}")
    case Symbol(command) => "{" + ("\\" + command) + "}"
    case Relation(sign) => [sign]
    case Tie => "~"
    case Over(above, below) => "\\frac" + (("{" + Source(above) + "}") + ("{" + Source(below) + "}"))
    case Root(radicand) => "\\sqrt" + ("{" + Source(radicand) + "}")
    case Framed(body) => "\\boxed" + ("{" + Source(body) + "}")
    case Choose(above, below) => "\\binom" + (("{" + Source(above) + "}") + ("{" + Source(below) + "}"))
    case Accent(command, body) => ("\\" + command) + ("{" + Source(body) + "}")
  }

  /** Text is of ordinary characters, and the tables know the commands. */
  ghost predicate IsWellFormed(t: Tables, f: Formula) {
    match f
    case Text(text) => forall j :: 0 <= j < |text| ==> IsOrdinary(text[j]) && text[j] != '.'
    case Then(first, second) => IsWellFormed(t, first) && IsWellFormed(t, second)
    case Grouped(body) => IsWellFormed(t, body)
    case Super(script) => IsWellFormed(t, script)
    case Lower(script) => IsWellFormed(t, script)
    case Symbol(command) => IsWord(command) && IsPlainSymbol(t, command)
    case Relation(sign) => sign == '=' || sign == '<' || sign == '>'
    case Tie => true
    case Over(above, below) => IsFree(t, "frac") && IsWellFormed(t, above) && IsWellFormed(t, below)
    case Root(radicand) => IsFree(t, "sqrt") && IsWellFormed(t, radicand)
    case Framed(body) => IsFree(t, "boxed") && IsWellFormed(t, body)
    case Choose(above, below) => IsFree(t, "binom") && IsWellFormed(t, above) && IsWellFormed(t, below)
    case Accent(command, body) => IsAccent(t, command) && IsWellFormed(t, body)
  }

  ghost predicate IsPlainSymbol(t: Tables, command: string) {
    && |command| > 1 && command != "not" && command in t.symbols && command !in t.displayLimitSymbols && t.symbols[command] != "\0"
    && command !in t.spacing && command !in t.negativeSpacing && command !in t.ignored && command !in t.limitOperators
  }

  ghost predicate IsAccent(t: Tables, command: string) {
    && IsWord(command) && |command| > 1 && IsFree(t, command) && command in t.accents && !HasOwnReading(command)
  }

  /** What a formula comes out as: the text so far, and the nodes. */
  datatype Written = Written(text: string, nodes: seq<LayoutNode>)

  /** What a formula comes out as behind this text, with these nodes. */
  ghost function Write(t: Tables, display: bool, stack: bool, before: string, nodes: seq<LayoutNode>, f: Formula): Written
    requires IsWellFormed(t, f)
    decreases f
  {
    match f
    case Text(text) => Written(before + text, nodes)
    case Then(first, second) =>
      var w := Write(t, display, stack, before, nodes, first);
      Write(t, display, stack, w.text, w.nodes, second)
    case Grouped(body) =>
      var w := Write(t, display, stack, "", nodes, body);
      Written(before + w.text, w.nodes)
    case Super(script) =>
      var w := Write(t, display, false, "", nodes, script);
      Written(AttachScript(TrimEnd(before), FormatScript(t, w.text, Sup)), w.nodes)
    case Lower(script) =>
      var w := Write(t, display, false, "", nodes, script);
      Written(AttachScript(TrimEnd(before), FormatScript(t, w.text, Sub)), w.nodes)
    case Symbol(command) => Written(before + SymbolText(t, command), nodes)
    case Relation(sign) => Written(TrimEnd(before) + (" " + [sign] + " "), nodes)
    case Tie => Written(before + " ", nodes)
    case Over(above, below) =>
      var stacks := display && stack;
      var a := Write(t, display, stack && !stacks, "", nodes, above);
      var b := Write(t, display, stack && !stacks, "", a.nodes, below);
      if stacks then Written(before + Marker(|b.nodes|), b.nodes + [Fraction(NormalizeOutput(t, a.text), NormalizeOutput(t, b.text))])
      else Written(before + FormatFraction(t, a.text, b.text), b.nodes)
    case Root(radicand) =>
      var w := Write(t, display, stack, "", nodes, radicand);
      Written(before + FormatRoot(t, w.text, "√"), w.nodes)
    case Framed(body) =>
      var w := Write(t, display, stack, "", nodes, body);
      Written(before + ("[" + Trim(w.text) + "]"), w.nodes)
    case Choose(above, below) =>
      var a := Write(t, display, stack, "", nodes, above);
      var b := Write(t, display, stack, "", a.nodes, below);
      Written(before + ("(" + a.text + " choose " + (b.text + ")")), b.nodes)
    case Accent(command, body) =>
      var w := Write(t, display, stack, "", nodes, body);
      Written(before + (if |w.text| == 1 then w.text + [t.accents[command]] else command + "(" + w.text + ")"), w.nodes)
  }

  // ----- Pieces of source -----

  ghost predicate StandsAt(s: string, k: nat, piece: string) { k + |piece| <= |s| && s[k..k + |piece|] == piece }

  lemma PartsStand(s: string, k: nat, a: string, b: string)
    requires StandsAt(s, k, a + b)
    ensures StandsAt(s, k, a) && StandsAt(s, k + |a|, b)
  {
    var piece := s[k..k + |a + b|];
    assert s[k..k + |a|] == piece[..|a|] && s[k + |a|..k + |a| + |b|] == piece[|a|..];
  }

  lemma BracesStand(s: string, k: nat, body: string)
    requires StandsAt(s, k, "{" + body + "}")
    ensures s[k] == '{' && StandsAt(s, k + 1, body) && k + 1 + |body| < |s| && s[k + 1 + |body|] == '}'
  {
    PartsStand(s, k, "{" + body, "}");
    PartsStand(s, k, "{", body);
    assert s[k..k + 1][0] == '{' && s[k + 1 + |body|..k + 2 + |body|][0] == '}';
  }

  lemma NameStands(s: string, k: nat, command: string, rest: string)
    requires IsWord(command) && StandsAt(s, k, ("\\" + command) + rest) && rest != "" && !IsAsciiLetter(rest[0])
    ensures Spelled(s, k, command) && StandsAt(s, k + 1 + |command|, rest)
  {
    PartsStand(s, k, "\\" + command, rest);
    PartsStand(s, k, "\\", command);
    assert s[k..k + 1][0] == '\\';
    var p := k + 1 + |command|;
    assert s[p] == s[p..p + |rest|][0] == rest[0];
  }

  // ----- What the reader was told -----

  ghost predicate IsSequence(told: Meaning, e: Env, st: State, stack: bool, end: Option<char>, before: string) {
    forall details :: Spell(details) ==> told == Sequence(e, st, stack, end, before)
  }

  lemma ElementGoesOn(told: Meaning, e: Env, st: State, stack: bool, end: Option<char>, before: string, m: Meaning)
    requires IsSequence(told, e, st, stack, end, before) && (end.Some? ==> end == Some('}'))
    requires st.at < |e.s| && e.s[st.at] != '}' && m == Element(e, st, stack, before)
    ensures IsSequence(told, e, m.after, stack, end, m.text)
  {
    assert Spell(true);
  }

  lemma CommandGoesOn(told: Meaning, e: Env, st: State, stack: bool, end: Option<char>, before: string, m: Meaning)
    requires IsSequence(told, e, st, stack, end, before) && (end.Some? ==> end == Some('}'))
    requires st.at < |e.s| && e.s[st.at] == '\\' && m == Command(e, st, stack) && m.text != "\0"
    ensures IsSequence(told, e, m.after, stack, end, before + m.text)
  {
    CommandIsAppended(e, st, stack, before);
    ElementGoesOn(told, e, st, stack, end, before, Element(e, st, stack, before));
  }

  lemma TextGoesOn(told: Meaning, e: Env, st: State, stack: bool, end: Option<char>, before: string, text: string)
    requires IsSequence(told, e, st, stack, end, before) && (end.Some? ==> end == Some('}')) && StandsAt(e.s, st.at, text)
    requires forall j :: 0 <= j < |text| ==> IsOrdinary(text[j]) && text[j] != '.'
    ensures IsSequence(told, e, st.(at := st.at + |text|), stack, end, before + text)
  {
    TextIsAppended(e, st, stack, end, before, text);
    assert Spell(true);
  }

  lemma Closes(told: Meaning, e: Env, st: State, stack: bool, before: string)
    requires IsSequence(told, e, st, stack, Some('}'), before) && st.at < |e.s| && e.s[st.at] == '}'
    ensures told == Meaning(before, st.(at := st.at + 1))
  {
    SequenceEnds(e, st, stack, Some('}'), before);
    assert Spell(true);
  }

  // ----- Every formula is read -----

  /** What the reader has got, and where it is, behind a formula. */
  ghost function Past(e: Env, st: State, stack: bool, before: string, f: Formula): Meaning
    requires IsWellFormed(e.t, f)
  {
    var w := Write(e.t, e.display, stack, before, st.nodes, f);
    Meaning(w.text, State(st.at + |Source(f)|, w.nodes, st.ok))
  }

  /** A group in braces. */
  lemma {:induction false} GroupReads(e: Env, st: State, stack: bool, body: Formula)
    requires IsWellFormed(e.t, body) && StandsAt(e.s, st.at, "{" + Source(body) + "}")
    ensures var m := Past(e, st, stack, "", body);
            Sequence(e, st.(at := st.at + 1), stack, Some('}'), "") == m.(after := m.after.(at := m.after.at + 2))
    decreases body, 7
  {
    BracesStand(e.s, st.at, Source(body));
    var inner := st.(at := st.at + 1);
    var told := Sequence(e, inner, stack, Some('}'), "");
    FormulaReads(told, e, inner, stack, Some('}'), "", body);
    var m := Past(e, inner, stack, "", body);
    Closes(told, e, m.after, stack, m.text);
  }

  lemma {:induction false} ArgumentIsGroup(e: Env, st: State, stack: bool, body: Formula)
    requires IsWellFormed(e.t, body) && StandsAt(e.s, st.at, "{" + Source(body) + "}")
    ensures var m := Past(e, st, stack, "", body);
            Argument(e, st, stack) == m.(after := m.after.(at := m.after.at + 2))
    decreases body, 8
  {
    GroupReads(e, st, stack, body);
    BracesStand(e.s, st.at, Source(body));
    ArgumentReads(e, st, stack);
  }

  lemma ScriptGoesOn(told: Meaning, e: Env, st: State, stack: bool, end: Option<char>, before: string, kind: Kind, m: Meaning)
    requires IsSequence(told, e, st, stack, end, before) && (end.Some? ==> end == Some('}'))
    requires st.at < |e.s| && e.s[st.at] == (if kind == Sup then '^' else '_') && m == Argument(e, st.(at := st.at + 1), false)
    ensures IsSequence(told, e, m.after, stack, end, AttachScript(TrimEnd(before), FormatScript(e.t, m.text, kind)))
  {
    if kind == Sup {
      SuperscriptIsAppended(e, st, stack, before);
    } else {
      SubscriptIsAppended(e, st, stack, before);
    }
    ElementGoesOn(told, e, st, stack, end, before, Element(e, st, stack, before));
  }

  lemma MarkStands(s: string, k: nat, mark: string, rest: string)
    requires |mark| == 1 && StandsAt(s, k, mark + rest)
    ensures k < |s| && s[k] == mark[0] && StandsAt(s, k + 1, rest)
  {
    PartsStand(s, k, mark, rest);
    assert s[k..k + 1][0] == mark[0];
  }

  lemma {:induction false} ScriptReads(told: Meaning, e: Env, st: State, stack: bool, end: Option<char>, before: string, kind: Kind, script: Formula)
    requires IsSequence(told, e, st, stack, end, before) && (end.Some? ==> end == Some('}')) && IsWellFormed(e.t, script)
    requires StandsAt(e.s, st.at, (if kind == Sup then "^" else "_") + ("{" + Source(script) + "}"))
    ensures var m := Past(e, st.(at := st.at + 1), false, "", script);
            IsSequence(told, e, m.after.(at := m.after.at + 2), stack, end, AttachScript(TrimEnd(before), FormatScript(e.t, m.text, kind)))
    decreases script, 9
  {
    MarkStands(e.s, st.at, if kind == Sup then "^" else "_", "{" + Source(script) + "}");
    ArgumentIsGroup(e, st.(at := st.at + 1), false, script);
    ScriptGoesOn(told, e, st, stack, end, before, kind, Argument(e, st.(at := st.at + 1), false));
  }

  /** A command with one argument in braces. */
  lemma {:induction false} OneGroup(e: Env, st: State, stack: bool, command: string, body: Formula) returns (m: Meaning)
    requires IsWellFormed(e.t, body) && IsWord(command) && StandsAt(e.s, st.at, ("\\" + command) + ("{" + Source(body) + "}"))
    ensures Spelled(e.s, st.at, command)
    ensures m == Argument(e, LatexReadings.Behind(st, command), stack)
    ensures var w := Write(e.t, e.display, stack, "", st.nodes, body);
            m == Meaning(w.text, State(st.at + |("\\" + command) + ("{" + Source(body) + "}")|, w.nodes, st.ok))
    decreases body, 10
  {
    NameStands(e.s, st.at, command, "{" + Source(body) + "}");
    var next := LatexReadings.Behind(st, command);
    m := PastGroup(e, next, stack, body, |"{" + Source(body) + "}"|);
  }

  /** A command with two arguments in braces. */
  lemma {:induction false} TwoGroups(e: Env, st: State, stack: bool, command: string, above: Formula, below: Formula, f: Formula)
    returns (a: Meaning, b: Meaning)
    requires f == Over(above, below) || f == Choose(above, below)
    requires IsWellFormed(e.t, above) && IsWellFormed(e.t, below) && IsWord(command)
    requires StandsAt(e.s, st.at, ("\\" + command) + (("{" + Source(above) + "}") + ("{" + Source(below) + "}")))
    ensures Spelled(e.s, st.at, command)
    ensures a == Argument(e, LatexReadings.Behind(st, command), stack) && b == Argument(e, a.after, stack)
    ensures var w := Write(e.t, e.display, stack, "", st.nodes, above);
            var v := Write(e.t, e.display, stack, "", w.nodes, below);
            && a.text == w.text && a.after.nodes == w.nodes && b.text == v.text
            && b.after == State(st.at + |("\\" + command) + (("{" + Source(above) + "}") + ("{" + Source(below) + "}"))|, v.nodes, st.ok)
    decreases f, 3
  {
    var first, second := "{" + Source(above) + "}", "{" + Source(below) + "}";
    NameStands(e.s, st.at, command, first + second);
    var next := LatexReadings.Behind(st, command);
    PartsStand(e.s, next.at, first, second);
    a := PastGroup(e, next, stack, above, |first|);
    b := PastGroup(e, a.after, stack, below, |second|);
  }

  lemma {:induction false} PastGroup(e: Env, st: State, stack: bool, body: Formula, length: nat) returns (m: Meaning)
    requires IsWellFormed(e.t, body) && StandsAt(e.s, st.at, "{" + Source(body) + "}") && length == |"{" + Source(body) + "}"|
    ensures m == Argument(e, st, stack)
    ensures m.text == Write(e.t, e.display, stack, "", st.nodes, body).text
    ensures m.after == State(st.at + length, Write(e.t, e.display, stack, "", st.nodes, body).nodes, st.ok)
    decreases body, 9
  {
    ArgumentIsGroup(e, st, stack, body);
    m := Argument(e, st, stack);
  }

  /** What a formula that is one command comes out as; before it comes what was there. */
  ghost predicate IsWritten(m: Meaning, e: Env, st: State, stack: bool, f: Formula) {
    && m.text != "\0" && m.after.at == st.at + |Source(f)| && m.after.ok == st.ok
    && forall details :: Spell(details) ==> IsWellFormed(e.t, f) && m == Past(e, st, stack, "", f)
  }

  lemma OneCommandGoesOn(told: Meaning, e: Env, st: State, stack: bool, end: Option<char>, before: string, f: Formula, m: Meaning)
    requires IsSequence(told, e, st, stack, end, before) && (end.Some? ==> end == Some('}')) && IsWellFormed(e.t, f)
    requires f.Over? || f.Root? || f.Framed? || f.Choose? || f.Accent?
    requires st.at < |e.s| && e.s[st.at] == '\\' && m == Command(e, st, stack) && IsWritten(m, e, st, stack, f)
    ensures GoesOn(told, e, st, stack, end, before, f)
  {
    CommandGoesOn(told, e, st, stack, end, before, m);
    Prepended(e, st, stack, before, f, m);
  }

  lemma Prepended(e: Env, st: State, stack: bool, before: string, f: Formula, m: Meaning)
    requires (f.Over? || f.Root? || f.Framed? || f.Choose? || f.Accent?) && IsWellFormed(e.t, f) && IsWritten(m, e, st, stack, f)
    ensures Past(e, st, stack, before, f) == Meaning(before + m.text, m.after)
  {
    assert Spell(true);
    EmptyFirst(FormatRoot(e.t, "", "√"));
  }

  lemma EmptyFirst(s: string)
    ensures "" + s == s
  {
  }

  /** The reader goes on behind the formula with what it comes out as. */
  ghost predicate GoesOn(told: Meaning, e: Env, st: State, stack: bool, end: Option<char>, before: string, f: Formula)
    requires IsWellFormed(e.t, f)
  {
    var m := Past(e, st, stack, before, f);
    IsSequence(told, e, m.after, stack, end, m.text)
  }

  lemma WordsAreWords()
    ensures IsWord("boxed") && IsWord("sqrt") && IsWord("frac") && IsWord("binom")
    ensures "\\boxed" == "\\" + "boxed" && "\\sqrt" == "\\" + "sqrt" && "\\frac" == "\\" + "frac" && "\\binom" == "\\" + "binom"
  {
  }

  lemma {:induction false} FramedIsRead(e: Env, st: State, stack: bool, f: Formula) returns (m: Meaning)
    requires f.Framed? && IsWellFormed(e.t, f) && StandsAt(e.s, st.at, Source(f))
    ensures At(e, st) && m == Command(e, st, stack) && IsWritten(m, e, st, stack, f)
    decreases f, 4
  {
    WordsAreWords();
    var a := OneGroup(e, st, stack, "boxed", f.body);
    BoxReads(e, st, stack, "boxed");
    m := Meaning("[" + Trim(a.text) + "]", a.after);
  }

  /** A command stands here. */
  ghost predicate At(e: Env, st: State) { st.at < |e.s| && e.s[st.at] == '\\' }

  lemma {:induction false} RootIsRead(e: Env, st: State, stack: bool, f: Formula) returns (m: Meaning)
    requires f.Root? && IsWellFormed(e.t, f) && StandsAt(e.s, st.at, Source(f))
    ensures At(e, st) && m == Command(e, st, stack) && IsWritten(m, e, st, stack, f)
    decreases f, 4
  {
    WordsAreWords();
    var a := OneGroup(e, st, stack, "sqrt", f.radicand);
    NoDegree(e, st, f.radicand);
    RootReads(e, st, stack);
    m := Meaning(FormatRoot(e.t, a.text, "√"), a.after);
    RootIsWritten(e, st, stack, f, a);
  }

  /** An argument came out as this formula, behind the whole command. */
  ghost predicate IsPart(a: Meaning, e: Env, st: State, stack: bool, nodes: seq<LayoutNode>, part: Formula, after: State)
    requires IsWellFormed(e.t, part)
  {
    var w := Write(e.t, e.display, stack, "", nodes, part);
    a.text == w.text && a.after.nodes == w.nodes && a.after == after
  }

  lemma RootIsWritten(e: Env, st: State, stack: bool, f: Formula, a: Meaning)
    requires f.Root? && IsWellFormed(e.t, f)
    requires IsPart(a, e, st, stack, st.nodes, f.radicand, State(st.at + |Source(f)|, a.after.nodes, st.ok))
    ensures IsWritten(Meaning(FormatRoot(e.t, a.text, "√"), a.after), e, st, stack, f)
  {
    RootText(e.t, a.text);
    EmptyFirst(FormatRoot(e.t, a.text, "√"));
  }

  lemma ChoiceIsWritten(e: Env, st: State, stack: bool, f: Formula, a: Meaning, b: Meaning)
    requires f.Choose? && IsWellFormed(e.t, f) && IsPart(a, e, st, stack, st.nodes, f.above, a.after)
    requires IsPart(b, e, st, stack, a.after.nodes, f.below, State(st.at + |Source(f)|, b.after.nodes, st.ok))
    ensures IsWritten(Meaning("(" + a.text + " choose " + (b.text + ")"), b.after), e, st, stack, f)
  {
    EmptyFirst("(" + a.text + " choose " + (b.text + ")"));
  }

  lemma InlineIsWritten(e: Env, st: State, stack: bool, f: Formula, a: Meaning, b: Meaning)
    requires f.Over? && IsWellFormed(e.t, f) && !(e.display && stack) && IsPart(a, e, st, stack, st.nodes, f.above, a.after)
    requires IsPart(b, e, st, stack, a.after.nodes, f.below, State(st.at + |Source(f)|, b.after.nodes, st.ok))
    ensures IsWritten(Meaning(FormatFraction(e.t, a.text, b.text), b.after), e, st, stack, f)
  {
    FractionText(e.t, a.text, b.text, 0);
    EmptyFirst(FormatFraction(e.t, a.text, b.text));
  }

  lemma StackIsWritten(e: Env, st: State, stack: bool, f: Formula, a: Meaning, b: Meaning, m: Meaning)
    requires f.Over? && IsWellFormed(e.t, f) && e.display && stack && IsPart(a, e, st, false, st.nodes, f.above, a.after)
    requires IsPart(b, e, st, false, a.after.nodes, f.below, State(st.at + |Source(f)|, b.after.nodes, st.ok))
    requires m == Meaning(Marker(|b.after.nodes|),
                          b.after.(nodes := b.after.nodes + [Fraction(NormalizeOutput(e.t, a.text), NormalizeOutput(e.t, b.text))]))
    ensures IsWritten(m, e, st, stack, f)
  {
    FractionText(e.t, a.text, b.text, |b.after.nodes|);
    EmptyFirst(Marker(|b.after.nodes|));
  }

  lemma RootText(t: Tables, radicand: string)
    ensures FormatRoot(t, radicand, "√") != "\0"
  {
    assert FormatRoot(t, radicand, "√")[0] == '√';
  }

  lemma NoDegree(e: Env, st: State, radicand: Formula)
    requires StandsAt(e.s, st.at, ("\\" + "sqrt") + ("{" + Source(radicand) + "}"))
    ensures OptionalArgument(e, LatexReadings.Behind(st, "sqrt")) == Optional(None, LatexReadings.Behind(st, "sqrt"))
  {
    WordsAreWords();
    var next := LatexReadings.Behind(st, "sqrt");
    NameStands(e.s, st.at, "sqrt", "{" + Source(radicand) + "}");
    BracesStand(e.s, next.at, Source(radicand));
    assert AfterBlanks(e.s, next.at) == next.at;
    NoOptionalReads(e, next);
  }

  lemma {:induction false} ChooseIsRead(e: Env, st: State, stack: bool, f: Formula) returns (m: Meaning)
    requires f.Choose? && IsWellFormed(e.t, f) && StandsAt(e.s, st.at, Source(f))
    ensures At(e, st) && m == Command(e, st, stack) && IsWritten(m, e, st, stack, f)
    decreases f, 4, 1
  {
    WordsAreWords();
    var a, b := TwoGroups(e, st, stack, "binom", f.above, f.below, f);
    BinomialReads(e, st, stack, "binom");
    m := Meaning("(" + a.text + " choose " + (b.text + ")"), b.after);
    ChoiceIsWritten(e, st, stack, f, a, b);
  }

  lemma {:induction false} OverIsRead(e: Env, st: State, stack: bool, f: Formula) returns (m: Meaning)
    requires f.Over? && IsWellFormed(e.t, f) && StandsAt(e.s, st.at, Source(f))
    ensures At(e, st) && m == Command(e, st, stack) && IsWritten(m, e, st, stack, f)
    decreases f, 4, 1
  {
    WordsAreWords();
    var stacks := e.display && stack;
    var a, b := TwoGroups(e, st, stack && !stacks, "frac", f.above, f.below, f);
    FractionReads(e, st, stack, "frac");
    if stacks {
      m := Meaning(Marker(|b.after.nodes|),
                   b.after.(nodes := b.after.nodes + [Fraction(NormalizeOutput(e.t, a.text), NormalizeOutput(e.t, b.text))]));
      StackIsWritten(e, st, stack, f, a, b, m);
    } else {
      m := Meaning(FormatFraction(e.t, a.text, b.text), b.after);
      InlineIsWritten(e, st, stack, f, a, b);
    }
  }

  lemma FractionText(t: Tables, above: string, below: string, k: nat)
    ensures Marker(k) != "\0" && FormatFraction(t, above, below) != "\0"
  {
    var f := FormatFraction(t, above, below);
    assert '/' in f;
  }

  lemma {:induction false} AccentIsRead(e: Env, st: State, stack: bool, f: Formula) returns (m: Meaning)
    requires f.Accent? && IsWellFormed(e.t, f) && StandsAt(e.s, st.at, Source(f))
    ensures At(e, st) && m == Command(e, st, stack) && IsWritten(m, e, st, stack, f)
    decreases f, 4
  {
    var a := OneGroup(e, st, stack, f.command, f.body);
    AccentIsNotNamed(f.command);
    AccentReads(e, st, stack, f.command);
    m := Meaning(AccentText(e.t, f.command, a.text), a.after);
    AccentIsWritten(e, st, stack, f, a);
  }

  lemma AccentIsWritten(e: Env, st: State, stack: bool, f: Formula, a: Meaning)
    requires f.Accent? && IsWellFormed(e.t, f)
    requires IsPart(a, e, st, stack, st.nodes, f.body, State(st.at + |Source(f)|, a.after.nodes, st.ok))
    ensures IsWritten(Meaning(AccentText(e.t, f.command, a.text), a.after), e, st, stack, f)
  {
    assert |AccentText(e.t, f.command, a.text)| > 1;
    EmptyFirst(AccentText(e.t, f.command, a.text));
  }

  lemma AccentIsNotNamed(command: string)
    requires !HasOwnReading(command)
    ensures command !in ["left", "middle", "right", "frac", "dfrac", "tfrac", "sqrt", "boxed", "fbox", "binom", "dbinom", "tbinom"]
  {
  }

  lemma SymbolGoesOn(told: Meaning, e: Env, st: State, stack: bool, end: Option<char>, before: string, f: Formula)
    requires IsSequence(told, e, st, stack, end, before) && (end.Some? ==> end == Some('}'))
    requires f.Symbol? && IsWellFormed(e.t, f) && StandsAt(e.s, st.at, Source(f))
    ensures GoesOn(told, e, st, stack, end, before, f)
  {
    var inside := SymbolIsRead(e, st, stack, f.command);
    BracesStand(e.s, st.at, "\\" + f.command);
    GroupIsAppended(e, st, stack, before);
    ElementGoesOn(told, e, st, stack, end, before, Meaning(before + inside.text, inside.after));
  }

  lemma SymbolIsRead(e: Env, st: State, stack: bool, command: string) returns (inside: Meaning)
    requires IsWord(command) && IsPlainSymbol(e.t, command) && StandsAt(e.s, st.at, "{" + ("\\" + command) + "}")
    ensures inside == Sequence(e, st.(at := st.at + 1), stack, Some('}'), "")
    ensures inside == Meaning(SymbolText(e.t, command), st.(at := st.at + |"{" + ("\\" + command) + "}"|))
  {
    var inner := st.(at := st.at + 1);
    assert ("{" + ("\\" + command)) + "}" == "{" + (("\\" + command) + "}");
    MarkStands(e.s, st.at, "{", ("\\" + command) + "}");
    NameStands(e.s, inner.at, command, "}");
    SymbolReads(e, inner, stack, command);
    var m := Meaning(SymbolText(e.t, command), LatexReadings.Behind(inner, command));
    inside := Sequence(e, inner, stack, Some('}'), "");
    CommandGoesOn(inside, e, inner, stack, Some('}'), "", m);
    assert e.s[m.after.at..m.after.at + 1][0] == '}';
    EmptyFirst(m.text);
    Closes(inside, e, m.after, stack, "" + m.text);
  }

  /** Behind a formula the reader goes on with what the formula comes out as. */
  lemma {:induction false} FormulaReads(told: Meaning, e: Env, st: State, stack: bool, end: Option<char>, before: string, f: Formula)
    requires IsSequence(told, e, st, stack, end, before) && (end.Some? ==> end == Some('}'))
    requires IsWellFormed(e.t, f) && StandsAt(e.s, st.at, Source(f))
    ensures GoesOn(told, e, st, stack, end, before, f)
    decreases f, 6
  {
    match f
    case Text(text) => TextReads(told, e, st, stack, end, before, f);
    case Then(first, second) => BothRead(told, e, st, stack, end, before, f);
    case Grouped(body) => GroupedReads(told, e, st, stack, end, before, f);
    case Super(script) => SuperReads(told, e, st, stack, end, before, f);
    case Lower(script) => SubReads(told, e, st, stack, end, before, f);
    case Symbol(command) => SymbolGoesOn(told, e, st, stack, end, before, f);
    case Relation(sign) => CharacterReads(told, e, st, stack, end, before, f);
    case Tie => CharacterReads(told, e, st, stack, end, before, f);
    case _ =>
      var m := CommandIsWritten(e, st, stack, f);
      OneCommandGoesOn(told, e, st, stack, end, before, f, m);
  }

  lemma {:induction false} CommandIsWritten(e: Env, st: State, stack: bool, f: Formula) returns (m: Meaning)
    requires (f.Over? || f.Root? || f.Framed? || f.Choose? || f.Accent?) && IsWellFormed(e.t, f) && StandsAt(e.s, st.at, Source(f))
    ensures At(e, st) && m == Command(e, st, stack) && IsWritten(m, e, st, stack, f)
    decreases f, 5, 1
  {
    match f
    case Over(above, below) => m := OverIsRead(e, st, stack, f);
    case Root(radicand) => m := RootIsRead(e, st, stack, f);
    case Framed(body) => m := FramedIsRead(e, st, stack, f);
    case Choose(above, below) => m := ChooseIsRead(e, st, stack, f);
    case Accent(command, body) => m := AccentIsRead(e, st, stack, f);
  }

  lemma TextReads(told: Meaning, e: Env, st: State, stack: bool, end: Option<char>, before: string, f: Formula)
    requires IsSequence(told, e, st, stack, end, before) && (end.Some? ==> end == Some('}'))
    requires f.Text? && IsWellFormed(e.t, f) && StandsAt(e.s, st.at, Source(f))
    ensures GoesOn(told, e, st, stack, end, before, f)
  {
    TextGoesOn(told, e, st, stack, end, before, f.text);
  }

  lemma CharacterReads(told: Meaning, e: Env, st: State, stack: bool, end: Option<char>, before: string, f: Formula)
    requires IsSequence(told, e, st, stack, end, before) && (end.Some? ==> end == Some('}'))
    requires (f.Relation? || f.Tie?) && IsWellFormed(e.t, f) && StandsAt(e.s, st.at, Source(f))
    ensures GoesOn(told, e, st, stack, end, before, f)
  {
    assert e.s[st.at] == e.s[st.at..st.at + 1][0] == Source(f)[0];
    CharacterIsAppended(e, st, stack, before);
    ElementGoesOn(told, e, st, stack, end, before, Element(e, st, stack, before));
  }

  lemma {:induction false} BothRead(told: Meaning, e: Env, st: State, stack: bool, end: Option<char>, before: string, f: Formula)
    requires IsSequence(told, e, st, stack, end, before) && (end.Some? ==> end == Some('}'))
    requires f.Then? && IsWellFormed(e.t, f) && StandsAt(e.s, st.at, Source(f))
    ensures GoesOn(told, e, st, stack, end, before, f)
    decreases f, 4
  {
    PartsStand(e.s, st.at, Source(f.first), Source(f.second));
    FormulaReads(told, e, st, stack, end, before, f.first);
    var m := Past(e, st, stack, before, f.first);
    FormulaReads(told, e, m.after, stack, end, m.text, f.second);
  }

  lemma {:induction false} GroupedReads(told: Meaning, e: Env, st: State, stack: bool, end: Option<char>, before: string, f: Formula)
    requires IsSequence(told, e, st, stack, end, before) && (end.Some? ==> end == Some('}'))
    requires f.Grouped? && IsWellFormed(e.t, f) && StandsAt(e.s, st.at, Source(f))
    ensures GoesOn(told, e, st, stack, end, before, f)
    decreases f, 4
  {
    BracesStand(e.s, st.at, Source(f.body));
    GroupReads(e, st, stack, f.body);
    GroupIsAppended(e, st, stack, before);
    ElementGoesOn(told, e, st, stack, end, before, Element(e, st, stack, before));
  }

  lemma {:induction false} SuperReads(told: Meaning, e: Env, st: State, stack: bool, end: Option<char>, before: string, f: Formula)
    requires IsSequence(told, e, st, stack, end, before) && (end.Some? ==> end == Some('}'))
    requires f.Super? && IsWellFormed(e.t, f) && StandsAt(e.s, st.at, Source(f))
    ensures GoesOn(told, e, st, stack, end, before, f)
    decreases f, 4
  {
    ScriptReads(told, e, st, stack, end, before, Sup, f.script);
    PastScript(e, st, stack, before, Sup, f.script);
  }

  lemma {:induction false} SubReads(told: Meaning, e: Env, st: State, stack: bool, end: Option<char>, before: string, f: Formula)
    requires IsSequence(told, e, st, stack, end, before) && (end.Some? ==> end == Some('}'))
    requires f.Lower? && IsWellFormed(e.t, f) && StandsAt(e.s, st.at, Source(f))
    ensures GoesOn(told, e, st, stack, end, before, f)
    decreases f, 4
  {
    ScriptReads(told, e, st, stack, end, before, Sub, f.script);
    PastScript(e, st, stack, before, Sub, f.script);
  }

  lemma PastScript(e: Env, st: State, stack: bool, before: string, kind: Kind, script: Formula)
    requires IsWellFormed(e.t, script)
    ensures var m := Past(e, st.(at := st.at + 1), false, "", script);
            Past(e, st, stack, before, if kind == Sup then Super(script) else Lower(script))
            == Meaning(AttachScript(TrimEnd(before), FormatScript(e.t, m.text, kind)), m.after.(at := m.after.at + 2))
  {
  }

  /** The source of a formula is supported, and comes out as the formula does. */
  lemma FormulaRenders(t: Tables, display: bool, nodes: seq<LayoutNode>, f: Formula)
    requires IsWellFormed(t, f)
    ensures var w := Write(t, display, true, "", nodes, f);
            Whole(Env(t, Source(f), display), nodes) == Meaning(NormalizeOutput(t, w.text), State(|Source(f)|, w.nodes, true))
  {
    var e, st := Env(t, Source(f), display), State(0, nodes, true);
    var told := Sequence(e, st, true, None, "");
    assert Source(f)[0..0 + |Source(f)|] == Source(f);
    FormulaReads(told, e, st, true, None, "", f);
    var m := Past(e, st, true, "", f);
    EndsThere(told, e, m.after, true, m.text);
    WholeReads(e, nodes);
  }

  lemma EndsThere(told: Meaning, e: Env, st: State, stack: bool, before: string)
    requires IsSequence(told, e, st, stack, None, before) && st.at == |e.s|
    ensures told == Meaning(before, st)
  {
    SequenceEnds(e, st, stack, None, before);
    assert Spell(true);
  }

  // ----- Scripts of plain text -----

  /** Characters that are only themselves. */
  ghost predicate IsPlainText(s: string) {
    forall j :: 0 <= j < |s| ==> IsOrdinary(s[j]) && s[j] != '.' && s[j] != '\U{F0005}'
  }

  /**
    `base^{script}` comes out as the base with the raised characters of the script, if they all
    have one; else as `base^c` for a single character, and as `base^(script)` for more.
  */
  lemma SuperscriptRenders(t: Tables, display: bool, base: string, script: string) returns (raised: string)
    requires IsPlainText(base) && IsPlainText(script)
    ensures if forall k :: 0 <= k < |script| ==> script[k] in t.superscripts then
              |raised| == |script| && forall k :: 0 <= k < |script| ==> raised[k] == t.superscripts[script[k]]
            else raised == (if |script| == 1 then "^" + script else "^(" + script + ")")
    ensures var source := base + ("^" + ("{" + script + "}"));
            Whole(Env(t, source, display), []) == Meaning(NormalizeOutput(t, base + raised), State(|source|, [], true))
  {
    raised := FormatScript(t, script, Sup);
    ScriptRenders(t, display, base, script, Sup, base + ("^" + ("{" + script + "}")));
    PlainCharacters(script);
    PlainSuperscript(t, script);
  }

  /** `base_{script}` is lowered in the same way; in the line a word of letters needs no brackets either. */
  lemma SubscriptRenders(t: Tables, display: bool, base: string, script: string) returns (lowered: string)
    requires IsPlainText(base) && IsPlainText(script)
    ensures if forall k :: 0 <= k < |script| ==> script[k] in t.subscripts then
              |lowered| == |script| && forall k :: 0 <= k < |script| ==> lowered[k] == t.subscripts[script[k]]
            else if |script| == 1 || (script != "" && forall k :: 0 <= k < |script| ==> 'a' <= script[k] <= 'z' || 'A' <= script[k] <= 'Z')
            then lowered == "_" + script
            else lowered == "_(" + script + ")"
    ensures var source := base + ("_" + ("{" + script + "}"));
            Whole(Env(t, source, display), []) == Meaning(NormalizeOutput(t, base + lowered), State(|source|, [], true))
  {
    lowered := FormatScript(t, script, Sub);
    ScriptRenders(t, display, base, script, Sub, base + ("_" + ("{" + script + "}")));
    PlainCharacters(script);
    PlainSubscript(t, script);
  }

  lemma PlainCharacters(s: string)
    requires IsPlainText(s)
    ensures (forall k :: 0 <= k < |s| ==> !IsSpace(s[k])) && (s != "" ==> s[|s| - 1] != '\U{F0005}')
  {
  }

  /** A script behind a text. */
  function ScriptOn(base: string, kind: Kind, script: string): Formula { Then(Text(base), ScriptOf(kind, script)) }

  function ScriptOf(kind: Kind, script: string): Formula { if kind == Sup then Super(Text(script)) else Lower(Text(script)) }

  lemma ScriptRenders(t: Tables, display: bool, base: string, script: string, kind: Kind, source: string)
    requires IsPlainText(base) && IsPlainText(script)
    requires source == base + ((if kind == Sup then "^" else "_") + ("{" + script + "}"))
    ensures Whole(Env(t, source, display), [])
            == Meaning(NormalizeOutput(t, base + FormatScript(t, script, kind)), State(|source|, [], true))
  {
    SourceOfScript(kind, script);
    assert Source(ScriptOn(base, kind, script)) == source;
    ScriptOfText(t, display, base, script, kind);
    FormulaRenders(t, display, [], ScriptOn(base, kind, script));
  }

  lemma SourceOfScript(kind: Kind, script: string)
    ensures Source(ScriptOf(kind, script)) == (if kind == Sup then "^" else "_") + ("{" + script + "}")
  {
    assert Source(Text(script)) == script;
  }

  lemma ScriptOfText(t: Tables, display: bool, base: string, script: string, kind: Kind)
    requires IsPlainText(base) && IsPlainText(script)
    ensures IsWellFormed(t, ScriptOn(base, kind, script))
            && Write(t, display, true, "", [], ScriptOn(base, kind, script)) == Written(base + FormatScript(t, script, kind), [])
  {
    assert IsWellFormed(t, Text(base)) && IsWellFormed(t, Text(script)) && IsWellFormed(t, ScriptOf(kind, script));
    PlainCharacters(base);
    SpacelessIsTrimmed(base);
    EmptyFirst(base);
    EmptyFirst(script);
    AttachExactly(base, FormatScript(t, script, kind));
    assert Write(t, display, false, "", [], Text(script)) == Written(script, []);
    assert Write(t, display, true, "", [], Text(base)) == Written(base, []);
    assert Write(t, display, true, base, [], ScriptOf(kind, script)) == Written(base + FormatScript(t, script, kind), []);
  }
}
