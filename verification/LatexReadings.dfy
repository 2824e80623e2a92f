/**
  How LaTeX source is read, construct by construct: what each command, script, character and
  environment comes out as, given what its arguments come out as. The constructs are spelled
  out in the source, and what they come out as is spelled out as well.
*/
module LatexReadings {
  import opened Decimals
  import opened LatexFormat
  import opened LatexGuards
  import opened LatexMeaning
  import opened LatexText
  import opened LatexWriting
  import opened Sequences
  import opened WhiteSpace
  import opened Wrappers

  // ----- Names of commands -----

  ghost predicate IsWord(command: string) {
    command != "" && forall j :: 0 <= j < |command| ==> IsAsciiLetter(command[j])
  }

  /** The command with this name stands at k: a word that no letter follows, or another character. */
  ghost predicate Spelled(s: string, k: nat, command: string) {
    && k + 1 + |command| <= |s| && s[k] == '\\' && s[k + 1..k + 1 + |command|] == command
    && if IsWord(command) then k + 1 + |command| < |s| ==> !IsAsciiLetter(s[k + 1 + |command|])
       else |command| == 1 && command != "\n" && command != "\r"
  }

  /** Behind the name of a command. */
  function Behind(st: State, command: string): State { st.(at := st.at + 1 + |command|) }

  lemma CommandIsRead(e: Env, st: State, stack: bool, command: string)
    requires Spelled(e.s, st.at, command)
    ensures Command(e, st, stack) == Interpreted(e, Behind(st, command), stack, command)
  {
    var p, end := st.at + 1, st.at + 1 + |command|;
    assert e.s[p] == e.s[p..end][0] == command[0];
    if IsWord(command) {
      forall j | p <= j < end ensures IsAsciiLetter(e.s[j]) {
        assert e.s[j] == command[j - p];
      }
      LettersStop(e.s, p, end);
    } else {
      assert command == [command[0]];
      assert !IsAsciiLetter(command[0]);
    }
  }

  /** The tables give the word no meaning that comes before its own. */
  ghost predicate IsFree(t: Tables, command: string) {
    && command !in t.spacing && command !in t.negativeSpacing && command !in t.ignored && command !in t.limitOperators
    && command !in t.symbols && command !in t.namedOperators && command !in t.sizes
  }

  lemma NameIsRead(e: Env, st: State, stack: bool, command: string)
    requires Spelled(e.s, st.at, command) && |command| > 1 && command != "not" && IsFree(e.t, command)
    ensures Command(e, st, stack) == Named(e, Behind(st, command), stack, command)
  {
    CommandIsRead(e, st, stack, command);
    LongNameIsNotFixed(e.t, command);
  }

  lemma LongNameIsNotFixed(t: Tables, command: string)
    requires |command| > 1 && command !in t.spacing && command !in t.negativeSpacing && command !in t.ignored
    ensures FixedText(t, command).None?
  {
  }

  // ----- Commands without arguments -----

  /** Two backslashes end a line; a backslash before the end of a line is a space, and at the end of the source an error. */
  lemma LineBreakReads(e: Env, st: State, stack: bool)
    requires st.at < |e.s| && e.s[st.at] == '\\'
    ensures Spelled(e.s, st.at, "\\") ==> Command(e, st, stack) == Meaning("\n", st.(at := st.at + 2))
    ensures st.at + 1 == |e.s| ==> !Command(e, st, stack).after.ok
    ensures st.at + 1 < |e.s| && e.s[st.at + 1] == '\n' ==> Command(e, st, stack) == Meaning(" ", st.(at := st.at + 2))
    ensures st.at + 1 < |e.s| && e.s[st.at + 1] == '\r' ==>
              Command(e, st, stack)
              == Meaning(" ", st.(at := if st.at + 2 < |e.s| && e.s[st.at + 2] == '\n' then st.at + 3 else st.at + 2))
  {
    if Spelled(e.s, st.at, "\\") {
      CommandIsRead(e, st, stack, "\\");
    }
  }

  /** Spacing, ignored commands, escaped characters and the double bar. */
  lemma FixedReads(e: Env, st: State, stack: bool, command: string)
    requires Spelled(e.s, st.at, command) && command != "\\"
    ensures var m, next := Command(e, st, stack), Behind(st, command);
            if command in e.t.spacing then m == Meaning(" ", next)
            else if command in e.t.negativeSpacing then m == Meaning("\0", next)
            else if command in e.t.ignored then m == Meaning("", next)
            else if command == "{" || command == "}" || command == "$" || command == "%" || command == "#" || command == "_" || command == "&"
            then m == Meaning(command, next)
            else command == "|" ==> m == Meaning("‖", next)
  {
    CommandIsRead(e, st, stack, command);
    if command == "{" || command == "}" || command == "$" || command == "%" || command == "#" || command == "_" || command == "&" {
      assert command in ["{", "}", "$", "%", "#", "_", "&"];
    }
  }

  /** A symbol; relations and two operators stand between spaces. */
  lemma SymbolReads(e: Env, st: State, stack: bool, command: string)
    requires Spelled(e.s, st.at, command) && |command| > 1 && command != "not"
    requires command !in e.t.spacing && command !in e.t.negativeSpacing && command !in e.t.ignored && command !in e.t.limitOperators
    requires command in e.t.symbols && command !in e.t.displayLimitSymbols
    ensures Command(e, st, stack)
            == Meaning(if command == "cdot" || command == "times" || command in e.t.relations then " " + e.t.symbols[command] + " "
                       else e.t.symbols[command], Behind(st, command))
  {
    CommandIsRead(e, st, stack, command);
    LongNameIsNotFixed(e.t, command);
    var next := Behind(st, command);
    assert Interpreted(e, next, stack, command) == Symbol(e, next, command);
  }

  /** A named operator stands between marks that normalisation turns into spaces where they are needed. */
  lemma NamedOperatorReads(e: Env, st: State, stack: bool, command: string)
    requires Spelled(e.s, st.at, command) && |command| > 1 && command != "not"
    requires command !in e.t.spacing && command !in e.t.negativeSpacing && command !in e.t.ignored && command !in e.t.limitOperators
    requires command !in e.t.symbols && command in e.t.namedOperators
    ensures Command(e, st, stack) == Meaning(['\U{F0004}'] + command + ['\U{F0005}'], Behind(st, command))
  {
    CommandIsRead(e, st, stack, command);
    LongNameIsNotFixed(e.t, command);
  }

  /** Sizes leave nothing, and so do delimiters on their own, together with a full stop behind them. */
  lemma DelimiterReads(e: Env, st: State, stack: bool, command: string)
    requires Spelled(e.s, st.at, command) && |command| > 1 && command != "not"
    requires command !in e.t.spacing && command !in e.t.negativeSpacing && command !in e.t.ignored && command !in e.t.limitOperators
    requires command !in e.t.symbols && command !in e.t.namedOperators
    ensures command in e.t.sizes ==> Command(e, st, stack) == Meaning("", Behind(st, command))
    ensures command !in e.t.sizes && (command == "left" || command == "middle" || command == "right") ==>
              var next := Behind(st, command);
              Command(e, st, stack) == Meaning("", if next.at < |e.s| && e.s[next.at] == '.' then next.(at := next.at + 1) else next)
  {
    CommandIsRead(e, st, stack, command);
    LongNameIsNotFixed(e.t, command);
    assert Command(e, st, stack) == Named(e, Behind(st, command), stack, command);
  }

  lemma ModReads(e: Env, st: State, stack: bool, command: string)
    requires Spelled(e.s, st.at, command) && (command == "mod" || command == "bmod")
    requires IsFree(e.t, command) && command !in e.t.accents
    ensures Command(e, st, stack) == Meaning(" mod ", Behind(st, command))
  {
    NameIsRead(e, st, stack, command);
    assert Named(e, Behind(st, command), stack, command) == Rest(e, Behind(st, command), stack, command);
  }

  /** A word that nothing gives a meaning is an error, and so is an end without a beginning. */
  lemma UnknownIsUnsupported(e: Env, st: State, stack: bool, command: string)
    requires Spelled(e.s, st.at, command) && |command| > 1 && IsFree(e.t, command)
    requires command !in e.t.accents && command !in e.t.plainWrappers
    requires command !in ["not", "left", "middle", "right", "frac", "dfrac", "tfrac", "sqrt", "boxed", "fbox", "binom", "dbinom", "tbinom"]
    requires command !in ["mathbb", "operatorname", "mod", "bmod", "pmod", "pod", "overset", "stackrel", "underset", "begin"]
    ensures !Command(e, st, stack).after.ok
  {
    var some := ["not", "left", "middle", "right", "frac", "dfrac", "tfrac", "sqrt", "boxed", "fbox", "binom", "dbinom", "tbinom"];
    var others := ["mathbb", "operatorname", "mod", "bmod", "pmod", "pod", "overset", "stackrel", "underset", "begin"];
    assert some[0] == "not" && some[1] == "left" && some[2] == "middle" && some[3] == "right" && some[4] == "frac" && some[5] == "dfrac";
    assert some[6] == "tfrac" && some[7] == "sqrt" && some[8] == "boxed" && some[9] == "fbox" && some[10] == "binom";
    assert some[11] == "dbinom" && some[12] == "tbinom";
    assert others[0] == "mathbb" && others[1] == "operatorname" && others[2] == "mod" && others[3] == "bmod" && others[4] == "pmod";
    assert others[5] == "pod" && others[6] == "overset" && others[7] == "stackrel" && others[8] == "underset" && others[9] == "begin";
    NameIsRead(e, st, stack, command);
    var next := Behind(st, command);
    assert Named(e, next, stack, command) == Rest(e, next, stack, command);
  }

  // ----- Commands with arguments -----

  /** In display mode a fraction becomes a node, in which further fractions do not stack; else it stays in the line. */
  lemma FractionReads(e: Env, st: State, stack: bool, command: string)
    requires Spelled(e.s, st.at, command) && (command == "frac" || command == "dfrac" || command == "tfrac") && IsFree(e.t, command)
    ensures var stacks := e.display && stack && command != "tfrac";
            var above := Argument(e, Behind(st, command), stack && !stacks);
            var below := Argument(e, above.after, stack && !stacks);
            Command(e, st, stack)
            == if stacks then
                 Meaning(Marker(|below.after.nodes|),
                         below.after.(nodes := below.after.nodes + [Fraction(NormalizeOutput(e.t, above.text), NormalizeOutput(e.t, below.text))]))
               else Meaning(FormatFraction(e.t, above.text, below.text), below.after)
  {
    NameIsRead(e, st, stack, command);
    IsAFraction(e, Behind(st, command), stack, command);
    var stacks := e.display && stack && command != "tfrac";
    var above := Argument(e, Behind(st, command), stack && !stacks);
    FractionIsWritten(e, Behind(st, command), stack, command != "tfrac", above, Argument(e, above.after, stack && !stacks));
  }

  lemma IsAFraction(e: Env, st: State, stack: bool, command: string)
    requires (command == "frac" || command == "dfrac" || command == "tfrac") && IsFree(e.t, command)
    ensures Named(e, st, stack, command) == AFraction(e, st, stack, command != "tfrac")
  {
  }

  lemma TwoAreRead(e: Env, st: State, stack: bool)
    ensures var first := Argument(e, st, stack);
            var second := Argument(e, first.after, stack);
            TwoArguments(e, st, stack) == Two(first.text, second.text, second.after)
  {
  }

  lemma FractionIsWritten(e: Env, st: State, stack: bool, stackable: bool, above: Meaning, below: Meaning)
    requires var stacks := e.display && stack && stackable;
             above == Argument(e, st, stack && !stacks) && below == Argument(e, above.after, stack && !stacks)
    ensures AFraction(e, st, stack, stackable)
            == if e.display && stack && stackable then
                 Meaning(Marker(|below.after.nodes|),
                         below.after.(nodes := below.after.nodes + [Fraction(NormalizeOutput(e.t, above.text), NormalizeOutput(e.t, below.text))]))
               else Meaning(FormatFraction(e.t, above.text, below.text), below.after)
  {
    TwoAreRead(e, st, stack && !(e.display && stack && stackable));
  }

  /** Square, cube and fourth roots have signs of their own; other degrees are written as superscripts. */
  lemma RootReads(e: Env, st: State, stack: bool)
    requires Spelled(e.s, st.at, "sqrt") && IsFree(e.t, "sqrt")
    ensures var degree := OptionalArgument(e, Behind(st, "sqrt"));
            var m := Argument(e, degree.after, stack);
            var d := if degree.value.Some? then Trim(degree.value.value) else "2";
            Command(e, st, stack)
            == Meaning(if d == "2" then FormatRoot(e.t, m.text, "√") else if d == "3" then FormatRoot(e.t, m.text, "∛")
                       else if d == "4" then FormatRoot(e.t, m.text, "∜")
                       else FormatScript(e.t, d, Sup) + FormatRoot(e.t, m.text, "√"), m.after)
  {
    NameIsRead(e, st, stack, "sqrt");
    var next := Behind(st, "sqrt");
    assert Named(e, next, stack, "sqrt") == Root(e, next, stack);
  }

  lemma BoxReads(e: Env, st: State, stack: bool, command: string)
    requires Spelled(e.s, st.at, command) && (command == "boxed" || command == "fbox") && IsFree(e.t, command)
    ensures var m := Argument(e, Behind(st, command), stack);
            Command(e, st, stack) == Meaning("[" + Trim(m.text) + "]", m.after)
  {
    NameIsRead(e, st, stack, command);
    var next := Behind(st, command);
    assert Named(e, next, stack, command) == Boxed(e, next, stack);
  }

  lemma BinomialReads(e: Env, st: State, stack: bool, command: string)
    requires Spelled(e.s, st.at, command) && (command == "binom" || command == "dbinom" || command == "tbinom") && IsFree(e.t, command)
    ensures var above := Argument(e, Behind(st, command), stack);
            var below := Argument(e, above.after, stack);
            Command(e, st, stack) == Meaning("(" + above.text + " choose " + (below.text + ")"), below.after)
  {
    NameIsRead(e, st, stack, command);
    var next := Behind(st, command);
    assert Named(e, next, stack, command) == Binomial(e, next, stack);
    TwoAreRead(e, next, stack);
  }

  /** An accent goes over a single character; over more it is written as a function. */
  lemma AccentReads(e: Env, st: State, stack: bool, command: string)
    requires Spelled(e.s, st.at, command) && |command| > 1 && command != "not" && IsFree(e.t, command) && command in e.t.accents
    requires command !in ["left", "middle", "right", "frac", "dfrac", "tfrac", "sqrt", "boxed", "fbox", "binom", "dbinom", "tbinom"]
    ensures var m := Argument(e, Behind(st, command), stack);
            Command(e, st, stack)
            == Meaning(if |m.text| == 1 then m.text + [e.t.accents[command]] else command + "(" + m.text + ")", m.after)
  {
    var some := ["left", "middle", "right", "frac", "dfrac", "tfrac", "sqrt", "boxed", "fbox", "binom", "dbinom", "tbinom"];
    assert some[0] == "left" && some[1] == "middle" && some[2] == "right" && some[3] == "frac" && some[4] == "dfrac" && some[5] == "tfrac";
    assert some[6] == "sqrt" && some[7] == "boxed" && some[8] == "fbox" && some[9] == "binom" && some[10] == "dbinom" && some[11] == "tbinom";
    NameIsRead(e, st, stack, command);
    var next := Behind(st, command);
    assert Named(e, next, stack, command) == Accented(e, next, stack, command);
  }

  lemma BlackboardReads(e: Env, st: State, stack: bool)
    requires Spelled(e.s, st.at, "mathbb") && IsFree(e.t, "mathbb") && "mathbb" !in e.t.accents
    ensures var m := Argument(e, Behind(st, "mathbb"), stack);
            Command(e, st, stack) == Meaning(Blackboard(e.t, m.text), m.after)
  {
    NameIsRead(e, st, stack, "mathbb");
    var next := Behind(st, "mathbb");
    assert Named(e, next, stack, "mathbb") == Doubled(e, next, stack);
  }

  lemma ModulusReads(e: Env, st: State, stack: bool, command: string)
    requires Spelled(e.s, st.at, command) && (command == "pmod" || command == "pod")
    requires IsFree(e.t, command) && command !in e.t.accents
    ensures var m := Argument(e, Behind(st, command), stack);
            Command(e, st, stack) == Meaning(if command == "pmod" then " (mod " + Trim(m.text) + ")" else " (" + Trim(m.text) + ")", m.after)
  {
    NameIsRead(e, st, stack, command);
    var next := Behind(st, command);
    assert Named(e, next, stack, command) == Rest(e, next, stack, command);
    assert Rest(e, next, stack, command) == Modulus(e, next, stack, command == "pmod");
  }

  /** The first argument is written as a script of the second. */
  lemma StackReads(e: Env, st: State, stack: bool, command: string)
    requires Spelled(e.s, st.at, command) && (command == "overset" || command == "stackrel" || command == "underset")
    requires IsFree(e.t, command) && command !in e.t.accents
    ensures var script := Argument(e, Behind(st, command), stack);
            var base := Argument(e, script.after, stack);
            Command(e, st, stack)
            == Meaning(Trim(base.text) + FormatScript(e.t, script.text, if command == "underset" then Sub else Sup), base.after)
  {
    NameIsRead(e, st, stack, command);
    var next := Behind(st, command);
    IsRest(e, next, stack, command);
    IsStacked(e, next, stack, command);
  }

  lemma IsRest(e: Env, st: State, stack: bool, command: string)
    requires IsFree(e.t, command) && command !in e.t.accents
    requires command == "overset" || command == "stackrel" || command == "underset"
    ensures Named(e, st, stack, command) == Rest(e, st, stack, command)
  {
  }

  lemma IsStacked(e: Env, st: State, stack: bool, command: string)
    requires command == "overset" || command == "stackrel" || command == "underset"
    ensures Rest(e, st, stack, command) == Stacked(e, st, stack, if command == "underset" then Sub else Sup)
  {
  }

  ghost predicate HasOwnReading(command: string) {
    || command == "not" || command == "left" || command == "middle" || command == "right"
    || command == "frac" || command == "dfrac" || command == "tfrac" || command == "sqrt" || command == "boxed" || command == "fbox"
    || command == "binom" || command == "dbinom" || command == "tbinom" || command == "mathbb" || command == "operatorname"
    || command == "mod" || command == "bmod" || command == "pmod" || command == "pod"
    || command == "overset" || command == "stackrel" || command == "underset"
  }

  /** Fonts leave their argument; text keeps the white space around it. */
  lemma WrapperReads(e: Env, st: State, stack: bool, command: string)
    requires Spelled(e.s, st.at, command) && |command| > 1 && !HasOwnReading(command)
    requires IsFree(e.t, command) && command !in e.t.accents && command in e.t.plainWrappers
    ensures var m := Argument(e, Behind(st, command), stack);
            Command(e, st, stack)
            == Meaning(if (|command| >= 4 && command[..4] == "text") || command == "mbox" then m.text else Trim(m.text), m.after)
  {
    NameIsRead(e, st, stack, command);
    var next := Behind(st, command);
    assert Named(e, next, stack, command) == Rest(e, next, stack, command);
    assert Rest(e, next, stack, command) == Wrapped(e, next, stack, "text" <= command || command == "mbox");
  }

  lemma BeginReads(e: Env, st: State, stack: bool)
    requires Spelled(e.s, st.at, "begin") && IsFree(e.t, "begin") && "begin" !in e.t.accents && "begin" !in e.t.plainWrappers
    ensures Command(e, st, stack) == InEnvironment(e, Behind(st, "begin"))
  {
    NameIsRead(e, st, stack, "begin");
    var next := Behind(st, "begin");
    assert Named(e, next, stack, "begin") == Rest(e, next, stack, "begin");
  }

  /** A negated symbol of its own if there is one, else the first character struck through; nothing to negate is an error. */
  lemma NotReads(e: Env, st: State, stack: bool)
    requires Spelled(e.s, st.at, "not") && "not" !in e.t.spacing && "not" !in e.t.negativeSpacing && "not" !in e.t.ignored
    ensures var m, r := Argument(e, Behind(st, "not"), false), Command(e, st, stack);
            var value := Trim(m.text);
            if value in e.t.negated then r == Meaning(" " + e.t.negated[value] + " ", m.after)
            else if value == "" then !r.after.ok
            else r == Meaning(StrikeThrough(value), m.after)
  {
    CommandIsRead(e, st, stack, "not");
    LongNameIsNotFixed(e.t, "not");
    assert Interpreted(e, Behind(st, "not"), stack, "not") == Negation(e, Behind(st, "not"));
  }

  // ----- Operators with limits -----

  /** A modifier behind blanks, unless it only starts a longer word. */
  lemma ModifierReads(s: string, k: nat, displayLimits: bool)
    ensures var p, m := AfterBlanks(s, k), Modifier(s, k, displayLimits);
            if p + 7 <= |s| && s[p..p + 7] == "\\limits" && (p + 7 < |s| ==> !IsAsciiLetter(s[p + 7])) then m == Modified(true, p + 7)
            else if p + 9 <= |s| && s[p..p + 9] == "\\nolimits" && (p + 9 < |s| ==> !IsAsciiLetter(s[p + 9]))
            then m == Modified(false, p + 9)
            else m == Modified(displayLimits, k)
  {
    assert |LIMITS| == 7 && |NO_LIMITS| == 9;
  }

  /** The scripts end where no script stands behind blanks. */
  lemma NoLimitReads(e: Env, st: State, lower: Option<string>, upper: Option<string>)
    requires var k := AfterBlanks(e.s, st.at); k >= |e.s| || (e.s[k] != '_' && e.s[k] != '^')
    ensures Limits(e, st, lower, upper) == Limited(lower, upper, st)
  {
  }

  /** A lower or an upper limit is its argument, normalised and without spaces; a second one of its kind is an error. */
  lemma LimitReads(e: Env, st: State, lower: Option<string>, upper: Option<string>, k: nat, value: Option<string>)
    requires k == AfterBlanks(e.s, st.at) && k < |e.s|
    requires value == Some(WithoutSpaces(NormalizeOutput(e.t, Argument(e, st.(at := k + 1), false).text)))
    ensures e.s[k] == '_' && lower.None? ==> Limits(e, st, lower, upper) == Limits(e, Argument(e, st.(at := k + 1), false).after, value, upper)
    ensures e.s[k] == '^' && upper.None? ==> Limits(e, st, lower, upper) == Limits(e, Argument(e, st.(at := k + 1), false).after, lower, value)
    ensures e.s[k] == '_' && lower.Some? ==> !Limits(e, st, lower, upper).after.ok
    ensures e.s[k] == '^' && upper.Some? ==> !Limits(e, st, lower, upper).after.ok
  {
    if e.s[k] == '_' {
      LowerReads(e, st, lower, upper, k, Argument(e, st.(at := k + 1), false), Limits(e, st, lower, upper));
      assert Spell(true);
    } else if e.s[k] == '^' {
      assert Spell(true);
      UpperReads(e, st, lower, upper, k, Argument(e, st.(at := k + 1), false), Limits(e, st, lower, upper));
    }
  }

  /** Always true: mentioning it spells out what was told. */
  predicate Spell(details: bool) { true }

  ghost predicate AreLimits(told: Limited, e: Env, st: State, lower: Option<string>, upper: Option<string>) {
    forall details :: Spell(details) ==> told == Limits(e, st, lower, upper)
  }

  lemma LowerReads(e: Env, st: State, lower: Option<string>, upper: Option<string>, k: nat, m: Meaning, told: Limited)
    requires k == AfterBlanks(e.s, st.at) && k < |e.s| && e.s[k] == '_' && m == Argument(e, st.(at := k + 1), false)
    requires AreLimits(told, e, st, lower, upper)
    ensures AreLimits(told, e, With(m.after, lower.None?), Some(LimitText(e.t, m.text)), upper)
  {
    assert Spell(true);
  }

  lemma UpperReads(e: Env, st: State, lower: Option<string>, upper: Option<string>, k: nat, m: Meaning, told: Limited)
    requires k == AfterBlanks(e.s, st.at) && k < |e.s| && e.s[k] == '^' && m == Argument(e, st.(at := k + 1), false)
    requires AreLimits(told, e, st, lower, upper)
    ensures AreLimits(told, e, With(m.after, upper.None?), lower, Some(LimitText(e.t, m.text)))
  {
    assert Spell(true);
  }

  function With(st: State, ok: bool): (r: State)
    ensures ok ==> r == st
  {
    st.(ok := st.ok && ok)
  }

  /** In display mode limits go above and below, if they may; else they stay in the line. */
  lemma LimitsAreWritten(e: Env, st: State, operator: string, bracket: bool, displayLimits: bool, spaced: bool)
    ensures var modified, r := Modifier(e.s, st.at, displayLimits), WithLimits(e, st, operator, bracket, displayLimits, spaced);
            var m := Limits(e, st.(at := modified.at), None, None);
            var below := if m.lower.None? then "" else if bracket then "[" + m.lower.value + "]" else FormatScript(e.t, m.lower.value, Sub);
            var above := if m.upper.None? then "" else FormatScript(e.t, m.upper.value, Sup);
            r == if e.display && modified.displayLimits && (m.lower.Some? || m.upper.Some?)
                 then Meaning(Marker(|m.after.nodes|), m.after.(nodes := m.after.nodes + [Operator(operator, m.lower, m.upper)]))
                 else Meaning(if spaced then " " + (operator + below + above) + " " else operator + below + above, m.after)
  {
  }

  /** Operators that take their limits above and below by nature, and otherwise in brackets. */
  lemma LimitOperatorReads(e: Env, st: State, stack: bool, command: string)
    requires Spelled(e.s, st.at, command) && |command| > 1 && command != "not" && command in e.t.limitOperators
    requires command !in e.t.spacing && command !in e.t.negativeSpacing && command !in e.t.ignored
    ensures Command(e, st, stack) == WithLimits(e, Behind(st, command), command, true, true, true)
  {
    CommandIsRead(e, st, stack, command);
    LongNameIsNotFixed(e.t, command);
  }

  /** Symbols that take limits above and below, and otherwise scripts. */
  lemma LimitSymbolReads(e: Env, st: State, stack: bool, command: string)
    requires Spelled(e.s, st.at, command) && |command| > 1 && command != "not" && command in e.t.symbols
    requires command in e.t.displayLimitSymbols && command !in e.t.limitOperators
    requires command !in e.t.spacing && command !in e.t.negativeSpacing && command !in e.t.ignored
    ensures Command(e, st, stack) == WithLimits(e, Behind(st, command), e.t.symbols[command], false, true, false)
  {
    CommandIsRead(e, st, stack, command);
    LongNameIsNotFixed(e.t, command);
    assert Interpreted(e, Behind(st, command), stack, command) == Symbol(e, Behind(st, command), command);
  }

  /** A name made up in the source; with a star its limits may go above and below. */
  lemma OperatorNameReads(e: Env, st: State, stack: bool)
    requires Spelled(e.s, st.at, "operatorname") && IsFree(e.t, "operatorname") && "operatorname" !in e.t.accents
    ensures var next := Behind(st, "operatorname");
            var starred := next.at < |e.s| && e.s[next.at] == '*';
            var m := Argument(e, if starred then next.(at := next.at + 1) else next, stack);
            Command(e, st, stack) == WithLimits(e, m.after, Trim(NormalizeOutput(e.t, m.text)), true, starred, true)
  {
    NameIsRead(e, st, stack, "operatorname");
    var next := Behind(st, "operatorname");
    assert Named(e, next, stack, "operatorname") == OperatorName(e, next, stack);
  }

  // ----- Arguments -----

  /** An argument is a group, a command or a character; without one there is an error. */
  lemma ArgumentReads(e: Env, st: State, stack: bool)
    ensures var k, r := AfterSpaces(e.s, st.at), Argument(e, st, stack);
            if k >= |e.s| then !r.after.ok
            else if e.s[k] == '{' then r == Sequence(e, st.(at := k + 1), stack, Some('}'), "")
            else if e.s[k] == '\\' then r == Command(e, st.(at := k), stack)
            else r == Meaning([e.s[k]], st.(at := k + 1))
  {
  }

  /** An argument in brackets reaches up to the first closing bracket and is read by itself. */
  lemma OptionalReads(e: Env, st: State, k: nat, close: nat)
    requires k == AfterBlanks(e.s, st.at) < close < |e.s| && e.s[k] == '[' && e.s[close] == ']' && forall j :: k < j < close ==> e.s[j] != ']'
    ensures var m := Nested(e, st.(at := close + 1), e.s[k + 1..close], true);
            OptionalArgument(e, st) == Optional(Some(m.text), m.after)
  {
    FirstBracket(e.s, k + 1, close);
  }

  lemma FirstBracket(s: string, k: nat, close: nat)
    requires k <= close < |s| && s[close] == ']' && forall j :: k <= j < close ==> s[j] != ']'
    ensures IndexFrom(s, "]", k) == close
  {
    assert s[close..close + 1] == "]";
    forall j | k <= j < close ensures !OccursAt(s, "]", j) {
      assert s[j..j + 1][0] == s[j];
    }
    FirstIsFound(s, "]", k, close);
  }

  lemma NoOptionalReads(e: Env, st: State)
    requires var k := AfterBlanks(e.s, st.at); k >= |e.s| || e.s[k] != '['
    ensures OptionalArgument(e, st) == Optional(None, st.(at := AfterBlanks(e.s, st.at)))
  {
  }

  lemma UnclosedOptional(e: Env, st: State, k: nat)
    requires k == AfterBlanks(e.s, st.at) && k < |e.s| && e.s[k] == '[' && forall j :: k < j < |e.s| ==> e.s[j] != ']'
    ensures !OptionalArgument(e, st).after.ok
  {
    NoBracket(e.s, k + 1);
  }

  lemma NoBracket(s: string, k: nat)
    requires forall j :: k <= j < |s| ==> s[j] != ']'
    ensures IndexFrom(s, "]", k) == -1
  {
    IndexFromIsFirst(s, "]", k);
    forall j | k <= j < |s| ensures !OccursAt(s, "]", j) {
      assert s[j..j + 1][0] == s[j];
    }
  }

  // ----- Sequences -----

  /** A sequence ends at its end character, or without one at the end of the source; a brace that closes nothing is an error. */
  lemma SequenceEnds(e: Env, st: State, stack: bool, end: Option<char>, before: string)
    ensures var r := Sequence(e, st, stack, end, before);
            && (st.at >= |e.s| && end.None? ==> r == Meaning(before, st))
            && (st.at >= |e.s| && end.Some? ==> !r.after.ok)
            && (st.at < |e.s| && end == Some(e.s[st.at]) ==> r == Meaning(before, st.(at := st.at + 1)))
            && (st.at < |e.s| && end != Some('}') && e.s[st.at] == '}' && end != Some(e.s[st.at]) ==> !r.after.ok)
  {
  }

  /** Otherwise it goes on behind its first element. */
  lemma SequenceGoesOn(e: Env, st: State, stack: bool, end: Option<char>, before: string)
    requires st.at < |e.s| && end != Some(e.s[st.at]) && e.s[st.at] != '}'
    ensures var m := Element(e, st, stack, before);
            Sequence(e, st, stack, end, before) == Sequence(e, m.after, stack, end, m.text)
  {
  }

  /** What a command comes out as is appended; negative space instead takes the space before it away. */
  lemma CommandIsAppended(e: Env, st: State, stack: bool, before: string)
    requires st.at < |e.s| && e.s[st.at] == '\\'
    ensures var m := Command(e, st, stack);
            Element(e, st, stack, before)
            == if m.text == "\0" then Meaning(WithoutOperatorEnd(TrimEnd(before)), m.after) else Meaning(before + m.text, m.after)
  {
  }

  lemma GroupIsAppended(e: Env, st: State, stack: bool, before: string)
    requires st.at < |e.s| && e.s[st.at] == '{'
    ensures var m := Sequence(e, st.(at := st.at + 1), stack, Some('}'), "");
            Element(e, st, stack, before) == Meaning(before + m.text, m.after)
  {
  }

  /** A superscript goes behind the text without its trailing space; fractions in it do not stack. */
  lemma SuperscriptIsAppended(e: Env, st: State, stack: bool, before: string)
    requires st.at < |e.s| && e.s[st.at] == '^'
    ensures var m := Argument(e, st.(at := st.at + 1), false);
            Element(e, st, stack, before) == Meaning(AttachScript(TrimEnd(before), FormatScript(e.t, m.text, Sup)), m.after)
  {
  }

  lemma SubscriptIsAppended(e: Env, st: State, stack: bool, before: string)
    requires st.at < |e.s| && e.s[st.at] == '_'
    ensures var m := Argument(e, st.(at := st.at + 1), false);
            Element(e, st, stack, before) == Meaning(AttachScript(TrimEnd(before), FormatScript(e.t, m.text, Sub)), m.after)
  {
  }

  /** A character that is text and nothing else. */
  predicate IsOrdinary(c: char) {
    !IsSpace(c) && c != '{' && c != '}' && c != '\\' && c != '^' && c != '_' && c != '=' && c != '<' && c != '>' && c != '&' && c != '~'
  }

  /** The other characters: white space is one space, relations get spaces, a full stop may go into a table, `&` goes. */
  lemma CharacterIsAppended(e: Env, st: State, stack: bool, before: string)
    requires st.at < |e.s|
    ensures var c, next, r := e.s[st.at], st.(at := st.at + 1), Element(e, st, stack, before);
            && (IsOrdinary(c) && c != '.' ==> r == Meaning(before + [c], next))
            && (IsSpace(c) ==> r == Meaning(before + " ", st.(at := AfterSpaces(e.s, st.at))))
            && (c == '=' || c == '<' || c == '>' ==> r == Meaning(TrimEnd(before) + (" " + [c] + " "), next))
            && (c == '&' ==> r == Meaning(before, next)) && (c == '~' ==> r == Meaning(before + " ", next))
  {
  }

  lemma DotIsAppended(e: Env, st: State, stack: bool, before: string)
    requires st.at < |e.s| && e.s[st.at] == '.'
    ensures var next, r, marker := st.(at := st.at + 1), Element(e, st, stack, before), TrailingMarker(before);
            if marker.Some? && marker.value < |st.nodes| && st.nodes[marker.value].Matrix? && st.nodes[marker.value].lines != [] then
              var k, lines := marker.value, st.nodes[marker.value].lines;
              r == Meaning(before, next.(nodes := st.nodes[k := Matrix(lines[..|lines| - 1] + [lines[|lines| - 1] + "."], st.nodes[k].baseline)]))
            else r == Meaning(before + ".", next)
  {
    var marker := TrailingMarker(before);
    if EndsInMatrix(before, st.nodes) {
      var lines := st.nodes[marker.value].lines;
      assert lines[|lines| - 1 := lines[|lines| - 1] + "."] == lines[..|lines| - 1] + [lines[|lines| - 1] + "."];
    }
  }

  /** Text is read as itself. */
  lemma {:induction false} TextIsAppended(e: Env, st: State, stack: bool, end: Option<char>, before: string, text: string)
    requires st.at + |text| <= |e.s| && e.s[st.at..st.at + |text|] == text && (end.Some? ==> end == Some('}'))
    requires forall j :: 0 <= j < |text| ==> IsOrdinary(text[j]) && text[j] != '.'
    ensures Sequence(e, st, stack, end, before) == Sequence(e, st.(at := st.at + |text|), stack, end, before + text)
    decreases |text|
  {
    if text == "" {
      assert st.(at := st.at + |text|) == st && before + text == before;
    } else {
      var next := st.(at := st.at + 1);
      assert e.s[st.at] == e.s[st.at..st.at + |text|][0] == text[0];
      assert e.s[next.at..next.at + |text[1..]|] == e.s[st.at..st.at + |text|][1..];
      SequenceGoesOn(e, st, stack, end, before);
      CharacterIsAppended(e, st, stack, before);
      TextIsAppended(e, next, stack, end, before + [text[0]], text[1..]);
      assert before + [text[0]] + text[1..] == before + text;
    }
  }

  // ----- Sources in sources -----

  /** A source is supported when nothing in it was an error and all of it was read. */
  lemma WholeReads(e: Env, nodes: seq<LayoutNode>)
    ensures var m, r := Sequence(e, State(0, nodes, true), true, None, ""), Whole(e, nodes);
            && r.text == NormalizeOutput(e.t, m.text) && r.after.nodes == m.after.nodes
            && (r.after.ok <==> m.after.ok && m.after.at == |e.s|)
  {
  }

  /** A nested source that is not supported comes out as it is, and makes the whole unsupported. */
  lemma NestedReads(e: Env, st: State, text: string, stack: bool)
    requires |text| < |e.s|
    ensures var m, r := Whole(Env(e.t, text, e.display && stack), st.nodes), Nested(e, st, text, stack);
            if m.after.ok then r == Meaning(m.text, st.(nodes := m.after.nodes))
            else r.text == text && !r.after.ok && r.after.at == st.at && r.after.nodes == m.after.nodes
  {
  }

  lemma {:induction false} NameEnds(s: string, k: nat, end: nat)
    requires k <= end < |s| && s[end] == '}' && forall j :: k <= j < end ==> s[j] != '\\' && s[j] != '{' && s[j] != '}'
    ensures MatchingBrace(s, k, 1) == end
    decreases end - k
  {
    if k < end {
      NameEnds(s, k + 1, end);
    }
  }

  /** The source of an environment without braces in its name; its body ends where its end stands first. */
  ghost predicate EnvironmentAt(s: string, k: nat, name: string, body: string, marker: string) {
    && name != "" && (forall j :: 0 <= j < |name| ==> name[j] != '\\' && name[j] != '{' && name[j] != '}')
    && k + 2 + |name| + |body| + |marker| <= |s|
    && s[k] == '{' && s[k + 1..k + 1 + |name|] == name && s[k + 1 + |name|] == '}'
    && s[k + 2 + |name|..k + 2 + |name| + |body|] == body
    && IsFirstAt(s, marker, k + 2 + |name|, k + 2 + |name| + |body|)
  }

  ghost predicate IsFirstAt(s: string, marker: string, k: nat, end: nat) {
    k <= end && OccursAt(s, marker, end) && forall j :: k <= j < end ==> !OccursAt(s, marker, j)
  }

  lemma FirstIsFound(s: string, marker: string, k: nat, end: nat)
    requires IsFirstAt(s, marker, k, end)
    ensures IndexFrom(s, marker, k) == end
  {
    IndexFromIsFirst(s, marker, k);
  }

  lemma EnvironmentReads(e: Env, st: State, k: nat, name: string, body: string, marker: string, told: Meaning)
    requires marker == "\\end{" + name + "}" && k == AfterBlanks(e.s, st.at) && EnvironmentAt(e.s, k, name, body, marker)
    requires IsEnvironment(told, e, st)
    ensures IsBody(told, e, st.(at := k + 2 + |name| + |body| + |marker|), name, body)
  {
    var close, start, end := EnvironmentParts(e.s, k, name, body, marker);
    EnvironmentIsBody(e, st, k, close, told);
    NamedBody(e, st, close, start, e.s[k + 1..close], name, told);
    BodyIsFound(e, st.(at := start), name, end, told);
    BodyIsUpTo(e, st.(at := start), name, end, body, told);
    SameBody(e, st.(at := start).(at := end + |EndMarker(name)|), st.(at := k + 2 + |name| + |body| + |marker|), name, body, told);
  }

  lemma NamedBody(e: Env, st: State, close: nat, start: nat, found: string, name: string, told: Meaning)
    requires IsInBody(told, e, st.(at := close + 1), found) && start == close + 1 && found == name
    ensures IsInBody(told, e, st.(at := start), name)
  {
  }

  lemma SameBody(e: Env, st: State, same: State, name: string, body: string, told: Meaning)
    requires IsBody(told, e, st, name, body) && st == same
    ensures IsBody(told, e, same, name, body)
  {
  }

  lemma EnvironmentParts(s: string, k: nat, name: string, body: string, marker: string) returns (close: nat, start: nat, end: nat)
    requires marker == "\\end{" + name + "}" && EnvironmentAt(s, k, name, body, marker)
    ensures close == k + 1 + |name| && start == close + 1 && end == start + |body| < |s| && |marker| == |EndMarker(name)|
    ensures k + 1 < close && s[k] == '{' && MatchingBrace(s, k + 1, 1) == close && s[k + 1..close] == name
    ensures IndexFrom(s, EndMarker(name), start) == end && s[start..end] == body
  {
    close := k + 1 + |name|;
    start := close + 1;
    end := start + |body|;
    EndMarkerIs(name, marker);
    NameIsFound(s, k, name, body, marker);
    FirstIsFound(s, marker, start, end);
  }

  ghost predicate IsEnvironment(told: Meaning, e: Env, st: State) {
    forall details :: Spell(details) ==> told == InEnvironment(e, st)
  }

  ghost predicate IsBody(told: Meaning, e: Env, st: State, name: string, body: string) {
    |body| < |e.s| && forall details :: Spell(details) ==> told == Body(e, st, name, body)
  }

  ghost predicate IsInBody(told: Meaning, e: Env, st: State, name: string) {
    0 < st.at <= |e.s| && forall details :: Spell(details) ==> told == InBody(e, st, name)
  }

  ghost predicate IsUpTo(told: Meaning, e: Env, st: State, name: string, end: nat) {
    0 < st.at <= end < |e.s| && forall details :: Spell(details) ==> told == BodyUpTo(e, st, name, end)
  }

  lemma EndMarkerIs(name: string, marker: string)
    requires marker == "\\end{" + name + "}"
    ensures EndMarker(name) == marker
  {
  }

  lemma NameIsFound(s: string, k: nat, name: string, body: string, marker: string)
    requires EnvironmentAt(s, k, name, body, marker)
    ensures MatchingBrace(s, k + 1, 1) == k + 1 + |name|
  {
    forall j | k + 1 <= j < k + 1 + |name| ensures s[j] != '\\' && s[j] != '{' && s[j] != '}' {
      assert s[j] == name[j - k - 1];
    }
    NameEnds(s, k + 1, k + 1 + |name|);
  }

  lemma EnvironmentIsBody(e: Env, st: State, k: nat, close: nat, told: Meaning)
    requires k == AfterBlanks(e.s, st.at) && k + 1 < close < |e.s| && e.s[k] == '{' && MatchingBrace(e.s, k + 1, 1) == close
    requires IsEnvironment(told, e, st)
    ensures IsInBody(told, e, st.(at := close + 1), e.s[k + 1..close])
  {
    assert Spell(true);
  }

  lemma BodyIsFound(e: Env, st: State, name: string, end: nat, told: Meaning)
    requires IsInBody(told, e, st, name) && IndexFrom(e.s, EndMarker(name), st.at) == end < |e.s|
    ensures IsUpTo(told, e, st, name, end)
  {
    assert Spell(true);
  }

  lemma BodyIsUpTo(e: Env, st: State, name: string, end: nat, body: string, told: Meaning)
    requires IsUpTo(told, e, st, name, end) && body == e.s[st.at..end]
    ensures IsBody(told, e, st.(at := end + |EndMarker(name)|), name, body)
  {
    assert Spell(true);
  }

  // ----- Environments -----

  // Which environments are read in which way.

  lemma EquationNames(name: string)
    requires name == "equation" || name == "equation*" || name == "displaymath"
    ensures EnvironmentKind(name) == Equation
  {
  }

  lemma PairedNames(name: string)
    requires name == "alignedat" || name == "alignat" || name == "alignat*"
    ensures EnvironmentKind(name) == Aligned(true)
  {
  }

  lemma AlignedNames(name: string)
    requires name == "aligned" || name == "align" || name == "align*" || name == "split"
    ensures EnvironmentKind(name) == Aligned(false)
  {
  }

  lemma GatheredNames(name: string)
    requires name == "gather" || name == "gathered" || name == "multline" || name == "multline*"
    ensures EnvironmentKind(name) == Aligned(false)
  {
  }

  lemma CasesNames(name: string)
    requires name == "cases" || name == "cases*"
    ensures EnvironmentKind(name) == Cases
  {
  }

  lemma ArrayName()
    ensures EnvironmentKind("array") == Grid(true)
  {
  }

  lemma MatrixNames(name: string)
    requires name == "matrix" || name == "smallmatrix" || name == "pmatrix" || name == "bmatrix"
    ensures EnvironmentKind(name) == Grid(false)
  {
  }

  lemma FencedNames(name: string)
    requires name == "Bmatrix" || name == "vmatrix" || name == "Vmatrix"
    ensures EnvironmentKind(name) == Grid(false)
  {
  }

  /** A source that is read by itself. */
  ghost predicate IsNested(read: Meaning, e: Env, st: State, text: string, stack: bool) {
    |text| < |e.s| && forall details :: Spell(details) ==> read == Nested(e, st, text, stack)
  }

  /** Sources that are read by themselves, one after the other. */
  ghost predicate AreNested(read: seq<Meaning>, e: Env, st: State, sources: seq<string>, stack: bool) {
    && |read| == |sources|
    && forall k :: 0 <= k < |sources| ==> IsNested(read[k], e, StateBefore(read, st, k), sources[k], stack)
  }

  ghost function StateBefore(read: seq<Meaning>, st: State, k: nat): State
    requires k <= |read|
  {
    if k == 0 then st else read[k - 1].after
  }

  lemma AnotherNested(read: seq<Meaning>, e: Env, st: State, sources: seq<string>, stack: bool, m: Meaning, source: string)
    requires AreNested(read, e, st, sources, stack) && IsNested(m, e, StateBefore(read, st, |read|), source, stack)
    ensures AreNested(read + [m], e, st, sources + [source], stack)
  {
    var more := read + [m];
    forall k | 0 <= k < |more| ensures IsNested(more[k], e, StateBefore(more, st, k), (sources + [source])[k], stack) {
      assert StateBefore(more, st, k) == StateBefore(read, st, k);
    }
  }

  lemma EquationReads(e: Env, st: State, name: string, body: string, told: Meaning) returns (m: Meaning)
    requires IsBody(told, e, st, name, body) && EnvironmentKind(name) == Equation
    ensures IsNested(m, e, st, body, true) && told == Meaning(Trim(m.text), m.after)
  {
    assert Spell(true);
    m := Nested(e, st, body, true);
  }

  /** These cells were read one by one. */
  ghost predicate AreCells(m: Lines, e: Env, st: State, cells: seq<string>, read: seq<Meaning>) {
    AreNested(read, e, st, cells, false) && AreTrimmed(m.lines, read) && m.after == StateBefore(read, st, |read|)
  }

  lemma CellSnoc(before: Lines, e: Env, st: State, cells: seq<string>, read: seq<Meaning>, m: Meaning, cell: string, all: seq<string>)
    requires AreCells(before, e, st, cells, read) && IsNested(m, e, before.after, cell, false) && all == cells + [cell]
    ensures AreCells(Lines(before.lines + [Trim(m.text)], m.after), e, st, all, read + [m])
  {
    AnotherNested(read, e, st, cells, false, m, cell);
  }

  lemma CellStep(e: Env, st: State, cells: seq<string>, n: nat, before: Lines, m: Meaning)
    requires 0 < n <= |cells| && AllShorter(cells, |e.s|)
    requires before == Cells(e, st, cells, n - 1) && m == Nested(e, before.after, cells[n - 1], false)
    ensures Cells(e, st, cells, n) == Lines(before.lines + [Trim(m.text)], m.after)
  {
  }

  lemma LastOfSlice<T>(s: seq<T>, n: nat)
    requires 0 < n <= |s|
    ensures s[..n] == s[..n - 1] + [s[n - 1]]
  {
  }

  /** The cells of a row are read one by one, and fractions in them do not stack. */
  lemma {:induction false} CellsRead(e: Env, st: State, cells: seq<string>, n: nat, all: Lines) returns (read: seq<Meaning>)
    requires n <= |cells| && AllShorter(cells, |e.s|) && all == Cells(e, st, cells, n)
    ensures AreCells(all, e, st, cells[..n], read)
    decreases n
  {
    if n == 0 {
      read := [];
    } else {
      var before := Cells(e, st, cells, n - 1);
      read := CellsRead(e, st, cells, n - 1, before);
      var m := Nested(e, before.after, cells[n - 1], false);
      CellStep(e, st, cells, n, before, m);
      LastOfSlice(cells, n);
      CellSnoc(before, e, st, cells[..n - 1], read, m, cells[n - 1], cells[..n]);
      read := read + [m];
    }
  }

  ghost predicate AreTrimmed(texts: seq<string>, read: seq<Meaning>) {
    |texts| == |read| && forall k :: 0 <= k < |read| ==> texts[k] == Trim(read[k].text)
  }

  /** The texts at these positions, in order; the positions are those of the texts that are not empty. */
  ghost predicate AreNonempty(lines: seq<string>, texts: seq<string>, kept: seq<nat>) {
    && Increasing(kept, 0, |texts|) && (forall j :: 0 <= j < |texts| ==> (j in kept <==> texts[j] != ""))
    && |lines| == |kept| && forall i :: 0 <= i < |kept| ==> lines[i] == texts[kept[i]]
  }

  lemma NonemptySnoc(lines: seq<string>, texts: seq<string>, kept: seq<nat>, text: string) returns (more: seq<nat>)
    requires AreNonempty(lines, texts, kept)
    ensures AreNonempty(if text != "" then lines + [text] else lines, texts + [text], more)
  {
    more := if text != "" then kept + [|texts|] else kept;
    assert text != "" ==> more[|kept|] == |texts|;
    forall j | 0 <= j < |texts| + 1 ensures j in more <==> (texts + [text])[j] != "" {
      if j in more {
        var i :| 0 <= i < |more| && more[i] == j;
      }
      assert j < |texts| && j in kept ==> j in more;
    }
  }

  /** The sources of the rows of an aligned environment. */
  function Sources(rows: seq<string>, n: nat, pairs: bool): (sources: seq<string>)
    requires n <= |rows|
    ensures |sources| == n && forall k :: 0 <= k < n ==> sources[k] == RowSource(rows[k], pairs)
  {
    if n == 0 then [] else Sources(rows, n - 1, pairs) + [RowSource(rows[n - 1], pairs)]
  }

  lemma AlignedStep(e: Env, st: State, rows: seq<string>, n: nat, pairs: bool, before: Lines, m: Meaning)
    requires 0 < n <= |rows| && AllShorter(rows, |e.s|) && |RowSource(rows[n - 1], pairs)| < |e.s|
    requires before == AlignedLines(e, st, rows, n - 1, pairs) && m == Nested(e, before.after, RowSource(rows[n - 1], pairs), true)
    ensures AlignedLines(e, st, rows, n, pairs) == Lines(if Trim(m.text) != "" then before.lines + [Trim(m.text)] else before.lines, m.after)
  {
  }

  lemma TableStep(e: Env, st: State, rows: seq<string>, n: nat, before: Tabled, m: Lines)
    requires 0 < n <= |rows| && AllShorter(rows, |e.s|) && before == Table(e, st, rows, n - 1)
    requires IsRow(m.lines, e, before.after, m.after, rows[n - 1])
    ensures Table(e, st, rows, n)
            == Tabled(if IsFilled(m.lines) then before.rows + [m.lines] else before.rows, m.after)
  {
    assert HasText(m.lines) <==> IsFilled(m.lines);
  }

  /** These sources were read one by one, and what came out empty is gone. */
  ghost predicate AreAligned(m: Lines, e: Env, st: State, sources: seq<string>, read: seq<Meaning>, texts: seq<string>, kept: seq<nat>) {
    && AreNested(read, e, st, sources, true) && AreTrimmed(texts, read)
    && AreNonempty(m.lines, texts, kept) && m.after == StateBefore(read, st, |read|)
  }

  lemma AlignedSnoc(before: Lines, e: Env, st: State, sources: seq<string>,
                    read: seq<Meaning>, texts: seq<string>, kept: seq<nat>, m: Meaning, source: string) returns (more: seq<nat>)
    requires AreAligned(before, e, st, sources, read, texts, kept) && IsNested(m, e, before.after, source, true)
    ensures AreAligned(Lines(if Trim(m.text) != "" then before.lines + [Trim(m.text)] else before.lines, m.after),
                       e, st, sources + [source], read + [m], texts + [Trim(m.text)], more)
  {
    AnotherNested(read, e, st, sources, true, m, source);
    more := NonemptySnoc(before.lines, texts, kept, Trim(m.text));
  }

  lemma {:induction false} AlignedRead(e: Env, st: State, rows: seq<string>, n: nat, pairs: bool)
    returns (read: seq<Meaning>, texts: seq<string>, kept: seq<nat>)
    requires n <= |rows| && AllShorter(rows, |e.s|)
    ensures AreAligned(AlignedLines(e, st, rows, n, pairs), e, st, Sources(rows, n, pairs), read, texts, kept)
    decreases n
  {
    if n == 0 {
      read, texts, kept := [], [], [];
    } else {
      read, texts, kept := AlignedRead(e, st, rows, n - 1, pairs);
      RowSourceIsShorter(rows[n - 1], pairs, Strict(0));
      var before, source := AlignedLines(e, st, rows, n - 1, pairs), RowSource(rows[n - 1], pairs);
      var m := Nested(e, before.after, source, true);
      AlignedStep(e, st, rows, n, pairs, before, m);
      kept := AlignedSnoc(before, e, st, Sources(rows, n - 1, pairs), read, texts, kept, m, source);
      read, texts := read + [m], texts + [Trim(m.text)];
    }
  }

  lemma AlignedReads(e: Env, st: State, name: string, body: string, pairs: bool, told: Meaning)
    returns (read: seq<Meaning>, texts: seq<string>, kept: seq<nat>, lines: seq<string>)
    requires IsBody(told, e, st, name, body) && EnvironmentKind(name) == Aligned(pairs)
    ensures var rows := SplitRows(if pairs then StripGroup(body) else body);
            AreNested(read, e, st, Sources(rows, |rows|, pairs), true) && AreTrimmed(texts, read)
    ensures AreNonempty(lines, texts, kept) && told == Meaning(JoinWith(lines, "\n"), StateBefore(read, st, |read|))
  {
    assert Spell(true);
    RowsShorter(body, |e.s|);
    var rows := SplitRows(if pairs then StripGroup(body) else body);
    read, texts, kept := AlignedRead(e, st, rows, |rows|, pairs);
    lines := AlignedLines(e, st, rows, |rows|, pairs).lines;
  }

  // ----- Tables -----

  /** The states before and after each row, and the cells of all rows. */
  ghost predicate AreRows(states: seq<State>, cells: seq<seq<string>>, e: Env, rows: seq<string>) {
    && |cells| == |rows| && |states| == |rows| + 1
    && forall r :: 0 <= r < |rows| ==> IsRow(cells[r], e, states[r], states[r + 1], rows[r])
  }

  /** What the cells of one row come out as, and the state behind them. */
  ghost predicate IsRow(cells: seq<string>, e: Env, st: State, after: State, row: string) {
    && AllShorter(SplitOn(row, '&'), |e.s|)
    && Lines(cells, after) == Cells(e, st, SplitOn(row, '&'), |SplitOn(row, '&')|)
  }

  ghost predicate IsFilled(row: seq<string>) { exists c :: 0 <= c < |row| && row[c] != "" }

  /** The rows at these positions: those with a cell that is not empty. */
  ghost predicate AreFilled(table: seq<seq<string>>, cells: seq<seq<string>>, kept: seq<nat>) {
    && Increasing(kept, 0, |cells|)
    && (forall j :: 0 <= j < |cells| ==> (j in kept <==> IsFilled(cells[j])))
    && |table| == |kept| && forall i :: 0 <= i < |kept| ==> table[i] == cells[kept[i]]
  }

  lemma FilledSnoc(table: seq<seq<string>>, cells: seq<seq<string>>, kept: seq<nat>, row: seq<string>) returns (more: seq<nat>)
    requires AreFilled(table, cells, kept)
    ensures AreFilled(if IsFilled(row) then table + [row] else table, cells + [row], more)
  {
    var all := cells + [row];
    more := if IsFilled(row) then kept + [|cells|] else kept;
    assert IsFilled(row) ==> more[|kept|] == |cells|;
    forall j | 0 <= j < |all| ensures j in more <==> IsFilled(all[j]) {
      assert j in more <==> j in kept || (IsFilled(row) && j == |cells|);
      assert j < |cells| ==> all[j] == cells[j];
    }
  }

  lemma RowsSnoc(states: seq<State>, cells: seq<seq<string>>, e: Env, rows: seq<string>, n: nat, row: seq<string>, after: State)
    requires n < |rows| && AreRows(states, cells, e, rows[..n]) && IsRow(row, e, states[n], after, rows[n])
    ensures AreRows(states + [after], cells + [row], e, rows[..n + 1])
  {
    forall r | 0 <= r < n + 1
      ensures IsRow((cells + [row])[r], e, (states + [after])[r], (states + [after])[r + 1], rows[..n + 1][r])
    {
      if r < n {
        assert IsRow(cells[r], e, states[r], states[r + 1], rows[..n][r]);
      }
    }
  }

  /** These rows were read one by one, and those that came out empty are gone. */
  ghost predicate IsTable(m: Tabled, e: Env, st: State, rows: seq<string>, states: seq<State>, cells: seq<seq<string>>, kept: seq<nat>) {
    && AreRows(states, cells, e, rows) && states[0] == st
    && AreFilled(m.rows, cells, kept) && m.after == states[|rows|]
  }

  lemma TableSnoc(before: Tabled, e: Env, st: State, rows: seq<string>, n: nat, states: seq<State>, cells: seq<seq<string>>,
                  kept: seq<nat>, row: Lines) returns (more: seq<nat>)
    requires n < |rows| && IsTable(before, e, st, rows[..n], states, cells, kept)
    requires IsRow(row.lines, e, before.after, row.after, rows[n])
    ensures IsTable(Tabled(if IsFilled(row.lines) then before.rows + [row.lines] else before.rows, row.after),
                    e, st, rows[..n + 1], states + [row.after], cells + [row.lines], more)
  {
    RowsSnoc(states, cells, e, rows, n, row.lines, row.after);
    more := FilledSnoc(before.rows, cells, kept, row.lines);
  }

  /** The rows of a table are read one by one, and those that come out empty go. */
  lemma {:induction false} TableRead(e: Env, st: State, rows: seq<string>, n: nat)
    returns (states: seq<State>, cells: seq<seq<string>>, kept: seq<nat>)
    requires n <= |rows| && AllShorter(rows, |e.s|)
    ensures IsTable(Table(e, st, rows, n), e, st, rows[..n], states, cells, kept)
    decreases n
  {
    if n == 0 {
      states, cells, kept := [st], [], [];
    } else {
      states, cells, kept := TableRead(e, st, rows, n - 1);
      CellsShorter(rows[n - 1], |e.s|);
      var before, parts := Table(e, st, rows, n - 1), SplitOn(rows[n - 1], '&');
      var row := Cells(e, before.after, parts, |parts|);
      TableStep(e, st, rows, n, before, row);
      kept := TableSnoc(before, e, st, rows, n - 1, states, cells, kept, row);
      states, cells := states + [row.after], cells + [row.lines];
    }
  }

  lemma {:induction false} CaseTextExactly(rows: seq<seq<string>>, count: nat)
    requires count <= |rows|
    ensures forall k :: 0 <= k < count ==>
              CaseText(rows, count)[k] == CaseLine(if k == 0 then "⎧" else if k == |rows| - 1 then "⎩" else "⎨", rows[k])
  {
    if count > 0 {
      CaseTextExactly(rows, count - 1);
    }
  }

  lemma {:induction false} MatrixTextExactly(t: Tables, environment: string, rows: seq<seq<string>>, count: nat)
    requires count <= |rows|
    ensures forall k :: 0 <= k < count ==> MatrixText(t, environment, rows, count)[k] == MatrixLine(t, environment, rows, k)
  {
    if count > 0 {
      MatrixTextExactly(t, environment, rows, count - 1);
    }
  }

  /** The alternatives of a definition by cases, under one brace. */
  lemma CasesRead(e: Env, st: State, name: string, body: string, told: Meaning)
    returns (states: seq<State>, cells: seq<seq<string>>, kept: seq<nat>, table: seq<seq<string>>, lines: seq<string>)
    requires IsBody(told, e, st, name, body) && EnvironmentKind(name) == Cases
    ensures AreRows(states, cells, e, SplitRows(body)) && states[0] == st && AreFilled(table, cells, kept)
    ensures |lines| == |table|
            && forall k :: 0 <= k < |table| ==> lines[k] == CaseLine(if k == 0 then "⎧" else if k == |table| - 1 then "⎩" else "⎨", table[k])
    ensures told == Meaning(JoinWith(lines, "\n"), states[|states| - 1])
  {
    assert Spell(true);
    RowsShorter(body, |e.s|);
    var rows := SplitRows(body);
    states, cells, kept := TableRead(e, st, rows, |rows|);
    assert rows[..|rows|] == rows;
    table := Table(e, st, rows, |rows|).rows;
    lines := CaseText(table, |table|);
    CaseTextExactly(table, |table|);
  }

  /** A table of several lines becomes a node, and a shorter one is text. */
  lemma GridReads(e: Env, st: State, name: string, body: string, preamble: bool, told: Meaning)
    returns (states: seq<State>, cells: seq<seq<string>>, kept: seq<nat>, table: seq<seq<string>>, lines: seq<string>)
    requires IsBody(told, e, st, name, body) && EnvironmentKind(name) == Grid(preamble)
    ensures AreRows(states, cells, e, SplitRows(if preamble then StripGroup(body) else body)) && states[0] == st
    ensures AreFilled(table, cells, kept)
    ensures |lines| == |table| && forall k :: 0 <= k < |table| ==> lines[k] == MatrixLine(e.t, name, table, k)
    ensures var after := states[|states| - 1];
            told == if |lines| == 0 then Meaning("", after) else if |lines| == 1 then Meaning(lines[0], after)
                    else Meaning(Marker(|after.nodes|), after.(nodes := after.nodes + [Matrix(lines, 0)]))
  {
    assert Spell(true);
    RowsShorter(body, |e.s|);
    var rows := SplitRows(if preamble then StripGroup(body) else body);
    GridIs(e, st, name, rows, told);
    states, cells, kept := TableRead(e, st, rows, |rows|);
    assert rows[..|rows|] == rows;
    table := Table(e, st, rows, |rows|).rows;
    lines := MatrixText(e.t, name, table, |table|);
    MatrixTextExactly(e.t, name, table, |table|);
  }

  lemma GridIs(e: Env, st: State, name: string, rows: seq<string>, told: Meaning)
    requires AllShorter(rows, |e.s|) && told == InGrid(e, st, name, rows)
    ensures var m := Table(e, st, rows, |rows|);
            var lines := MatrixText(e.t, name, m.rows, |m.rows|);
            told == if |lines| == 0 then Meaning("", m.after) else if |lines| == 1 then Meaning(lines[0], m.after)
                    else Meaning(Marker(|m.after.nodes|), m.after.(nodes := m.after.nodes + [Matrix(lines, 0)]))
  {
  }

  lemma OtherEnvironmentsAreUnsupported(e: Env, st: State, name: string, body: string, told: Meaning)
    requires IsBody(told, e, st, name, body) && EnvironmentKind(name) == Unknown
    ensures !told.after.ok
  {
    assert Spell(true);
  }
}
