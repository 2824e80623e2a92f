/**
  The text operations of the LaTeX renderer, and what they do to layout markers.
  A marker is MARK_START, the decimal index of a layout node, MARK_END. A text is safe
  below n when every marker in it is whole and refers to a node below n; markers that were
  struck through are looked over. It is strictly safe below n when the characters of
  markers stand nowhere else in it.
*/
module LatexText {
  import opened Decimals
  import opened Sequences
  import opened WhiteSpace
  import opened Wrappers

  const MARK_START := '\U{F0000}'
  const MARK_END := '\U{F0001}'
  const PROTECTED_SPACE := '\U{F0002}'
  const NAMED_START := '\U{F0004}'
  const NAMED_END := '\U{F0005}'
  const OVERLAY := '\U{0338}'   // the combining stroke of a negated symbol

  predicate IsAsciiLetter(c: char) { 'A' <= c <= 'Z' || 'a' <= c <= 'z' }

  predicate IsBlank(c: char) { c == ' ' || c == '\t' }

  // ----- The scanner -----

  datatype Scan = Out | In(value: nat, digits: nat)

  /** The nodes that markers may refer to, and whether struck markers count as broken. */
  datatype Bound = Bound(below: nat, strict: bool)

  function Loose(n: nat): Bound { Bound(n, false) }

  function Strict(n: nat): Bound { Bound(n, true) }

  predicate Within(limit: Bound, wider: Bound) { limit.below <= wider.below && (wider.strict ==> limit.strict) }

  /** None: the text breaks a marker off or refers to a node that is not below the bound. */
  function Step(st: Scan, c: char, limit: Bound): Option<Scan> {
    match st
    case Out => if c == MARK_START then Some(In(0, 0)) else if c == MARK_END && limit.strict then None else Some(Out)
    case In(value, digits) =>
      if IsDigit(c) then Some(In(value * 10 + DigitValue(c), digits + 1))
      else if c == MARK_END then (if digits > 0 && value < limit.below then Some(Out) else None)
      else if c == OVERLAY && !limit.strict then Some(Out)   // a marker struck through is no marker any more
      else None
  }

  function Run(st: Scan, s: string, limit: Bound): Option<Scan>
    decreases |s|
  {
    if s == [] then Some(st)
    else
      var next := Step(st, s[0], limit);
      if next.None? then None else Run(next.value, s[1..], limit)
  }

  predicate Safe(s: string, limit: Bound) { Run(Out, s, limit) == Some(Out) }

  predicate AllSafe(parts: seq<string>, limit: Bound) {
    forall k :: 0 <= k < |parts| ==> Safe(parts[k], limit)
  }

  predicate NoMark(c: char) { c != MARK_START && c != MARK_END }

  predicate NoMarks(s: string) { MARK_START !in s && MARK_END !in s }

  /** No marker starts in the text and, where that counts, none ends. */
  predicate Free(s: string, limit: Bound) { MARK_START !in s && (limit.strict ==> MARK_END !in s) }

  /** Characters that cannot stand inside a marker, so that text operations may drop or replace them. */
  predicate Neutral(c: char) {
    c != MARK_START && c != MARK_END && c != OVERLAY && !IsDigit(c)
  }

  lemma {:induction false} RunConcat(st: Scan, a: string, b: string, limit: Bound)
    ensures Run(st, a + b, limit) == if Run(st, a, limit).None? then None else Run(Run(st, a, limit).value, b, limit)
    decreases |a|
  {
    if a == [] {
      assert a + b == b;
    } else {
      assert (a + b)[1..] == a[1..] + b;
      if Step(st, a[0], limit).Some? {
        RunConcat(Step(st, a[0], limit).value, a[1..], b, limit);
      }
    }
  }

  lemma SafeConcat(a: string, b: string, limit: Bound)
    requires Safe(a, limit) && Safe(b, limit)
    ensures Safe(a + b, limit)
  {
    RunConcat(Out, a, b, limit);
  }

  lemma {:induction false} FreeIsSafe(s: string, limit: Bound)
    requires Free(s, limit)
    ensures Safe(s, limit)
  {
    if s != [] {
      FreeIsSafe(s[1..], limit);
    }
  }

  lemma {:induction false} RunMonotone(st: Scan, s: string, limit: Bound, wider: Bound)
    requires Within(limit, wider) && Run(st, s, limit).Some?
    ensures Run(st, s, wider) == Run(st, s, limit)
    decreases |s|
  {
    if s != [] {
      RunMonotone(Step(st, s[0], limit).value, s[1..], limit, wider);
    }
  }

  lemma SafeMonotone(s: string, limit: Bound, wider: Bound)
    requires Within(limit, wider) && Safe(s, limit)
    ensures Safe(s, wider)
  {
    RunMonotone(Out, s, limit, wider);
  }

  /** No node is below 0, so a text strictly safe below 0 holds no character of a marker. */
  lemma {:induction false} StrictlyNone(st: Scan, s: string)
    requires Run(st, s, Strict(0)) == Some(Out)
    ensures st == Out && NoMarks(s)
    decreases |s|
  {
    if s != [] {
      StrictlyNone(Step(st, s[0], Strict(0)).value, s[1..]);
    }
  }

  predicate Unmarked(s: string) { Safe(s, Strict(0)) }

  lemma NoMarksExactly(s: string)
    ensures Unmarked(s) <==> NoMarks(s)
  {
    if Unmarked(s) {
      StrictlyNone(Out, s);
    } else if NoMarks(s) {
      FreeIsSafe(s, Strict(0));
    }
  }

  // ----- Decimal indices -----

  function Marker(k: nat): string {
    [MARK_START] + Decimal(k) + [MARK_END]
  }

  lemma {:induction false} RunDecimal(k: nat, limit: Bound)
    ensures Run(In(0, 0), Decimal(k), limit) == Some(In(k, |Decimal(k)|))
  {
    if k >= 10 {
      RunDecimal(k / 10, limit);
      var last := [('0' as int + k % 10) as char];
      RunConcat(In(0, 0), Decimal(k / 10), last, limit);
      assert last[1..] == [];
    } else {
      assert Decimal(k)[1..] == [];
    }
  }

  /** A marker is safe exactly above its index. */
  lemma MarkerIsSafe(k: nat, limit: Bound)
    ensures Safe(Marker(k), limit) <==> k < limit.below
  {
    RunDecimal(k, limit);
    RunConcat(In(0, 0), Decimal(k), [MARK_END], limit);
    assert Marker(k)[1..] == Decimal(k) + [MARK_END];
    assert [MARK_END][1..] == [];
  }

  // ----- Dropping and replacing neutral characters -----

  /** t has the same effect on the scanner as s, wherever s is scanned without a break. */
  ghost predicate Keeps(s: string, t: string, limit: Bound) {
    forall st :: Run(st, s, limit).Some? ==> Run(st, t, limit) == Run(st, s, limit)
  }

  lemma KeepsSafe(s: string, t: string, limit: Bound)
    requires Keeps(s, t, limit) && Safe(s, limit)
    ensures Safe(t, limit)
  {
  }

  lemma KeepsConcat(a: string, a': string, b: string, b': string, limit: Bound)
    requires Keeps(a, a', limit) && Keeps(b, b', limit)
    ensures Keeps(a + b, a' + b', limit)
  {
    forall st | Run(st, a + b, limit).Some? ensures Run(st, a' + b', limit) == Run(st, a + b, limit) {
      RunConcat(st, a, b, limit);
      RunConcat(st, a', b', limit);
    }
  }

  lemma KeepsNeutral(c: char, t: string, limit: Bound)
    requires Neutral(c) && Free(t, limit)
    ensures Keeps([c], t, limit)
  {
    FreeIsSafe(t, limit);
    forall st | Run(st, [c], limit).Some? ensures Run(st, t, limit) == Run(st, [c], limit) {
      assert [c][1..] == [];
      assert st == Out;
    }
  }

  /** The common step: a function that rewrites the first character and goes on with the rest. */
  lemma KeepsCons(s: string, front: string, rest: string, limit: Bound)
    requires s != [] && (front == [s[0]] || (Neutral(s[0]) && Free(front, limit)))
    requires Keeps(s[1..], rest, limit)
    ensures Keeps(s, front + rest, limit)
  {
    if front != [s[0]] {
      KeepsNeutral(s[0], front, limit);
    }
    KeepsConcat([s[0]], front, s[1..], rest, limit);
    assert [s[0]] + s[1..] == s;
  }

  // ----- Trimming -----

  lemma {:induction false} TrimStartKeeps(s: string, limit: Bound)
    ensures Keeps(s, TrimStart(s), limit)
  {
    if s != [] && IsSpace(s[0]) {
      TrimStartKeeps(s[1..], limit);
      KeepsCons(s, [], TrimStart(s[1..]), limit);
      assert [] + TrimStart(s[1..]) == TrimStart(s[1..]);
    }
  }

  lemma {:induction false} TrimEndKeeps(s: string, limit: Bound)
    ensures Keeps(s, TrimEnd(s), limit)
  {
    if s != [] && IsSpace(s[|s| - 1]) {
      var shorter := s[..|s| - 1];
      TrimEndKeeps(shorter, limit);
      KeepsNeutral(s[|s| - 1], [], limit);
      KeepsConcat(shorter, TrimEnd(shorter), [s[|s| - 1]], [], limit);
      assert shorter + [s[|s| - 1]] == s;
      assert TrimEnd(shorter) + [] == TrimEnd(shorter);
    }
  }

  lemma TrimSafe(s: string, limit: Bound)
    requires Safe(s, limit)
    ensures Safe(TrimStart(s), limit) && Safe(TrimEnd(s), limit) && Safe(Trim(s), limit)
  {
    TrimStartKeeps(s, limit);
    TrimEndKeeps(s, limit);
    TrimEndKeeps(TrimStart(s), limit);
  }

  // ----- Splitting and joining -----

  lemma {:induction false} SplitRun(s: string, separator: char, st: Scan, limit: Bound)
    requires Neutral(separator) && Run(st, s, limit) == Some(Out)
    ensures var parts := SplitOn(s, separator);
            Run(st, parts[0], limit) == Some(Out) && AllSafe(parts[1..], limit)
    decreases |s|
  {
    if s != [] {
      SplitRun(s[1..], separator, Step(st, s[0], limit).value, limit);
      var rest := SplitOn(s[1..], separator);
      if s[0] == separator {
        assert ([[]] + rest)[1..] == rest;
        assert forall k :: 0 < k < |rest| ==> rest[k] == rest[1..][k - 1];
      } else {
        assert ([[s[0]] + rest[0]] + rest[1..])[1..] == rest[1..];
        assert ([s[0]] + rest[0])[1..] == rest[0];
      }
    }
  }

  lemma SplitSafe(s: string, separator: char, limit: Bound)
    requires Neutral(separator) && Safe(s, limit)
    ensures AllSafe(SplitOn(s, separator), limit)
  {
    SplitRun(s, separator, Out, limit);
    var parts := SplitOn(s, separator);
    assert forall k :: 0 < k < |parts| ==> parts[k] == parts[1..][k - 1];
  }

  lemma {:induction false} JoinSafe(parts: seq<string>, separator: string, limit: Bound)
    requires AllSafe(parts, limit) && Free(separator, limit)
    ensures Safe(JoinWith(parts, separator), limit)
  {
    if |parts| > 1 {
      JoinSafe(parts[1..], separator, limit);
      FreeIsSafe(separator, limit);
      SafeConcat(parts[0], separator, limit);
      SafeConcat(parts[0] + separator, JoinWith(parts[1..], separator), limit);
    }
  }

  // ----- The tables -----

  /** The symbol tables, the Unicode classes and the visible width, as far as the renderer consults them. */
  datatype Tables = Tables(
    spacing: set<string>, negativeSpacing: set<string>, ignored: set<string>, limitOperators: set<string>,
    symbols: map<string, string>, displayLimitSymbols: set<string>, relations: set<string>,
    namedOperators: set<string>, sizes: set<string>, plainWrappers: set<string>,
    negated: map<string, string>, accents: map<string, char>, blackboard: map<char, char>,
    subscripts: map<char, char>, superscripts: map<char, char>,
    isLetter: char -> bool, isNumber: char -> bool, width: string -> nat)
  {
    /** No table produces a character of a marker, and only neutral characters have a blackboard form. */
    ghost predicate Valid() {
      && (forall k :: k in symbols ==> NoMarks(symbols[k]))
      && (forall k :: k in namedOperators ==> NoMarks(k))
      && (forall k :: k in limitOperators ==> NoMarks(k))
      && (forall k :: k in negated ==> NoMarks(k) && NoMarks(negated[k]))
      && (forall k :: k in accents ==> NoMark(accents[k]) && NoMarks(k))
      && (forall c :: c in blackboard ==> Neutral(c) && NoMark(blackboard[c]))
      && (forall c :: c in subscripts ==> NoMark(subscripts[c]))
      && (forall c :: c in superscripts ==> NoMark(superscripts[c]))
    }

    predicate Simple(c: char) { isLetter(c) || isNumber(c) || c == '.' }

    predicate AllSimple(s: string) { s != [] && forall k :: 0 <= k < |s| ==> Simple(s[k]) }

    predicate AllNumeric(s: string) { s != [] && forall k :: 0 <= k < |s| ==> isNumber(s[k]) || s[k] == '.' }
  }

  // ----- normalizeOutput -----

  /** Operator starts become a space after a letter, a number, a closing bracket or a marker, else nothing. */
  function LeftSpacing(t: Tables, s: string, previous: Option<char>): string {
    if s == [] then []
    else
      (if s[0] != NAMED_START then [s[0]]
       else if previous.Some? && (t.isLetter(previous.value) || t.isNumber(previous.value) || previous.value == ')'
                                  || previous.value == ']' || previous.value == '}' || previous.value == MARK_END)
       then " " else "")
      + LeftSpacing(t, s[1..], Some(s[0]))
  }

  /** Operator ends become a space before a letter, a number, a root or a marker, else nothing. */
  function RightSpacing(t: Tables, s: string): string {
    if s == [] then []
    else
      (if s[0] != NAMED_END then [s[0]]
       else if |s| > 1 && (t.isLetter(s[1]) || t.isNumber(s[1]) || s[1] == '√' || s[1] == MARK_START)
       then " " else "")
      + RightSpacing(t, s[1..])
  }

  /** Every run of blanks becomes one space. */
  function Collapse(s: string): string {
    if s == [] then []
    else if !IsBlank(s[0]) then [s[0]] + Collapse(s[1..])
    else if |s| > 1 && IsBlank(s[1]) then Collapse(s[1..])
    else " " + Collapse(s[1..])
  }

  function TidyLines(lines: seq<string>): (tidy: seq<string>)
    ensures |tidy| == |lines|
  {
    if lines == [] then [] else [Trim(Collapse(lines[0]))] + TidyLines(lines[1..])
  }

  /** Empty lines go when they are the first or the last. */
  function KeepLines(lines: seq<string>, index: nat, count: nat): seq<string> {
    if lines == [] then []
    else (if lines[0] != [] || 0 < index < count - 1 then [lines[0]] else []) + KeepLines(lines[1..], index + 1, count)
  }

  function NormalizeOutput(t: Tables, value: string): string {
    var spaced := RightSpacing(t, LeftSpacing(t, value, None));
    var lines := TidyLines(SplitOn(spaced, '\n'));
    Trim(JoinWith(KeepLines(lines, 0, |lines|), "\n"))
  }

  lemma {:induction false} LeftSpacingKeeps(t: Tables, s: string, previous: Option<char>, limit: Bound)
    ensures Keeps(s, LeftSpacing(t, s, previous), limit)
    decreases |s|
  {
    if s != [] {
      LeftSpacingKeeps(t, s[1..], Some(s[0]), limit);
      var rest := LeftSpacing(t, s[1..], Some(s[0]));
      var front := LeftSpacing(t, s, previous)[..|LeftSpacing(t, s, previous)| - |rest|];
      assert front == [s[0]] || s[0] == NAMED_START;
      KeepsCons(s, front, rest, limit);
    }
  }

  lemma {:induction false} RightSpacingKeeps(t: Tables, s: string, limit: Bound)
    ensures Keeps(s, RightSpacing(t, s), limit)
  {
    if s != [] {
      RightSpacingKeeps(t, s[1..], limit);
      var rest := RightSpacing(t, s[1..]);
      var front := RightSpacing(t, s)[..|RightSpacing(t, s)| - |rest|];
      assert front == [s[0]] || s[0] == NAMED_END;
      KeepsCons(s, front, rest, limit);
    }
  }

  lemma {:induction false} CollapseKeeps(s: string, limit: Bound)
    ensures Keeps(s, Collapse(s), limit)
  {
    if s != [] {
      CollapseKeeps(s[1..], limit);
      var rest := Collapse(s[1..]);
      if !IsBlank(s[0]) {
        KeepsCons(s, [s[0]], rest, limit);
      } else if |s| > 1 && IsBlank(s[1]) {
        KeepsCons(s, [], rest, limit);
        assert [] + rest == rest;
      } else {
        KeepsCons(s, " ", rest, limit);
      }
    }
  }

  lemma {:induction false} TidySafe(lines: seq<string>, limit: Bound)
    requires AllSafe(lines, limit)
    ensures AllSafe(TidyLines(lines), limit)
  {
    if lines != [] {
      TidySafe(lines[1..], limit);
      CollapseKeeps(lines[0], limit);
      TrimSafe(Collapse(lines[0]), limit);
    }
  }

  lemma {:induction false} KeepLinesSafe(lines: seq<string>, index: nat, count: nat, limit: Bound)
    requires AllSafe(lines, limit)
    ensures AllSafe(KeepLines(lines, index, count), limit)
    decreases |lines|
  {
    if lines != [] {
      KeepLinesSafe(lines[1..], index + 1, count, limit);
    }
  }

  lemma NormalizeSafe(t: Tables, value: string, limit: Bound)
    requires Safe(value, limit)
    ensures Safe(NormalizeOutput(t, value), limit)
  {
    var left := LeftSpacing(t, value, None);
    LeftSpacingKeeps(t, value, None, limit);
    RightSpacingKeeps(t, left, limit);
    SplitSafe(RightSpacing(t, left), '\n', limit);
    var lines := SplitOn(RightSpacing(t, left), '\n');
    TidySafe(lines, limit);
    KeepLinesSafe(TidyLines(lines), 0, |lines|, limit);
    JoinSafe(KeepLines(TidyLines(lines), 0, |lines|), "\n", limit);
    TrimSafe(JoinWith(KeepLines(TidyLines(lines), 0, |lines|), "\n"), limit);
  }

  // ----- Text that normalisation leaves alone -----

  lemma NormalizedIsTrimmed(t: Tables, value: string)
    ensures !EndsInSpace(NormalizeOutput(t, value))
  {
    var lines := TidyLines(SplitOn(RightSpacing(t, LeftSpacing(t, value, None)), '\n'));
    TrimEndIsTrimmed(TrimStart(JoinWith(KeepLines(lines, 0, |lines|), "\n")));
  }

  /** No white space and no operator marks. */
  ghost predicate Plain(s: string) {
    forall k :: 0 <= k < |s| ==> !IsSpace(s[k]) && s[k] != NAMED_START && s[k] != NAMED_END
  }

  lemma {:induction false} PlainIsKept(t: Tables, s: string, previous: Option<char>)
    requires Plain(s)
    ensures LeftSpacing(t, s, previous) == s && RightSpacing(t, s) == s && Collapse(s) == s
    ensures SplitOn(s, '\n') == [s] && Trim(s) == s
    decreases |s|
  {
    if s != [] {
      PlainIsKept(t, s[1..], Some(s[0]));
      assert [s[0]] + s[1..] == s;
    }
  }

  lemma NormalizeLeavesPlain(t: Tables, s: string)
    requires Plain(s) && s != []
    ensures NormalizeOutput(t, s) == s
  {
    PlainIsKept(t, s, None);
    assert [s][1..] == [];
    assert TidyLines([s]) == [s];
    assert KeepLines([s], 0, 1) == [s];
  }
}
