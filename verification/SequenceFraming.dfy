/**
  What the sequences that the scan emits look like: control sequences and control strings
  are framed as in sections 5.4 and 5.6 of ECMA-48, with the mouse reports as exceptions.
*/
module SequenceFraming {
  import opened EscapeSequences
  import opened Sequences

  /** A complete escape sequence none of whose proper prefixes is complete. */
  ghost predicate IsToken(s: Text) {
    && s != [] && s[0] == ESC && IsCompleteSequence(s) == Complete
    && forall k :: 0 <= k < |s| ==> IsCompleteSequence(s[..k]) != Complete
  }

  /** Everything emitted is a token, a lone ESC in front of another sequence, or a unit that is not ESC. */
  lemma {:induction false} EmittedAreTokens(buffer: Text)
    ensures forall k :: 0 <= k < |Extract(buffer).sequences| ==>
              IsToken(Extract(buffer).sequences[k]) || |Extract(buffer).sequences[k]| == 1
    decreases |buffer|
  {
    if buffer != [] && FirstCut(buffer) > 0 {
      var n := FirstCut(buffer);
      EmittedAreTokens(buffer[n..]);
      if n > 1 {
        assert forall k :: 0 <= k < n ==> buffer[..n][..k] == buffer[..k];
      }
    }
  }

  /** And a token alone in the buffer comes out whole. */
  lemma TokenComesOutWhole(s: Text)
    requires IsToken(s)
    ensures Extract(s) == Extraction([s], [])
  {
    assert s[..|s|] == s && s[|s|..] == [];
    assert SeqEnd(s, 1) == |s|;
  }

  // ----- SGR mouse reports -----

  function Field(digits: Text, delimiter: Unit, rest: Text): Text {
    digits + ([delimiter] + rest)
  }

  /** `<`, three digit fields with semicolons between them, and one last unit. */
  function Report(x: Text, y: Text, z: Text, last: Unit): Text {
    ['<' as int] + Field(x, ';' as int, Field(y, ';' as int, Field(z, last, [])))
  }

  ghost predicate IsReport(payload: Text, x: Text, y: Text, z: Text, last: Unit) {
    && AllDigits(x) && AllDigits(y) && AllDigits(z)
    && (last == 'M' as int || last == 'm' as int)
    && payload == Report(x, y, z, last)
  }

  lemma {:induction false} FieldIsFound(digits: Text, delimiter: Unit, rest: Text)
    requires AllDigits(digits) && !IsDigit(delimiter)
    ensures var s := Field(digits, delimiter, rest);
            HasField(s) && DigitRun(s) == |digits| && Delimiter(s) == delimiter && AfterField(s) == rest
  {
    var s := Field(digits, delimiter, rest);
    if |digits| == 1 {
      assert s[1..] == [delimiter] + rest;
    } else {
      FieldIsFound(digits[1..], delimiter, rest);
      assert s[1..] == Field(digits[1..], delimiter, rest);
    }
  }

  lemma {:induction false} DigitsInRun(s: Text)
    ensures forall k :: 0 <= k < DigitRun(s) ==> IsDigit(s[k])
    ensures DigitRun(s) < |s| ==> !IsDigit(s[DigitRun(s)])
  {
    if DigitRun(s) > 0 {
      DigitsInRun(s[1..]);
    }
  }

  lemma FoundIsField(s: Text)
    requires HasField(s)
    ensures AllDigits(s[..DigitRun(s)]) && s == Field(s[..DigitRun(s)], Delimiter(s), AfterField(s))
  {
    DigitsInRun(s);
  }

  lemma ReportMatches(x: Text, y: Text, z: Text, last: Unit)
    requires IsReport(Report(x, y, z, last), x, y, z, last)
    ensures MatchesMouse(Report(x, y, z, last))
  {
    var three := Field(z, last, []);
    var two := Field(y, ';' as int, three);
    assert Report(x, y, z, last)[1..] == Field(x, ';' as int, two);
    FieldIsFound(x, ';' as int, two);
    FieldIsFound(y, ';' as int, three);
    FieldIsFound(z, last, []);
  }

  lemma MatchIsReport(payload: Text) returns (x: Text, y: Text, z: Text, last: Unit)
    requires MatchesMouse(payload)
    ensures IsReport(payload, x, y, z, last)
  {
    var one := payload[1..];
    var two := AfterField(one);
    var three := AfterField(two);
    x, y, z, last := one[..DigitRun(one)], two[..DigitRun(two)], three[..DigitRun(three)], Delimiter(three);
    FoundIsField(one);
    FoundIsField(two);
    FoundIsField(three);
    assert payload == ['<' as int] + one;
  }

  lemma FieldSplits(digits: Text, delimiter: Unit, rest: Text)
    requires delimiter !in digits
    ensures SplitOn<Unit>(Field(digits, delimiter, rest), delimiter) == [digits] + SplitOn<Unit>(rest, delimiter)
  {
    assert Field(digits, delimiter, rest) == digits + [delimiter] + rest;
    SplitAfter<Unit>(digits, delimiter, rest);
  }

  function Join(fields: seq<Text>, separator: Unit): Text
    requires |fields| > 0
  {
    if |fields| == 1 then fields[0] else fields[0] + ([separator] + Join(fields[1..], separator))
  }

  lemma {:induction false} JoinSplit(s: Text, separator: Unit)
    ensures Join(SplitOn<Unit>(s, separator), separator) == s
  {
    if s != [] {
      JoinSplit(s[1..], separator);
      var rest := SplitOn<Unit>(s[1..], separator);
      if s[0] == separator {
        assert ([[]] + rest)[1..] == rest;
        assert [] + ([separator] + s[1..]) == s;
      } else {
        assert ([[s[0]] + rest[0]] + rest[1..])[1..] == rest[1..];
        assert Join(SplitOn<Unit>(s, separator), separator) == [s[0]] + Join(rest, separator);
      }
    }
  }

  lemma ReportHasFields(x: Text, y: Text, z: Text, last: Unit)
    requires IsReport(Report(x, y, z, last), x, y, z, last)
    ensures HasMouseFields(Report(x, y, z, last))
  {
    var payload := Report(x, y, z, last);
    var semicolon: Unit := ';' as int;
    assert payload[1..|payload| - 1] == Field(x, semicolon, Field(y, semicolon, z));
    FieldSplits(x, semicolon, Field(y, semicolon, z));
    FieldSplits(y, semicolon, z);
    SplitWhole<Unit>(z, semicolon);
  }

  lemma FieldsAreReport(payload: Text)
    requires |payload| >= 2 && payload[0] == '<' as int && HasMouseFields(payload)
    ensures var parts := SplitOn<Unit>(payload[1..|payload| - 1], ';' as int);
            payload == Report(parts[0], parts[1], parts[2], payload[|payload| - 1])
  {
    var inner := payload[1..|payload| - 1];
    var semicolon: Unit := ';' as int;
    var parts := SplitOn<Unit>(inner, semicolon);
    JoinSplit(inner, semicolon);
    assert parts[1..][0] == parts[1] && parts[1..][1..] == [parts[2]];
    assert Join(parts[1..], semicolon) == Field(parts[1], semicolon, parts[2]);
    assert inner == Field(parts[0], semicolon, Field(parts[1], semicolon, parts[2]));
    assert payload == ['<' as int] + inner + [payload[|payload| - 1]];
  }

  /**
    The second recogniser of mouse reports adds nothing: on a payload that starts with `<`
    and ends in M or m it accepts exactly what the pattern accepts.
  */
  lemma MouseFieldsAgree(payload: Text)
    requires |payload| >= 2 && payload[0] == '<' as int
    requires var last := payload[|payload| - 1]; last == 'M' as int || last == 'm' as int
    ensures HasMouseFields(payload) <==> MatchesMouse(payload)
  {
    if MatchesMouse(payload) {
      var x, y, z, last := MatchIsReport(payload);
      ReportHasFields(x, y, z, last);
    }
    if HasMouseFields(payload) {
      var parts := SplitOn<Unit>(payload[1..|payload| - 1], ';' as int);
      FieldsAreReport(payload);
      ReportMatches(parts[0], parts[1], parts[2], payload[|payload| - 1]);
    }
  }

  // ----- Control sequences -----

  /** `ESC [`, any units that are not final, one final unit; two kinds of mouse report apart. */
  ghost predicate IsControlSequence(s: Text) {
    && |s| >= 3 && s[..2] == [ESC, '[' as int]
    && if s[2] == 'M' as int then |s| == 6
       else if s[2] == '<' as int then MatchesMouse(s[2..])
       else 0x40 <= s[|s| - 1] <= 0x7E && forall k :: 2 <= k < |s| - 1 ==> !(0x40 <= s[k] <= 0x7E)
  }

  /** In a mouse report M and m occur only at the end. */
  lemma ReportEnds(payload: Text)
    requires MatchesMouse(payload)
    ensures |payload| > 1
    ensures payload[|payload| - 1] == 'M' as int || payload[|payload| - 1] == 'm' as int
    ensures forall k :: 0 <= k < |payload| - 1 ==> !IsFinal(payload[k])
  {
    var x, y, z, last := MatchIsReport(payload);
    var inner := ['<' as int] + Field(x, ';' as int, Field(y, ';' as int, z));
    assert payload == inner + [last];
    NoFinalInField(y, z);
    NoFinalInField(x, Field(y, ';' as int, z));
    assert forall k :: 0 <= k < |inner| ==> inner[k] in inner;
  }

  lemma NoFinalInField(digits: Text, rest: Text)
    requires AllDigits(digits) && forall u :: u in rest ==> !IsFinal(u)
    ensures forall u :: u in Field(digits, ';' as int, rest) ==> !IsFinal(u)
  {
    assert forall u :: u in digits ==> IsDigit(u);
  }

  /** Whether the first k units of a control sequence are complete. */
  predicate CompleteAt(s: Text, k: nat)
    requires k <= |s|
  {
    && k >= 3
    && if s[2] == 'M' as int then k >= 6
       else if s[2] == '<' as int then MatchesMouse(s[2..k])
       else IsFinal(s[k - 1])
  }

  lemma CompleteControl(s: Text)
    requires |s| >= 2 && s[..2] == [ESC, '[' as int]
    ensures IsCompleteSequence(s) == Complete <==> CompleteAt(s, |s|)
  {
    assert |s| >= 3 ==> s[2..|s|] == s[2..];
    if |s| >= 3 && s[2] == '<' as int {
      if MatchesMouse(s[2..]) {
        ReportEnds(s[2..]);
      } else if |s| >= 4 && (s[|s| - 1] == 'M' as int || s[|s| - 1] == 'm' as int) {
        MouseFieldsAgree(s[2..]);
      }
    }
  }

  lemma CompletePrefix(s: Text, k: nat)
    requires 2 <= k <= |s| && s[..2] == [ESC, '[' as int]
    ensures IsCompleteSequence(s[..k]) == Complete <==> CompleteAt(s, k)
  {
    assert s[..k][..2] == s[..2];
    assert k >= 3 ==> s[..k][2..k] == s[2..k];
    CompleteControl(s[..k]);
  }

  lemma TokenByPrefixes(s: Text)
    requires |s| >= 2 && s[..2] == [ESC, '[' as int]
    ensures IsToken(s) <==> CompleteAt(s, |s|) && forall k :: 2 <= k < |s| ==> !CompleteAt(s, k)
  {
    CompleteControl(s);
    forall k | 2 <= k < |s|
      ensures IsCompleteSequence(s[..k]) == Complete <==> CompleteAt(s, k)
    {
      CompletePrefix(s, k);
    }
  }

  lemma MouseReportOnce(s: Text)
    requires |s| >= 3 && MatchesMouse(s[2..])
    ensures forall k :: 3 <= k < |s| ==> !MatchesMouse(s[2..k])
  {
    ReportEnds(s[2..]);
    forall k | 3 <= k < |s| ensures !MatchesMouse(s[2..k]) {
      if MatchesMouse(s[2..k]) {
        ReportEnds(s[2..k]);
      }
    }
  }

  lemma FinalOnce(s: Text)
    requires |s| >= 3 && s[2] != 'M' as int && s[2] != '<' as int
    ensures (forall k :: 2 <= k < |s| ==> !CompleteAt(s, k)) <==> forall k :: 2 <= k < |s| - 1 ==> !IsFinal(s[k])
  {
    if forall k :: 2 <= k < |s| ==> !CompleteAt(s, k) {
      forall k | 2 <= k < |s| - 1 ensures !IsFinal(s[k]) {
        assert !CompleteAt(s, k + 1);
      }
    }
  }

  /** Control sequence framing, both ways. */
  lemma ControlFraming(s: Text)
    requires |s| >= 2 && s[..2] == [ESC, '[' as int]
    ensures IsToken(s) <==> IsControlSequence(s)
  {
    TokenByPrefixes(s);
    if |s| < 3 {
      return;
    }
    if s[2] == 'M' as int {
      assert |s| > 6 ==> CompleteAt(s, 6);
    } else if s[2] == '<' as int {
      assert s[2..|s|] == s[2..];
      if MatchesMouse(s[2..]) {
        MouseReportOnce(s);
      }
    } else {
      FinalOnce(s);
    }
  }

  // ----- Control strings -----

  /** Where a string opened by `u` may end: at ST, and for OSC also at BEL. */
  predicate EndsString(s: Text, u: Unit) {
    || (|s| >= 2 && s[|s| - 2] == 0x1B && s[|s| - 1] == '\\' as int)
    || (u == ']' as int && s != [] && s[|s| - 1] == 0x07)
  }

  lemma EndsStringExactly(s: Text, u: Unit)
    ensures EndsString(s, u) <==> EndsWith(s, ST) || (u == ']' as int && EndsWith(s, [BEL]))
  {
    if |s| >= 2 {
      assert s[|s| - 2..] == [s[|s| - 2], s[|s| - 1]];
    }
    if |s| >= 1 {
      assert s[|s| - 1..] == [s[|s| - 1]];
    }
  }

  /** A control string starts with ESC and its opener and stops at its first terminator. */
  ghost predicate IsControlString(s: Text, u: Unit) {
    && |s| >= 2 && s[..2] == [ESC, u] && EndsString(s, u)
    && forall k :: 2 <= k < |s| ==> !EndsString(s[..k], u)
  }

  lemma StringFraming(s: Text, u: Unit)
    requires u == ']' as int || u == 'P' as int || u == '_' as int
    requires |s| >= 2 && s[..2] == [ESC, u]
    ensures IsToken(s) <==> IsControlString(s, u)
  {
    forall k | 2 <= k <= |s|
      ensures IsCompleteSequence(s[..k]) == Complete <==> EndsString(s[..k], u)
    {
      assert s[..k][..2] == s[..2];
      EndsStringExactly(s[..k], u);
    }
    assert s[..|s|] == s;
    if IsControlString(s, u) {
      assert IsCompleteSequence(s[..1]) != Complete;
      assert IsCompleteSequence(s[..0]) != Complete;
    }
  }

  // ----- All tokens -----

  lemma ShortPrefixes(s: Text)
    requires s != [] && s[0] == ESC
    ensures IsCompleteSequence(s[..0]) != Complete && IsCompleteSequence(s[..1]) != Complete
  {
  }

  /** ESC and a unit that opens nothing longer are a key of their own, and nothing longer is. */
  lemma MetaFraming(s: Text)
    requires |s| >= 2 && s[0] == ESC && !Opens(s[1])
    ensures IsToken(s) <==> |s| == 2
  {
    ShortPrefixes(s);
    assert s[..2][0] == ESC && s[..2][1] == s[1];
    assert IsCompleteSequence(s[..2]) == Complete;
    if |s| == 2 {
      assert s[..2] == s;
    }
  }

  /** `ESC O` takes one more unit. */
  lemma SingleShiftFraming(s: Text)
    requires |s| >= 2 && s[0] == ESC && s[1] == 'O' as int
    ensures IsToken(s) <==> |s| == 3
  {
    ShortPrefixes(s);
    assert IsCompleteSequence(s[..2]) != Complete by {
      assert s[..2][1] == s[1];
    }
    if |s| > 3 {
      assert s[..3][1] == s[1];
      assert IsCompleteSequence(s[..3]) == Complete;
    }
  }

  /** Every text: which sequences the scan takes as a whole, told from their units alone. */
  lemma TokenExactly(s: Text)
    ensures IsToken(s) <==>
              && |s| >= 2 && s[0] == 0x1B
              && if s[1] == '[' as int then IsControlSequence(s)
                 else if s[1] == ']' as int || s[1] == 'P' as int || s[1] == '_' as int then IsControlString(s, s[1])
                 else if s[1] == 'O' as int then |s| == 3
                 else |s| == 2
  {
    if |s| >= 2 && s[0] == ESC {
      assert s[..2] == [ESC, s[1]];
      if s[1] == '[' as int {
        ControlFraming(s);
      } else if s[1] == ']' as int || s[1] == 'P' as int || s[1] == '_' as int {
        StringFraming(s, s[1]);
      } else if s[1] == 'O' as int {
        SingleShiftFraming(s);
      } else {
        MetaFraming(s);
      }
    }
  }

  /** The units that open something longer are those after which ESC is not complete yet. */
  lemma OpensExactly(u: Unit)
    ensures Opens(u) <==> !IsToken([ESC, u])
    ensures Opens(u) <==> u == '[' as int || u == ']' as int || u == 'O' as int || u == 'P' as int || u == '_' as int
  {
    TokenExactly([ESC, u]);
  }
}
