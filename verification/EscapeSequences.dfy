/**
  Splitting terminal input into escape sequences: when a candidate is complete, and the
  scan that cuts a buffer into complete sequences and an incomplete remainder.
*/
module EscapeSequences {
  import opened Sequences

  /** A UTF-16 code unit, the element of the source's strings. */
  type Unit = n: nat | n < 0x1_0000
  type Text = seq<Unit>

  const ESC: Unit := 0x1B
  const BEL: Unit := 0x07
  const ST: Text := [ESC, '\\' as int]

  datatype Status = Complete | Incomplete | NotEscape

  predicate IsDigit(u: Unit) { '0' as int <= u <= '9' as int }

  predicate AllDigits(s: Text) { |s| > 0 && forall k :: 0 <= k < |s| ==> IsDigit(s[k]) }

  /** The bytes 0x40 to 0x7E that end a control sequence (section 5.4 of ECMA-48). */
  predicate IsFinal(u: Unit) { 0x40 <= u <= 0x7E }

  predicate EndsWith(s: Text, suffix: Text) {
    |suffix| <= |s| && s[|s| - |suffix|..] == suffix
  }

  /** How many units from the front are digits. */
  function DigitRun(s: Text): (n: nat)
    ensures n <= |s|
  {
    if s == [] || !IsDigit(s[0]) then 0 else 1 + DigitRun(s[1..])
  }

  /** Some digits and then a unit that is not one. */
  predicate HasField(s: Text) {
    0 < DigitRun(s) < |s|
  }

  function Delimiter(s: Text): Unit
    requires HasField(s)
  {
    s[DigitRun(s)]
  }

  function AfterField(s: Text): Text
    requires HasField(s)
  {
    s[DigitRun(s) + 1..]
  }

  /** `<digits;digits;digits` and then M or m: the pattern of an SGR mouse report. */
  predicate MatchesMouse(payload: Text) {
    && payload != [] && payload[0] == '<' as int
    && var one := payload[1..];
    && HasField(one) && Delimiter(one) == ';' as int
    && var two := AfterField(one);
    && HasField(two) && Delimiter(two) == ';' as int
    && var three := AfterField(two);
    && HasField(three) && (Delimiter(three) == 'M' as int || Delimiter(three) == 'm' as int)
    && AfterField(three) == []
  }

  /** The same report recognised by splitting the text between `<` and the last unit. */
  predicate HasMouseFields(payload: Text) {
    && |payload| >= 2
    && var parts := SplitOn<Unit>(payload[1..|payload| - 1], ';' as int);
    && |parts| == 3
    && AllDigits(parts[0]) && AllDigits(parts[1]) && AllDigits(parts[2])
  }

  function CsiStatus(data: Text): Status {
    if !([ESC, '[' as int] <= data) then Complete
    else if |data| < 3 then Incomplete
    else
      var payload := data[2..];
      var last := payload[|payload| - 1];
      if !IsFinal(last) then Incomplete
      else if payload[0] != '<' as int then Complete
      else if MatchesMouse(payload) then Complete
      else if (last == 'M' as int || last == 'm' as int) && HasMouseFields(payload) then Complete
      else Incomplete
  }

  function OscStatus(data: Text): Status {
    if !([ESC, ']' as int] <= data) then Complete
    else if EndsWith(data, ST) || EndsWith(data, [BEL]) then Complete
    else Incomplete
  }

  function DcsStatus(data: Text): Status {
    if !([ESC, 'P' as int] <= data) then Complete
    else if EndsWith(data, ST) then Complete
    else Incomplete
  }

  function ApcStatus(data: Text): Status {
    if !([ESC, '_' as int] <= data) then Complete
    else if EndsWith(data, ST) then Complete
    else Incomplete
  }

  function IsCompleteSequence(data: Text): Status {
    if !([ESC] <= data) then NotEscape
    else if |data| == 1 then Incomplete
    else if data[1] == '[' as int then
      if |data| >= 3 && data[2] == 'M' as int then (if |data| >= 6 then Complete else Incomplete)
      else CsiStatus(data)
    else if data[1] == ']' as int then OscStatus(data)
    else if data[1] == 'P' as int then DcsStatus(data)
    else if data[1] == '_' as int then ApcStatus(data)
    else if data[1] == 'O' as int then (if |data| >= 3 then Complete else Incomplete)
    else Complete
  }

  /** The units that open a longer sequence after ESC. */
  predicate Opens(u: Unit) {
    u == '[' as int || u == ']' as int || u == 'O' as int || u == 'P' as int || u == '_' as int
  }

  // ----- The scan -----

  /** The least complete prefix length from n on, or |s| + 1 when there is none. */
  function SeqEnd(s: Text, n: nat): (end: nat)
    requires 1 <= n <= |s| + 1
    ensures n <= end <= |s| + 1
    ensures forall k :: n <= k < end ==> IsCompleteSequence(s[..k]) != Complete
    ensures end <= |s| ==> IsCompleteSequence(s[..end]) == Complete
    decreases |s| - n
  {
    if n > |s| || IsCompleteSequence(s[..n]) == Complete then n else SeqEnd(s, n + 1)
  }

  datatype Extraction = Extraction(sequences: seq<Text>, remainder: Text)

  function Before(sequence: Text, rest: Extraction): Extraction {
    Extraction([sequence] + rest.sequences, rest.remainder)
  }

  /** ESC ESC is cut after its first ESC when the unit after it would open a sequence. */
  predicate Restarts(s: Text, end: nat) {
    end == 2 && |s| > 2 && s[..2] == [ESC, ESC] && Opens(s[2])
  }

  /** How many units the scan takes off the front; 0 when the sequence there is incomplete. */
  function FirstCut(s: Text): (n: nat)
    requires s != []
    ensures n <= |s|
  {
    if s[0] != ESC then 1
    else
      var end := SeqEnd(s, 1);
      if end > |s| then 0 else if Restarts(s, end) then 1 else end
  }

  function Extract(buffer: Text): Extraction {
    if buffer == [] then Extraction([], [])
    else
      var n := FirstCut(buffer);
      if n == 0 then Extraction([], buffer) else Before(buffer[..n], Extract(buffer[n..]))
  }

  /** The inner loop: grow the candidate until it is complete. */
  method FindEnd(remaining: Text) returns (seqEnd: nat)
    requires [ESC] <= remaining
    ensures 1 <= seqEnd && seqEnd == SeqEnd(remaining, 1)
  {
    seqEnd := 1;
    while seqEnd <= |remaining|
      invariant 1 <= seqEnd <= |remaining| + 1
      invariant SeqEnd(remaining, 1) == SeqEnd(remaining, seqEnd)
    {
      var status := IsCompleteSequence(remaining[..seqEnd]);
      if status == Complete {
        return;
      } else if status == Incomplete {
        seqEnd := seqEnd + 1;
      } else {
        assert false;   // a candidate starts with ESC
      }
    }
  }

  ghost predicate SoFar(buffer: Text, sequences: seq<Text>, pos: nat) {
    && pos <= |buffer|
    && Extract(buffer).sequences == sequences + Extract(buffer[pos..]).sequences
    && Extract(buffer).remainder == Extract(buffer[pos..]).remainder
  }

  lemma Advance(buffer: Text, sequences: seq<Text>, pos: nat, sequence: Text, n: nat)
    requires SoFar(buffer, sequences, pos) && pos < |buffer|
    requires n == FirstCut(buffer[pos..]) > 0 && sequence == buffer[pos..][..n]
    ensures pos + n <= |buffer| && SoFar(buffer, sequences + [sequence], pos + n)
  {
    assert buffer[pos..][n..] == buffer[pos + n..];
    Associative(sequences, [sequence], Extract(buffer[pos + n..]).sequences);
  }

  lemma ScanEnds(buffer: Text, sequences: seq<Text>)
    requires SoFar(buffer, sequences, |buffer|)
    ensures Extract(buffer) == Extraction(sequences, [])
  {
    assert buffer[|buffer|..] == [] && sequences + [] == sequences;
  }

  lemma ScanStops(buffer: Text, sequences: seq<Text>, pos: nat)
    requires SoFar(buffer, sequences, pos) && pos < |buffer| && FirstCut(buffer[pos..]) == 0
    ensures Extract(buffer) == Extraction(sequences, buffer[pos..])
  {
    assert sequences + [] == sequences;
  }

  /** The outer loop computes Extract. */
  method ExtractCompleteSequences(buffer: Text) returns (result: Extraction)
    ensures result == Extract(buffer)
  {
    var sequences: seq<Text> := [];
    var pos := 0;
    assert buffer[0..] == buffer;
    while pos < |buffer|
      invariant SoFar(buffer, sequences, pos)
    {
      var remaining := buffer[pos..];
      var n := 1;
      if [ESC] <= remaining {
        var seqEnd := FindEnd(remaining);
        if seqEnd > |remaining| {
          ScanStops(buffer, sequences, pos);
          return Extraction(sequences, remaining);
        }
        if !Restarts(remaining, seqEnd) {
          n := seqEnd;
        }
      }
      Advance(buffer, sequences, pos, remaining[..n], n);
      sequences := sequences + [remaining[..n]];
      pos := pos + n;
    }
    ScanEnds(buffer, sequences);
    return Extraction(sequences, []);
  }

  // ----- Conservation and chunk invariance -----

  /** Nothing is lost, invented or reordered. */
  lemma {:induction false} Conserves(buffer: Text)
    ensures Flatten(Extract(buffer).sequences) + Extract(buffer).remainder == buffer
    decreases |buffer|
  {
    if buffer != [] && FirstCut(buffer) > 0 {
      Conserves(buffer[FirstCut(buffer)..]);
    }
  }

  /** What stays in the buffer is empty or an escape sequence that has no complete prefix yet. */
  ghost predicate Pending(s: Text) {
    s != [] ==> s[0] == ESC && forall k :: 0 <= k <= |s| ==> IsCompleteSequence(s[..k]) != Complete
  }

  lemma {:induction false} RemainderIsPending(buffer: Text)
    ensures Pending(Extract(buffer).remainder)
    decreases |buffer|
  {
    if buffer != [] && FirstCut(buffer) > 0 {
      RemainderIsPending(buffer[FirstCut(buffer)..]);
    }
  }

  lemma PendingYieldsNothing(s: Text)
    requires Pending(s)
    ensures Extract(s) == Extraction([], s)
  {
  }

  lemma {:induction false} SeqEndExtends(a: Text, b: Text, n: nat)
    requires 1 <= n <= |a| + 1 && SeqEnd(a, n) <= |a|
    ensures SeqEnd(a + b, n) == SeqEnd(a, n)
    decreases |a| - n
  {
    assert (a + b)[..n] == a[..n];
    if IsCompleteSequence(a[..n]) != Complete {
      SeqEndExtends(a, b, n + 1);
    }
  }

  /** The lookahead: a ends in an emitted ESC ESC and b begins with a unit that opens a sequence. */
  predicate LookaheadMissed(a: Text, b: Text) {
    var whole := Extract(a);
    && whole.sequences != [] && whole.sequences[|whole.sequences| - 1] == [ESC, ESC]
    && whole.remainder == [] && b != [] && Opens(b[0])
  }

  /** What the two chunks give one after the other. */
  function InTwo(a: Text, b: Text): Extraction {
    var rest := Extract(Extract(a).remainder + b);
    Extraction(Extract(a).sequences + rest.sequences, rest.remainder)
  }

  lemma TailOfTwo(a: Text, b: Text, sequence: Text, tail: Text)
    requires Extract(a) == Before(sequence, Extract(tail))
    ensures InTwo(a, b) == Before(sequence, InTwo(tail, b))
  {
    var rest := Extract(Extract(a).remainder + b).sequences;
    assert ([sequence] + Extract(tail).sequences) + rest == [sequence] + (Extract(tail).sequences + rest);
  }

  lemma TailMisses(a: Text, b: Text, sequence: Text, tail: Text)
    requires Extract(a) == Before(sequence, Extract(tail))
    requires Extract(tail).sequences == [] ==> Extract(tail).remainder != [] || sequence != [ESC, ESC]
    ensures LookaheadMissed(a, b) <==> LookaheadMissed(tail, b)
  {
    var all, last := Extract(a).sequences, Extract(tail).sequences;
    if last != [] {
      assert all[|all| - 1] == last[|last| - 1];
    } else {
      assert all == [sequence];
    }
  }

  /** Before is injective in the rest, so equality of extractions is decided on the tails. */
  lemma BeforeInjective(sequence: Text, left: Extraction, right: Extraction)
    ensures Before(sequence, left) == Before(sequence, right) <==> left == right
  {
    assert ([sequence] + left.sequences)[1..] == left.sequences;
    assert ([sequence] + right.sequences)[1..] == right.sequences;
  }

  /** The first cut of a is the first cut of a + b, unless a is just ESC ESC or incomplete. */
  lemma FirstCutExtends(a: Text, b: Text)
    requires a != [] && FirstCut(a) > 0
    requires a != [ESC, ESC] || b == [] || !Opens(b[0])
    ensures FirstCut(a + b) == FirstCut(a)
  {
    if a[0] == ESC {
      SeqEndExtends(a, b, 1);
      if |a| >= 2 {
        assert (a + b)[..2] == a[..2];
        assert |a| == 2 ==> a[..2] == a;
      }
    }
  }

  lemma EscEscAlone()
    ensures FirstCut([ESC, ESC]) == 2 && Extract([ESC, ESC]) == Extraction([[ESC, ESC]], [])
  {
    var a: Text := [ESC, ESC];
    assert a[..1] == [ESC] && a[..2] == a && a[2..] == [];
    assert SeqEnd(a, 1) == SeqEnd(a, 2) == 2;
  }

  /** ESC ESC at the very end of a, and a unit that opens a sequence at the front of b. */
  lemma AtEscEsc(b: Text)
    requires b != [] && Opens(b[0])
    ensures Extract([ESC, ESC] + b) != InTwo([ESC, ESC], b)
  {
    var a: Text := [ESC, ESC];
    EscEscAlone();
    SeqEndExtends(a, b, 1);
    assert (a + b)[..2] == a;
    assert Restarts(a + b, 2);
    assert Extract(a + b).sequences[0] == (a + b)[..1];
    assert InTwo(a, b).sequences[0] == a;
  }

  /**
    Cutting the input after a gives the same sequences and the same remainder as not
    cutting it, except exactly when the lookahead after ESC ESC falls on the cut.
  */
  lemma {:induction false} ChunkInvariance(a: Text, b: Text)
    ensures Extract(a + b) == InTwo(a, b) <==> !LookaheadMissed(a, b)
    decreases |a|
  {
    if a == [] {
      assert a + b == b;
    } else if FirstCut(a) == 0 {
      assert Extract(a).sequences == [];
    } else if a == [ESC, ESC] && b != [] && Opens(b[0]) {
      EscEscAlone();
      AtEscEsc(b);
    } else {
      var n := FirstCut(a);
      var sequence, tail := a[..n], a[n..];
      FirstCutExtends(a, b);
      assert (a + b)[..n] == sequence && (a + b)[n..] == tail + b;
      ChunkInvariance(tail, b);
      TailOfTwo(a, b, sequence, tail);
      if tail == [] && sequence == [ESC, ESC] {
        assert a == sequence;
      } else {
        TailMisses(a, b, sequence, tail);
      }
      BeforeInjective(sequence, Extract(tail + b), InTwo(tail, b));
    }
  }
}
