/**
  What one call of the terminal input buffer does to its state, as a function: bracketed
  paste, the splitting of everything else, and the suppression of duplicated Kitty keys.
*/
module PasteProtocol {
  import Decimals
  import opened EscapeSequences
  import opened Sequences
  import opened Wrappers

  const PASTE_START: Text := [ESC, '[' as int, '2' as int, '0' as int, '0' as int, '~' as int]
  const PASTE_END: Text := [ESC, '[' as int, '2' as int, '0' as int, '1' as int, '~' as int]

  /** Listeners see Data and Paste; the other two say what was consumed without an event. */
  datatype Event = Data(sequence: Text) | Paste(content: Text) | Suppressed(unit: Unit) | Dropped(text: Text)

  datatype State = State(buffer: Text, pasting: bool, pasteBuffer: Text, pending: Option<nat>)

  datatype Result = Result(state: State, events: seq<Event>)

  // ----- Kitty duplicates -----

  function CodePoint(digits: Text): nat
    requires forall k :: 0 <= k < |digits| ==> IsDigit(digits[k])
  {
    if digits == [] then 0
    else
      assert IsDigit(digits[|digits| - 1]);
      CodePoint(digits[..|digits| - 1]) * 10 + (digits[|digits| - 1] - '0' as int)
  }

  /** `ESC [ codepoint u`, with up to two more colon fields: a printable key without modifiers. */
  function KittyPrintable(sequence: Text): Option<nat> {
    if !([ESC, '[' as int] <= sequence) || |sequence| < 3 || sequence[|sequence| - 1] != 'u' as int then None
    else
      var fields := SplitOn<Unit>(sequence[2..|sequence| - 1], ':' as int);
      if |fields| > 3 || !AllDigits(fields[0]) then None
      else if |fields| >= 2 && fields[1] != [] && !AllDigits(fields[1]) then None
      else if |fields| == 3 && !AllDigits(fields[2]) then None
      else
        var codepoint := CodePoint(fields[0]);
        if codepoint >= 32 then Some(codepoint) else None
  }

  datatype Emission = Emission(pending: Option<nat>, events: seq<Event>)

  function EmitDataSequence(pending: Option<nat>, sequence: Text): (Option<nat>, Event) {
    if |sequence| == 1 && pending == Some(sequence[0]) then (None, Suppressed(sequence[0]))
    else (KittyPrintable(sequence), Data(sequence))
  }

  function EmitAll(pending: Option<nat>, sequences: seq<Text>): Emission
    decreases |sequences|
  {
    if sequences == [] then Emission(pending, [])
    else
      var (next, event) := EmitDataSequence(pending, sequences[0]);
      var rest := EmitAll(next, sequences[1..]);
      Emission(rest.pending, [event] + rest.events)
  }

  // ----- One call -----

  const IDLE := State([], false, [], None)

  function Preceded(events: seq<Event>, r: Result): Result {
    Result(r.state, events + r.events)
  }

  /** In paste mode, with everything received since the start marker. */
  function InPaste(content: Text, pending: Option<nat>): Result
    decreases |content|, 0
  {
    var end := IndexOf(content, PASTE_END);
    if end < 0 then Result(State([], true, content, pending), [])
    else
      var remaining := content[end + |PASTE_END|..];
      if remaining == [] then Result(IDLE, [Paste(content[..end])])
      else Preceded([Paste(content[..end])], Process(IDLE, remaining))
  }

  function DroppedTail(remainder: Text): seq<Event> {
    if remainder == [] then [] else [Dropped(remainder)]
  }

  /** What is emitted, or forgotten, in front of a start marker. */
  function BeforePaste(pending: Option<nat>, text: Text): seq<Event> {
    EmitAll(pending, Extract(text).sequences).events + DroppedTail(Extract(text).remainder)
  }

  function Process(st: State, str: Text): Result
    decreases |st.buffer| + |st.pasteBuffer| + |str|, 1
  {
    var buffer := st.buffer + str;
    if buffer == [] then
      var (pending, event) := EmitDataSequence(st.pending, []);
      Result(st.(pending := pending), [event])
    else if st.pasting then InPaste(st.pasteBuffer + buffer, st.pending)
    else
      var start := IndexOf(buffer, PASTE_START);
      if start >= 0 then
        Preceded(BeforePaste(st.pending, buffer[..start]), InPaste(buffer[start + |PASTE_START|..], None))
      else
        var cut := Extract(buffer);
        var emission := EmitAll(st.pending, cut.sequences);
        Result(State(cut.remainder, false, [], emission.pending), emission.events)
  }

  // ----- The invariant between calls -----

  /** Paste mode has an empty buffer and no end marker yet; otherwise the buffer holds no whole sequence. */
  ghost predicate Inv(st: State) {
    if st.pasting then st.buffer == [] && st.pending == None && !Occurs(st.pasteBuffer, PASTE_END)
    else st.pasteBuffer == [] && Pending(st.buffer) && !Occurs(st.buffer, PASTE_START)
  }

  lemma OccursInSuffix(s: Text, n: nat, pattern: Text)
    requires n <= |s| && Occurs(s[n..], pattern)
    ensures Occurs(s, pattern)
  {
    var k :| OccursAt(s[n..], pattern, k);
    assert s[n..][k..k + |pattern|] == s[n + k..n + k + |pattern|];
    assert OccursAt(s, pattern, n + k);
  }

  lemma RemainderIsSuffix(buffer: Text)
    ensures |Extract(buffer).remainder| <= |buffer|
    ensures buffer[|buffer| - |Extract(buffer).remainder|..] == Extract(buffer).remainder
  {
    Conserves(buffer);
  }

  lemma NoStartInRemainder(buffer: Text)
    requires forall k :: !OccursAt(buffer, PASTE_START, k)
    ensures !Occurs(Extract(buffer).remainder, PASTE_START)
  {
    var remainder := Extract(buffer).remainder;
    RemainderIsSuffix(buffer);
    if Occurs(remainder, PASTE_START) {
      OccursInSuffix(buffer, |buffer| - |remainder|, PASTE_START);
    }
  }

  lemma {:induction false} InPasteKeepsInv(content: Text)
    ensures Inv(InPaste(content, None).state)
    decreases |content|, 0
  {
    var end := IndexOf(content, PASTE_END);
    if end >= 0 && content[end + |PASTE_END|..] != [] {
      ProcessKeepsInv(IDLE, content[end + |PASTE_END|..]);
    }
  }

  lemma {:induction false} ProcessKeepsInv(st: State, str: Text)
    requires Inv(st)
    ensures Inv(Process(st, str).state)
    decreases |st.buffer| + |st.pasteBuffer| + |str|, 1
  {
    var buffer := st.buffer + str;
    if buffer == [] {
      assert KittyPrintable([]) == None;
    } else if st.pasting {
      InPasteKeepsInv(st.pasteBuffer + buffer);
    } else {
      var start := IndexOf(buffer, PASTE_START);
      if start >= 0 {
        InPasteKeepsInv(buffer[start + |PASTE_START|..]);
      } else {
        RemainderIsPending(buffer);
        NoStartInRemainder(buffer);
      }
    }
  }

  // ----- Accounting for every code unit -----

  function Raw(event: Event): Text {
    match event
    case Data(sequence) => sequence
    case Paste(content) => PASTE_START + content + PASTE_END
    case Suppressed(unit) => [unit]
    case Dropped(text) => text
  }

  function RawAll(events: seq<Event>): Text {
    if events == [] then [] else Raw(events[0]) + RawAll(events[1..])
  }

  /** The input that a state still holds. */
  function Held(st: State): Text {
    if st.pasting then PASTE_START + st.pasteBuffer + st.buffer else st.buffer
  }

  lemma {:induction false} RawConcat(a: seq<Event>, b: seq<Event>)
    ensures RawAll(a + b) == RawAll(a) + RawAll(b)
  {
    if a == [] {
      assert a + b == b;
    } else {
      assert (a + b)[1..] == a[1..] + b;
      RawConcat(a[1..], b);
    }
  }

  lemma {:induction false} EmissionIsFaithful(pending: Option<nat>, sequences: seq<Text>)
    ensures |EmitAll(pending, sequences).events| == |sequences|
    ensures RawAll(EmitAll(pending, sequences).events) == Flatten(sequences)
    ensures forall k :: 0 <= k < |sequences| ==> Raw(EmitAll(pending, sequences).events[k]) == sequences[k]
    decreases |sequences|
  {
    if sequences != [] {
      var (next, event) := EmitDataSequence(pending, sequences[0]);
      var rest := EmitAll(next, sequences[1..]);
      EmissionIsFaithful(next, sequences[1..]);
      assert ([event] + rest.events)[1..] == rest.events;
      assert |sequences[0]| == 1 ==> [sequences[0][0]] == sequences[0];
    }
  }

  lemma RawOne(event: Event, rest: seq<Event>)
    ensures RawAll([event]) == Raw(event)
    ensures RawAll([event] + rest) == Raw(event) + RawAll(rest)
  {
    assert [event][1..] == [] && ([event] + rest)[1..] == rest;
  }

  /** The text is what the events carry followed by what the state holds. */
  ghost predicate Accounted(text: Text, r: Result) {
    text == RawAll(r.events) + Held(r.state)
  }

  lemma AccountedBefore(events: seq<Event>, text: Text, r: Result)
    requires Accounted(text, r)
    ensures Accounted(RawAll(events) + text, Preceded(events, r))
  {
    RawConcat(events, r.events);
    Associative(RawAll(events), RawAll(r.events), Held(r.state));
  }

  lemma PasteText(content: Text, end: int)
    requires OccursAt(content, PASTE_END, end)
    ensures PASTE_START + content == RawAll([Paste(content[..end])]) + content[end + |PASTE_END|..]
  {
    RawOne(Paste(content[..end]), []);
    assert content == content[..end] + PASTE_END + content[end + |PASTE_END|..];
  }

  lemma {:induction false} InPasteAccounts(content: Text, pending: Option<nat>)
    ensures Accounted(PASTE_START + content, InPaste(content, pending))
    decreases |content|, 0
  {
    var end := IndexOf(content, PASTE_END);
    if end >= 0 {
      var remaining := content[end + |PASTE_END|..];
      PasteText(content, end);
      if remaining != [] {
        Accounts(IDLE, remaining);
        assert Held(IDLE) + remaining == remaining;
        AccountedBefore([Paste(content[..end])], remaining, Process(IDLE, remaining));
      }
    }
  }

  lemma BeforePasteAccounts(pending: Option<nat>, buffer: Text)
    ensures RawAll(BeforePaste(pending, buffer)) == buffer
  {
    var cut := Extract(buffer);
    Conserves(buffer);
    EmissionIsFaithful(pending, cut.sequences);
    RawConcat(EmitAll(pending, cut.sequences).events, DroppedTail(cut.remainder));
    RawOne(Dropped(cut.remainder), []);
  }

  lemma StartText(buffer: Text, start: int)
    requires OccursAt(buffer, PASTE_START, start)
    ensures buffer[..start] + (PASTE_START + buffer[start + |PASTE_START|..]) == buffer
  {
  }

  lemma NothingAccounts(st: State)
    requires st.buffer == []
    ensures Accounted(Held(st) + [], Process(st, []))
  {
    RawOne(Data([]), []);
    assert Held(st) + [] == Held(st);
    assert [] + Held(st) == Held(st);
  }

  lemma HeldInPaste(st: State, str: Text)
    requires st.pasting
    ensures Held(st) + str == PASTE_START + (st.pasteBuffer + (st.buffer + str))
  {
    Associative(PASTE_START + st.pasteBuffer, st.buffer, str);
    Associative(PASTE_START, st.pasteBuffer, st.buffer + str);
  }

  /**
    Every code unit of the input is accounted for, in order: in a data event, a paste with
    its two markers, a suppressed duplicate, an escape sequence dropped because a paste
    started inside it, or what the state still holds.
  */
  lemma {:induction false} Accounts(st: State, str: Text)
    requires !st.pasting ==> st.pasteBuffer == []
    ensures Accounted(Held(st) + str, Process(st, str))
    decreases |st.buffer| + |st.pasteBuffer| + |str|, 1
  {
    var buffer := st.buffer + str;
    if buffer == [] {
      NothingAccounts(st);
    } else if st.pasting {
      InPasteAccounts(st.pasteBuffer + buffer, st.pending);
      HeldInPaste(st, str);
    } else {
      PlainAccounts(st, str);
    }
  }

  lemma {:induction false} PlainAccounts(st: State, str: Text)
    requires !st.pasting && st.pasteBuffer == [] && st.buffer + str != []
    ensures Accounted(st.buffer + str, Process(st, str))
    decreases |st.buffer| + |st.pasteBuffer| + |str|, 0
  {
    var buffer := st.buffer + str;
    var start := IndexOf(buffer, PASTE_START);
    if start >= 0 {
      InPasteAccounts(buffer[start + |PASTE_START|..], None);
      StartAccounts(st.pending, buffer, start);
    } else {
      Conserves(buffer);
      EmissionIsFaithful(st.pending, Extract(buffer).sequences);
    }
  }

  lemma StartAccounts(pending: Option<nat>, buffer: Text, start: nat)
    requires OccursAt(buffer, PASTE_START, start)
    requires var content := buffer[start + |PASTE_START|..];
             Accounted(PASTE_START + content, InPaste(content, None))
    ensures Accounted(buffer, Preceded(BeforePaste(pending, buffer[..start]), InPaste(buffer[start + |PASTE_START|..], None)))
  {
    var content := buffer[start + |PASTE_START|..];
    BeforePasteAccounts(pending, buffer[..start]);
    AccountedBefore(BeforePaste(pending, buffer[..start]), PASTE_START + content, InPaste(content, None));
    StartText(buffer, start);
  }

  // ----- Whole runs, timer included -----

  /** The timer fires: an incomplete sequence is emitted as it is. */
  function Flushed(st: State): Result {
    if st.buffer == [] then Result(st, [])
    else
      var (pending, event) := EmitDataSequence(None, st.buffer);
      Result(State([], false, [], pending), [event])
  }

  datatype Input = Chunk(text: Text) | Timeout

  function Serve(st: State, inputs: seq<Input>): Result
    decreases |inputs|
  {
    if inputs == [] then Result(st, [])
    else
      var first := if inputs[0].Chunk? then Process(st, inputs[0].text) else Flushed(st);
      Preceded(first.events, Serve(first.state, inputs[1..]))
  }

  function TextOf(inputs: seq<Input>): Text {
    if inputs == [] then [] else (if inputs[0].Chunk? then inputs[0].text else []) + TextOf(inputs[1..])
  }

  lemma FlushKeepsInv(st: State)
    requires Inv(st)
    ensures Inv(Flushed(st).state) && Accounted(Held(st) + [], Flushed(st))
  {
    if st.buffer != [] {
      var (pending, event) := EmitDataSequence(None, st.buffer);
      RawOne(event, []);
      assert RawAll([event]) + [] == st.buffer;
    }
    assert Held(st) + [] == Held(st);
    assert [] + Held(st) == Held(st);
  }

  lemma AccountedNext(held: Text, text: Text, first: Result, more: Text, rest: Result)
    requires Accounted(held + text, first) && Accounted(Held(first.state) + more, rest)
    ensures Accounted(held + (text + more), Preceded(first.events, rest))
  {
    AccountedBefore(first.events, Held(first.state) + more, rest);
    Associative(held, text, more);
    Associative(RawAll(first.events), Held(first.state), more);
  }

  /** Over any run of chunks and timeouts the invariant holds, and every code unit is accounted for in order. */
  lemma {:induction false} RunAccounts(st: State, inputs: seq<Input>)
    requires Inv(st)
    ensures Inv(Serve(st, inputs).state)
    ensures Accounted(Held(st) + TextOf(inputs), Serve(st, inputs))
    decreases |inputs|
  {
    if inputs == [] {
      assert Held(st) + [] == Held(st);
      assert [] + Held(st) == Held(st);
    } else {
      var text := if inputs[0].Chunk? then inputs[0].text else [];
      var first := if inputs[0].Chunk? then Process(st, text) else Flushed(st);
      if inputs[0].Chunk? {
        ProcessKeepsInv(st, text);
        Accounts(st, text);
      } else {
        FlushKeepsInv(st);
      }
      RunAccounts(first.state, inputs[1..]);
      AccountedNext(Held(st), text, first, TextOf(inputs[1..]), Serve(first.state, inputs[1..]));
    }
  }

  // ----- Single steps, spelled out -----

  /** The code units of a decimal number. */
  function Units(s: string): (text: Text)
    requires forall k :: 0 <= k < |s| ==> Decimals.IsDigit(s[k])
    ensures |text| == |s| && forall k :: 0 <= k < |s| ==> text[k] == s[k] as int
  {
    if s == [] then []
    else
      assert Decimals.IsDigit(s[0]);
      var unit: Unit := s[0] as int;
      [unit] + Units(s[1..])
  }

  /** A code point is read as it is written. */
  lemma {:induction false} CodePointRoundTrip(k: nat)
    ensures AllDigits(Units(Decimals.Decimal(k))) && CodePoint(Units(Decimals.Decimal(k))) == k
  {
    var digits := Units(Decimals.Decimal(k));
    assert forall j :: 0 <= j < |digits| ==> IsDigit(digits[j]) by {
      assert forall j :: 0 <= j < |digits| ==> Decimals.IsDigit(Decimals.Decimal(k)[j]);
    }
    if k < 10 {
      assert digits[..0] == [];
    } else {
      CodePointRoundTrip(k / 10);
      var front := Decimals.Decimal(k / 10);
      assert Decimals.Decimal(k) == front + [('0' as int + k % 10) as char];
      assert digits[..|digits| - 1] == Units(front);
    }
  }

  const COLON: Unit := ':' as int

  lemma NoColon(digits: Text)
    requires forall k :: 0 <= k < |digits| ==> IsDigit(digits[k])
    ensures COLON !in digits
  {
  }

  /** `ESC [ codepoint u` is a printable key from the space on. */
  lemma PrintableExactly(digits: Text)
    requires AllDigits(digits)
    ensures KittyPrintable([27, '[' as int] + digits + ['u' as int]) == if CodePoint(digits) >= 32 then Some(CodePoint(digits)) else None
  {
    NoColon(digits);
    SplitWhole<Unit>(digits, COLON);
    FieldsOf(digits);
  }

  /** And so it is with a shifted key, */
  lemma ShiftedExactly(digits: Text, shifted: Text)
    requires AllDigits(digits) && (shifted == [] || AllDigits(shifted))
    ensures KittyPrintable([27, '[' as int] + (digits + [':' as int] + shifted) + ['u' as int])
            == if CodePoint(digits) >= 32 then Some(CodePoint(digits)) else None
  {
    NoColon(digits);
    NoColon(shifted);
    SplitWhole<Unit>(shifted, COLON);
    SplitAfter<Unit>(digits, COLON, shifted);
    FieldsOf(digits + [COLON] + shifted);
    assert [digits] + [shifted] == [digits, shifted];
  }

  /** and with a base key besides. */
  lemma BaseExactly(digits: Text, shifted: Text, base: Text)
    requires AllDigits(digits) && AllDigits(base) && (shifted == [] || AllDigits(shifted))
    ensures KittyPrintable([27, '[' as int] + (digits + [':' as int] + (shifted + [':' as int] + base)) + ['u' as int])
            == if CodePoint(digits) >= 32 then Some(CodePoint(digits)) else None
  {
    ThreeFields(digits, shifted, base);
    FieldsOf(digits + [COLON] + (shifted + [COLON] + base));
  }

  lemma ThreeFields(digits: Text, shifted: Text, base: Text)
    requires AllDigits(digits) && AllDigits(base) && (shifted == [] || AllDigits(shifted))
    ensures SplitOn<Unit>(digits + [COLON] + (shifted + [COLON] + base), COLON) == [digits, shifted, base]
  {
    NoColon(digits);
    NoColon(shifted);
    NoColon(base);
    SplitWhole<Unit>(base, COLON);
    SplitAfter<Unit>(shifted, COLON, base);
    SplitAfter<Unit>(digits, COLON, shifted + [COLON] + base);
    assert [digits] + ([shifted] + [base]) == [digits, shifted, base];
  }

  lemma FieldsOf(body: Text)
    ensures var s := [27, '[' as int] + body + ['u' as int];
            [27, '[' as int] <= s && |s| >= 3 && s[|s| - 1] == 'u' as int && s[2..|s| - 1] == body
  {
    var s := [27, '[' as int] + body + ['u' as int];
    assert s[..2] == [27, '[' as int];
  }

  lemma SplitOfNothing()
    ensures SplitOn<Unit>([], ':' as int) == [[]]
  {
  }

  /** Nothing else is: the sequence has that form. */
  lemma OnlyPrintable(sequence: Text)
    requires KittyPrintable(sequence).Some?
    ensures |sequence| >= 4 && sequence[0] == 27 && sequence[1] == '[' as int && sequence[|sequence| - 1] == 'u' as int
    ensures var fields := SplitOn<Unit>(sequence[2..|sequence| - 1], ':' as int);
            && |fields| <= 3 && AllDigits(fields[0]) && CodePoint(fields[0]) >= 32 && KittyPrintable(sequence) == Some(CodePoint(fields[0]))
            && (|fields| > 1 ==> fields[1] == [] || AllDigits(fields[1])) && (|fields| > 2 ==> AllDigits(fields[2]))
  {
    assert [ESC, '[' as int][0] == sequence[0] && [ESC, '[' as int][1] == sequence[1];
    SplitOfNothing();
  }

  /** An empty chunk on an empty buffer is passed on as an empty sequence, in a paste too. */
  lemma EmptyInput(st: State)
    requires st.buffer == []
    ensures Process(st, []).events == [Data([])] && Process(st, []).state == st.(pending := None)
  {
    assert st.buffer + [] == [];
    assert KittyPrintable([]) == None;
  }

  /** In front of a start marker all whole sequences are passed on, and an incomplete one is dropped. */
  lemma BeforePasteExactly(pending: Option<nat>, text: Text)
    ensures var cut, events := Extract(text), BeforePaste(pending, text);
            && |events| == |cut.sequences| + (if cut.remainder == [] then 0 else 1)
            && (forall k :: 0 <= k < |cut.sequences| ==> Raw(events[k]) == cut.sequences[k] && (events[k].Data? || events[k].Suppressed?))
            && (cut.remainder != [] ==> events[|cut.sequences|] == Dropped(cut.remainder))
  {
    EmissionIsFaithful(pending, Extract(text).sequences);
    EmissionKinds(pending, Extract(text).sequences);
  }

  lemma {:induction false} EmissionKinds(pending: Option<nat>, sequences: seq<Text>)
    ensures forall k :: 0 <= k < |EmitAll(pending, sequences).events| ==>
              EmitAll(pending, sequences).events[k].Data? || EmitAll(pending, sequences).events[k].Suppressed?
    decreases |sequences|
  {
    if sequences != [] {
      var (next, event) := EmitDataSequence(pending, sequences[0]);
      EmissionKinds(next, sequences[1..]);
    }
  }

  /** A start marker turns the paste on, and what stands behind it is read as its content. */
  lemma MarkerStartsPaste(st: State, str: Text, start: nat)
    requires !st.pasting && st.buffer + str != [] && OccursAt(st.buffer + str, PASTE_START, start)
    requires forall j :: 0 <= j < start ==> !OccursAt(st.buffer + str, PASTE_START, j)
    ensures var buffer, r := st.buffer + str, Process(st, str);
            var before := BeforePaste(st.pending, buffer[..start]);
            before <= r.events && r.state == InPaste(buffer[start + 6..], None).state
  {
    var buffer := st.buffer + str;
    assert IndexOf(buffer, PASTE_START) == start;
    var before := BeforePaste(st.pending, buffer[..start]);
    assert (before + InPaste(buffer[start + 6..], None).events)[..|before|] == before;
  }

  /** The timer passes the incomplete sequence on as it is, and nothing is pending then. */
  lemma FlushExactly(st: State)
    ensures st.buffer == [] ==> Flushed(st) == Result(st, [])
    ensures st.buffer != [] ==> Flushed(st).events == [Data(st.buffer)]
                                && Flushed(st).state == State([], false, [], KittyPrintable(st.buffer))
  {
  }
}
