/**
  Reading an image back from a rendered line: the introducer and its controls, the chain of
  commands that transmits the image, and the placement-only command that replaces it.
*/
module KittyPlacements {
  import opened Decimals
  import opened KittyImages
  import opened Sequences
  import opened Wrappers

  datatype Introducer = Introducer(start: nat, controls: string)

  /** The first introducer that has a semicolon after it, with the controls in between. */
  function FindIntroducer(line: string): (found: Option<Introducer>)
    ensures found.Some? ==> found.value.start + |KITTY_PREFIX| <= |line|
  {
    var start := IndexOf(line, KITTY_PREFIX);
    if start < 0 then None
    else
      var end := IndexFrom(line, ";", start + |KITTY_PREFIX|);
      if end < 0 then None else Some(Introducer(start, line[start + |KITTY_PREFIX|..end]))
  }

  predicate IsIdField(field: string) { "i=" <= field && AllDigits(field[2..]) }

  /** The number in the first field of the form i=digits. */
  function ImageIdOf(fields: seq<string>): Option<nat> {
    if fields == [] then None
    else if IsIdField(fields[0]) then Some(ParseDecimal(fields[0][2..]))
    else ImageIdOf(fields[1..])
  }

  function IdIn(controls: string): Option<nat> { ImageIdOf(SplitOn(controls, ',')) }

  predicate HasMore(controls: string) { "m=1" in SplitOn(controls, ',') }

  /** i, p, x, y, w, h, X, Y, c, r, C, U, z, P, Q, H and V */
  predicate IsPlacementKey(key: char) {
    || key == 'i' || key == 'p' || key == 'x' || key == 'y' || key == 'w' || key == 'h' || key == 'X' || key == 'Y'
    || key == 'c' || key == 'r' || key == 'C' || key == 'U' || key == 'z' || key == 'P' || key == 'Q' || key == 'H'
    || key == 'V'
  }

  predicate IsPlacementControl(control: string) {
    var key := SplitOn(control, '=')[0];
    |key| == 1 && IsPlacementKey(key[0])
  }

  function PlacementControls(fields: seq<string>): seq<string> {
    if fields == [] then []
    else (if IsPlacementControl(fields[0]) then [fields[0]] else []) + PlacementControls(fields[1..])
  }

  /** The placement-only command: the controls that place the image, without the image. */
  function PlacementSequence(controls: string): string {
    KITTY_PREFIX + "a=p,q=2," + JoinWith(PlacementControls(SplitOn(controls, ',')), ",") + TERMINATOR
  }

  /** Where the last command of the transmission ends; None when the chain is broken. */
  function TransmissionEnd(line: string, start: nat, controls: string): (end: Option<nat>)
    ensures end.Some? ==> end.value <= |line|
    decreases |line| - start
  {
    var terminator := IndexFrom(line, TERMINATOR, start + |KITTY_PREFIX|);
    if terminator < 0 then None
    else
      var next := terminator + |TERMINATOR|;
      if !HasMore(controls) then Some(next)
      else if !OccursAt(line, KITTY_PREFIX, next) then None
      else
        var controlsEnd := IndexFrom(line, ";", next + |KITTY_PREFIX|);
        if controlsEnd < 0 then None
        else TransmissionEnd(line, next, line[next + |KITTY_PREFIX|..controlsEnd])
  }

  datatype Placement = Placement(
    imageId: nat, transmissionGeneration: nat, transmissionBytes: int, estimatedDecodedBytes: nat,
    sequence: string, replacementLine: string)

  type Lookup = nat -> Option<Registered>

  /** What is made of a line whose image takes up the span from start to end. */
  function PlacementAt(line: string, start: nat, end: nat, sequence: string, r: Registered): Placement
    requires start <= |line| && end <= |line|
  {
    Placement(r.metadata.imageId, r.generation, end - start, r.metadata.widthPx * r.metadata.heightPx * 4,
              sequence, line[..start] + sequence + line[end..])
  }

  function RegisteredIn(line: string, lookup: Lookup): Option<Registered> {
    var found := FindIntroducer(line);
    if found.None? || found.value.controls == "" then None
    else
      var id := IdIn(found.value.controls);
      if id.None? then None else lookup(id.value)
  }

  function PlacementOf(line: string, lookup: Lookup): Option<Placement> {
    var found := FindIntroducer(line);
    var registered := RegisteredIn(line, lookup);
    if found.None? || registered.None? then None
    else
      var end := TransmissionEnd(line, found.value.start, found.value.controls);
      if end.None? then None
      else Some(PlacementAt(line, found.value.start, end.value, PlacementSequence(found.value.controls), registered.value))
  }

  method FindTransmissionEnd(line: string, start: nat, controls: string) returns (transmissionEnd: Option<nat>)
    ensures transmissionEnd == TransmissionEnd(line, start, controls)
  {
    var commandStart, commandControls := start, controls;
    while true
      invariant TransmissionEnd(line, start, controls) == TransmissionEnd(line, commandStart, commandControls)
      decreases |line| - commandStart
    {
      var terminator := IndexFrom(line, TERMINATOR, commandStart + |KITTY_PREFIX|);
      if terminator == -1 {
        return None;
      }
      var end := terminator + |TERMINATOR|;
      if !HasMore(commandControls) {
        return Some(end);
      }
      commandStart := end;
      if !OccursAt(line, KITTY_PREFIX, commandStart) {
        return None;
      }
      var controlsEnd := IndexFrom(line, ";", commandStart + |KITTY_PREFIX|);
      if controlsEnd == -1 {
        return None;
      }
      commandControls := line[commandStart + |KITTY_PREFIX|..controlsEnd];
    }
  }

  method GetKittyImagePlacement(line: string, lookup: Lookup) returns (placement: Option<Placement>)
    ensures placement == PlacementOf(line, lookup)
  {
    var found := FindIntroducer(line);
    var registered := RegisteredIn(line, lookup);
    if found.None? || registered.None? {
      return None;
    }
    var transmissionEnd := FindTransmissionEnd(line, found.value.start, found.value.controls);
    if transmissionEnd.None? {
      return None;
    }
    return Some(PlacementAt(line, found.value.start, transmissionEnd.value,
                            PlacementSequence(found.value.controls), registered.value));
  }

  // ----- What a command looks like from its start -----

  /** A pattern whose first character does not occur before it is found where it stands. */
  lemma FindsAfter(line: string, from: nat, body: string, pattern: string, rest: string)
    requires from <= |line| && line[from..] == body + pattern + rest
    requires pattern != "" && pattern[0] !in body
    ensures IndexFrom(line, pattern, from) == from + |body|
    ensures line[from..from + |body|] == body && line[from + |body| + |pattern|..] == rest
  {
    var tail, at := line[from..], from + |body|;
    assert forall j :: 0 <= j < |tail| ==> line[from + j] == tail[j];
    assert line[at..at + |pattern|] == tail[|body|..|body| + |pattern|] == pattern;
    assert OccursAt(line, pattern, at);
    forall j | from <= j < at ensures !OccursAt(line, pattern, j) {
      assert line[j] == body[j - from];
      assert j + |pattern| <= |line| ==> line[j..j + |pattern|][0] == line[j];
    }
    IndexFromIsFirst(line, pattern, from);
    assert line[at + |pattern|..] == tail[|body| + |pattern|..] == rest;
  }

  /** At `at` the line goes on with a command and then with the rest. */
  ghost predicate CommandAt(line: string, at: nat, controls: string, payload: string, rest: string) {
    && at <= |line|
    && line[at..] == KITTY_PREFIX + controls + ";" + payload + TERMINATOR + rest
  }

  lemma ReadsCommand(line: string, at: nat, controls: string, payload: string, rest: string)
    requires CommandAt(line, at, controls, payload, rest)
    requires ';' !in controls && ESC !in controls && ESC !in payload
    ensures OccursAt(line, KITTY_PREFIX, at)
    ensures var from := at + |KITTY_PREFIX|;
            && IndexFrom(line, ";", from) == from + |controls|
            && line[from..from + |controls|] == controls
            && IndexFrom(line, TERMINATOR, from) == from + |controls| + 1 + |payload|
            && line[from + |controls| + 1 + |payload| + |TERMINATOR|..] == rest
  {
    var from := at + |KITTY_PREFIX|;
    var tail := line[at..];
    assert line[at..from] == tail[..|KITTY_PREFIX|] == KITTY_PREFIX;
    assert line[from..] == tail[|KITTY_PREFIX|..];
    assert line[from..] == controls + ";" + (payload + TERMINATOR + rest);
    FindsAfter(line, from, controls, ";", payload + TERMINATOR + rest);
    assert line[from..] == (controls + ";" + payload) + TERMINATOR + rest;
    FindsAfter(line, from, controls + ";" + payload, TERMINATOR, rest);
  }

  // ----- The controls that are written -----

  predicate IsWord(c: char) { IsDigit(c) || 'A' <= c <= 'Z' || 'a' <= c <= 'z' }

  predicate AllWord(s: string) { forall j :: 0 <= j < |s| ==> IsWord(s[j]) }

  /** A key that is a letter and a value of letters and digits: no separator in it. */
  ghost predicate Clean(controls: seq<Control>) {
    forall c :: c in controls ==> IsWord(c.key) && c.value != "" && AllWord(c.value)
  }

  lemma ParamsAreClean(options: Options)
    ensures Clean(Placing(options)) && Clean(Params(options))
    ensures Clean([MORE]) && Clean([LAST])
  {
    assert AllWord("T") && AllWord("100") && AllWord("2") && AllWord("1") && AllWord("0");
    assert AllWord(Decimal(options.columns)) && AllWord(Decimal(options.rows)) && AllWord(Decimal(options.imageId));
  }

  lemma CleanConcat(a: seq<Control>, b: seq<Control>)
    requires Clean(a) && Clean(b)
    ensures Clean(a + b)
  {
  }

  lemma TextIsClean(control: Control, separator: char)
    requires IsWord(control.key) && AllWord(control.value) && !IsWord(separator) && separator != '='
    ensures separator !in control.Text()
  {
  }

  lemma {:induction false} JoinAvoids(fields: seq<string>, c: char)
    requires c != ',' && forall k :: 0 <= k < |fields| ==> c !in fields[k]
    ensures c !in JoinWith(fields, ",")
  {
    if |fields| > 1 {
      JoinAvoids(fields[1..], c);
    }
  }

  lemma JoinedIsClean(controls: seq<Control>)
    requires |controls| > 0 && Clean(controls)
    ensures ';' !in JoinWith(Texts(controls), ",") && ESC !in JoinWith(Texts(controls), ",")
    ensures SplitOn(JoinWith(Texts(controls), ","), ',') == Texts(controls)
  {
    var texts := Texts(controls);
    forall k | 0 <= k < |texts| ensures ',' !in texts[k] && ';' !in texts[k] && ESC !in texts[k] {
      TextIsClean(controls[k], ',');
      TextIsClean(controls[k], ';');
      TextIsClean(controls[k], ESC);
    }
    SplitJoined(texts, ',');
    JoinAvoids(texts, ';');
    JoinAvoids(texts, ESC);
  }

  // ----- Reading controls back -----

  function FirstId(controls: seq<Control>): Option<nat> {
    if controls == [] then None
    else if controls[0].key == 'i' && AllDigits(controls[0].value) then Some(ParseDecimal(controls[0].value))
    else FirstId(controls[1..])
  }

  lemma {:induction false} ReadsId(controls: seq<Control>)
    ensures ImageIdOf(Texts(controls)) == FirstId(controls)
  {
    if controls != [] {
      var text := controls[0].Text();
      assert text[2..] == controls[0].value;
      assert text[..2] == [controls[0].key, '='];
      assert "i=" <= text <==> text[..2] == "i=";
      ReadsId(controls[1..]);
      assert Texts(controls)[1..] == Texts(controls[1..]);
    }
  }

  lemma {:induction false} FirstIdConcat(a: seq<Control>, b: seq<Control>)
    ensures FirstId(a + b) == if FirstId(a).Some? then FirstId(a) else FirstId(b)
  {
    if a == [] {
      assert a + b == b;
    } else {
      assert (a + b)[1..] == a[1..] + b;
      FirstIdConcat(a[1..], b);
    }
  }

  lemma {:induction false} NoId(controls: seq<Control>)
    requires forall k :: 0 <= k < |controls| ==> controls[k].key != 'i'
    ensures FirstId(controls) == None
  {
    if controls != [] {
      NoId(controls[1..]);
    }
  }

  lemma IdOfParams(options: Options, more: seq<Control>)
    requires more == [] || more == [MORE]
    ensures FirstId(Params(options) + more) == if options.imageId == 0 then None else Some(options.imageId)
  {
    var cursor := if options.moveCursor then [] else [Control('C', "1")];
    var others := TRANSMIT + cursor + Number('c', options.columns) + Number('r', options.rows);
    var id := Number('i', options.imageId);
    assert Params(options) == others + id;
    NoId(others);
    NoId(more);
    DecimalRoundTrip(options.imageId);
    FirstIdConcat(others, id);
    FirstIdConcat(others + id, more);
  }

  function Kept(controls: seq<Control>): seq<Control> {
    if controls == [] then []
    else if IsPlacementKey(controls[0].key) then [controls[0]] + Kept(controls[1..])
    else Kept(controls[1..])
  }

  lemma {:induction false} KeepsControls(controls: seq<Control>)
    requires Clean(controls)
    ensures PlacementControls(Texts(controls)) == Texts(Kept(controls))
  {
    if controls != [] {
      var first := controls[0];
      SplitAfter([first.key], '=', first.value);
      assert first.Text() == [first.key] + ['='] + first.value;
      KeepsControls(controls[1..]);
      assert Texts(controls)[1..] == Texts(controls[1..]);
    }
  }

  lemma {:induction false} KeptConcat(a: seq<Control>, b: seq<Control>)
    ensures Kept(a + b) == Kept(a) + Kept(b)
  {
    if a == [] {
      assert a + b == b;
    } else {
      assert (a + b)[1..] == a[1..] + b;
      KeptConcat(a[1..], b);
      assert [a[0]] + (Kept(a[1..]) + Kept(b)) == ([a[0]] + Kept(a[1..])) + Kept(b);
    }
  }

  lemma {:induction false} AllKept(controls: seq<Control>)
    requires forall k :: 0 <= k < |controls| ==> IsPlacementKey(controls[k].key)
    ensures Kept(controls) == controls
  {
    if controls != [] {
      AllKept(controls[1..]);
    }
  }

  lemma {:induction false} NoneKept(controls: seq<Control>)
    requires forall k :: 0 <= k < |controls| ==> !IsPlacementKey(controls[k].key)
    ensures Kept(controls) == []
  {
    if controls != [] {
      NoneKept(controls[1..]);
    }
  }

  /** Of the parameters, the transmission's own a, f, q and m go and the others stay. */
  lemma KeptOfParams(options: Options, more: seq<Control>)
    requires more == [] || more == [MORE]
    ensures Kept(Params(options) + more) == Placing(options)
  {
    NoneKept(TRANSMIT);
    NoneKept(more);
    AllKept(Placing(options));
    KeptConcat(TRANSMIT, Placing(options));
    KeptConcat(Params(options), more);
  }

  // ----- The chain of commands -----

  lemma MoreInTexts(controls: seq<Control>)
    ensures "m=1" in Texts(controls) <==> MORE in controls
  {
    var texts := Texts(controls);
    assert MORE.Text() == "m=1";
    if "m=1" in texts {
      var k :| 0 <= k < |texts| && texts[k] == "m=1";
      var control := controls[k];
      assert control.Text()[0] == control.key && control.Text()[2..] == control.value;
      assert control == MORE;
    }
    if MORE in controls {
      var k :| 0 <= k < |controls| && controls[k] == MORE;
      assert texts[k] == "m=1";
    }
  }

  /** A command with these controls stands at `at` and ends at `next`. */
  ghost predicate IsLink(line: string, at: nat, text: string, next: nat) {
    && at < next <= |line|
    && OccursAt(line, KITTY_PREFIX, at)
    && IndexFrom(line, ";", at + |KITTY_PREFIX|) == at + |KITTY_PREFIX| + |text|
    && line[at + |KITTY_PREFIX|..at + |KITTY_PREFIX| + |text|] == text
    && IndexFrom(line, TERMINATOR, at + |KITTY_PREFIX|) == next - |TERMINATOR| >= 0
  }

  /** One command of a transmission. */
  lemma ReadsLink(line: string, at: nat, text: string, payload: string, rest: string)
    requires CommandAt(line, at, text, payload, rest)
    requires ';' !in text && ESC !in text && ESC !in payload
    ensures |rest| < |line| && IsLink(line, at, text, |line| - |rest|) && line[|line| - |rest|..] == rest
  {
    ReadsCommand(line, at, text, payload, rest);
    assert |line| == at + |line[at..]|;
  }

  /** What the text of clean controls is like. */
  lemma TextOfControls(controls: seq<Control>, text: string)
    requires |controls| > 0 && Clean(controls) && text == JoinWith(Texts(controls), ",")
    ensures ';' !in text && ESC !in text && HasMore(text) == (MORE in controls)
  {
    JoinedIsClean(controls);
    MoreInTexts(controls);
  }

  lemma LastLink(line: string, at: nat, text: string, next: nat)
    requires IsLink(line, at, text, next) && !HasMore(text)
    ensures TransmissionEnd(line, at, text) == Some(next)
  {
  }

  lemma MoreLink(line: string, at: nat, text: string, next: nat, text': string, next': nat)
    requires IsLink(line, at, text, next) && HasMore(text) && IsLink(line, next, text', next')
    ensures TransmissionEnd(line, at, text) == TransmissionEnd(line, next, text')
  {
  }

  /** Commands that follow one another; all but the last announce more. */
  ghost predicate IsChain(line: string, ats: seq<nat>, texts: seq<string>)
    decreases |texts|
  {
    && |ats| == |texts| + 1 && |texts| > 0
    && IsLink(line, ats[0], texts[0], ats[1])
    && HasMore(texts[0]) == (|texts| > 1)
    && (|texts| > 1 ==> IsChain(line, ats[1..], texts[1..]))
  }

  lemma {:induction false} EndOfChain(line: string, ats: seq<nat>, texts: seq<string>)
    requires IsChain(line, ats, texts)
    ensures TransmissionEnd(line, ats[0], texts[0]) == Some(ats[|ats| - 1])
    decreases |texts|
  {
    if |texts| == 1 {
      LastLink(line, ats[0], texts[0], ats[1]);
    } else {
      assert ats[1..][0] == ats[1] && ats[1..][1] == ats[2] && texts[1..][0] == texts[1];
      MoreLink(line, ats[0], texts[0], ats[1], texts[1], ats[2]);
      EndOfChain(line, ats[1..], texts[1..]);
    }
  }

  lemma ExtendChain(line: string, at: nat, text: string, ats: seq<nat>, texts: seq<string>)
    requires IsChain(line, ats, texts) && IsLink(line, at, text, ats[0]) && HasMore(text)
    ensures IsChain(line, [at] + ats, [text] + texts)
  {
    assert ([at] + ats)[1..] == ats && ([text] + texts)[1..] == texts;
  }

  /** The commands of an encoding form a chain. */
  lemma {:induction false} ReadsChain(
      line: string, at: nat, controls: seq<Control>, payload: string, later: seq<string>, suffix: string)
    returns (ats: seq<nat>, texts: seq<string>)
    requires ESC !in payload && forall k :: 0 <= k < |later| ==> ESC !in later[k]
    requires |controls| > 0 && Clean(controls) && (MORE in controls <==> later != [])
    requires at <= |line| && line[at..] == Command(controls, payload) + (MoreCommands(later) + suffix)
    ensures IsChain(line, ats, texts) && ats[0] == at && texts[0] == JoinWith(Texts(controls), ",")
    ensures ats[|ats| - 1] == |line| - |suffix|
    decreases |later|
  {
    var rest, text := MoreCommands(later) + suffix, JoinWith(Texts(controls), ",");
    assert CommandAt(line, at, text, payload, rest);
    TextOfControls(controls, text);
    ReadsLink(line, at, text, payload, rest);
    var next := |line| - |rest|;
    if later == [] {
      ats, texts := [at, next], [text];
    } else {
      var control := [if |later| == 1 then LAST else MORE];
      NextCommand(later, suffix, control);
      ControlsAreClean(control);
      ats, texts := ReadsChain(line, next, control, later[0], later[1..], suffix);
      ExtendChain(line, at, text, ats, texts);
      ats, texts := [at] + ats, [text] + texts;
    }
  }

  lemma ControlsAreClean(control: seq<Control>)
    requires control == [LAST] || control == [MORE]
    ensures Clean(control) && (MORE in control <==> control == [MORE])
  {
    assert AllWord("1") && AllWord("0");
    assert LAST != MORE;
  }

  lemma NextCommand(later: seq<string>, suffix: string, control: seq<Control>)
    requires later != [] && control == [if |later| == 1 then LAST else MORE]
    ensures MoreCommands(later) + suffix == Command(control, later[0]) + (MoreCommands(later[1..]) + suffix)
  {
    if |later| == 1 {
      NoMore(Command(control, later[0]), suffix);
      assert later[1..] == [];
    } else {
      Associative(Command(control, later[0]), MoreCommands(later[1..]), suffix);
    }
  }

  lemma NoMore(first: string, suffix: string)
    ensures first + ("" + suffix) == first + suffix
  {
  }

  // ----- The round trip -----

  /** A prefix without an introducer cannot make one together with the encoding either. */
  lemma FirstIntroducer(prefix: string, encoded: string, suffix: string)
    requires !Occurs(prefix, KITTY_PREFIX) && KITTY_PREFIX <= encoded
    ensures IndexOf(prefix + encoded + suffix, KITTY_PREFIX) == |prefix|
  {
    var line := prefix + encoded + suffix;
    assert line[|prefix|..|prefix| + 3] == encoded[..3] == KITTY_PREFIX;
    assert OccursAt(line, KITTY_PREFIX, |prefix|);
    forall j | 0 <= j < |prefix| ensures !OccursAt(line, KITTY_PREFIX, j) {
      if j + 3 <= |prefix| {
        assert line[j..j + 3] == prefix[j..j + 3];
        assert !OccursAt(prefix, KITTY_PREFIX, j);
      } else {
        assert line[|prefix|] == encoded[0] == ESC;
        assert line[j..j + 3][|prefix| - j] == line[|prefix|];
      }
    }
  }

  lemma {:induction false} ChunksAreClean(payload: string)
    requires ESC !in payload
    ensures |Chunks(payload)| > 0 && forall k :: 0 <= k < |Chunks(payload)| ==> ESC !in Chunks(payload)[k]
    decreases |payload|
  {
    if |payload| > CHUNK_SIZE {
      ChunksAreClean(payload[CHUNK_SIZE..]);
    }
  }

  /** The controls of the first command. */
  function FirstControls(chunks: seq<string>, options: Options): seq<Control> {
    Params(options) + (if |chunks| == 1 then [] else [MORE])
  }

  /** An encoding is its first command followed by the others. */
  lemma EncodingParts(payload: string, options: Options, suffix: string)
    ensures var chunks := Chunks(payload);
            && |chunks| > 0
            && Encoding(payload, Params(options)) + suffix
               == Command(FirstControls(chunks, options), chunks[0]) + (MoreCommands(chunks[1..]) + suffix)
    ensures KITTY_PREFIX <= Encoding(payload, Params(options))
  {
    var chunks := Chunks(payload);
    var first, more := Command(FirstControls(chunks, options), chunks[0]), MoreCommands(chunks[1..]);
    if |chunks| == 1 {
      assert FirstControls(chunks, options) == Params(options) && chunks[1..] == [];
      NoMore(first, suffix);
    } else {
      Associative(first, more, suffix);
    }
  }

  lemma IntroducerAt(line: string, start: nat, text: string, next: nat)
    requires IndexOf(line, KITTY_PREFIX) == start && IsLink(line, start, text, next)
    ensures FindIntroducer(line) == Some(Introducer(start, text))
  {
  }

  lemma FirstCarries(chunks: seq<string>, options: Options)
    ensures var controls := FirstControls(chunks, options);
            && Clean(controls) && |controls| > 0
            && (MORE in controls <==> |chunks| != 1)
            && FirstId(controls) == (if options.imageId == 0 then None else Some(options.imageId))
            && Kept(controls) == Placing(options)
  {
    ParamsAreClean(options);
    CleanConcat(Params(options), [MORE]);
    IdOfParams(options, if |chunks| == 1 then [] else [MORE]);
    KeptOfParams(options, if |chunks| == 1 then [] else [MORE]);
    assert forall k :: 0 <= k < |Params(options)| ==> Params(options)[k].key != 'm';
    if |chunks| == 1 {
      assert FirstControls(chunks, options) == Params(options);
    } else {
      assert FirstControls(chunks, options)[|Params(options)|] == MORE;
    }
  }

  lemma ChainSpan(
      line: string, at: nat, controls: seq<Control>, text: string, payload: string, later: seq<string>, suffix: string)
    returns (next: nat)
    requires ESC !in payload && forall k :: 0 <= k < |later| ==> ESC !in later[k]
    requires |controls| > 0 && Clean(controls) && (MORE in controls <==> later != [])
    requires text == JoinWith(Texts(controls), ",")
    requires at <= |line| && line[at..] == Command(controls, payload) + (MoreCommands(later) + suffix)
    ensures IsLink(line, at, text, next)
    ensures |suffix| <= |line| && TransmissionEnd(line, at, text) == Some(|line| - |suffix|)
  {
    var ats, texts := ReadsChain(line, at, controls, payload, later, suffix);
    assert IsLink(line, ats[0], texts[0], ats[0 + 1]);
    next := ats[1];
    EndOfChain(line, ats, texts);
  }

  lemma AfterPrefix(prefix: string, encoded: string, suffix: string, line: string, tail: string)
    requires line == prefix + encoded + suffix && encoded + suffix == tail
    ensures |prefix| <= |line| && line[|prefix|..] == tail && |line| - |suffix| == |prefix| + |encoded|
  {
  }

  /** The introducer of the encoding is the first one of the line. */
  lemma IntroducerIsFound(prefix: string, encoded: string, suffix: string, line: string, text: string, next: nat)
    requires line == prefix + encoded + suffix && !Occurs(prefix, KITTY_PREFIX) && KITTY_PREFIX <= encoded
    requires IsLink(line, |prefix|, text, next)
    ensures FindIntroducer(line) == Some(Introducer(|prefix|, text))
  {
    FirstIntroducer(prefix, encoded, suffix);
    IntroducerAt(line, |prefix|, text, next);
  }

  /** What the text of clean controls says about the image. */
  lemma TextReadsBack(controls: seq<Control>, text: string)
    requires |controls| > 0 && Clean(controls) && text == JoinWith(Texts(controls), ",")
    ensures text != "" && IdIn(text) == FirstId(controls)
    ensures PlacementSequence(text) == PlacingSequence(Kept(controls))
  {
    JoinedIsClean(controls);
    ReadsId(controls);
    KeepsControls(controls);
    assert Texts(controls)[0] == controls[0].Text();
  }

  function PlacingSequence(controls: seq<Control>): string {
    KITTY_PREFIX + "a=p,q=2," + JoinWith(Texts(controls), ",") + TERMINATOR
  }

  lemma PlacementOfText(line: string, start: nat, end: nat, text: string, lookup: Lookup)
    requires text != "" && start <= |line| && end <= |line|
    requires FindIntroducer(line) == Some(Introducer(start, text))
    requires TransmissionEnd(line, start, text) == Some(end)
    ensures PlacementOf(line, lookup)
            == if IdIn(text).None? || lookup(IdIn(text).value).None? then None
               else Some(PlacementAt(line, start, end, PlacementSequence(text), lookup(IdIn(text).value).value))
  {
  }

  /** The end of an encoding is found, whatever stands before and after it. */
  lemma SpanEndIsFound(
      prefix: string, encoded: string, suffix: string, line: string,
      controls: seq<Control>, text: string, first: string, later: seq<string>) returns (next: nat)
    requires line == prefix + encoded + suffix
    requires ESC !in first && forall k :: 0 <= k < |later| ==> ESC !in later[k]
    requires |controls| > 0 && Clean(controls) && (MORE in controls <==> later != [])
    requires text == JoinWith(Texts(controls), ",")
    requires encoded + suffix == Command(controls, first) + (MoreCommands(later) + suffix)
    ensures IsLink(line, |prefix|, text, next)
    ensures TransmissionEnd(line, |prefix|, text) == Some(|prefix| + |encoded|)
  {
    AfterPrefix(prefix, encoded, suffix, line, Command(controls, first) + (MoreCommands(later) + suffix));
    next := ChainSpan(line, |prefix|, controls, text, first, later, suffix);
  }

  lemma PlacementAround(prefix: string, encoded: string, suffix: string, line: string, sequence: string, r: Registered)
    requires line == prefix + encoded + suffix
    ensures PlacementAt(line, |prefix|, |prefix| + |encoded|, sequence, r)
            == Placement(r.metadata.imageId, r.generation, |encoded|, r.metadata.widthPx * r.metadata.heightPx * 4,
                         sequence, prefix + sequence + suffix)
  {
    Around(prefix, encoded, suffix);
  }

  lemma PlacementOfSpan(prefix: string, encoded: string, suffix: string, line: string, text: string, lookup: Lookup)
    requires text != "" && line == prefix + encoded + suffix
    requires FindIntroducer(line) == Some(Introducer(|prefix|, text))
    requires TransmissionEnd(line, |prefix|, text) == Some(|prefix| + |encoded|)
    ensures PlacementOf(line, lookup)
            == if IdIn(text).None? || lookup(IdIn(text).value).None? then None
               else
                 var r := lookup(IdIn(text).value).value;
                 Some(Placement(r.metadata.imageId, r.generation, |encoded|,
                                r.metadata.widthPx * r.metadata.heightPx * 4,
                                PlacementSequence(text), prefix + PlacementSequence(text) + suffix))
  {
    var start, end := |prefix|, |prefix| + |encoded|;
    PlacementOfText(line, start, end, text, lookup);
    if IdIn(text).Some? && lookup(IdIn(text).value).Some? {
      PlacementAround(prefix, encoded, suffix, line, PlacementSequence(text), lookup(IdIn(text).value).value);
    }
  }

  /** What the first command of an encoding says, and that the others follow it. */
  lemma EncodingReads(payload: string, options: Options, suffix: string)
    returns (controls: seq<Control>, text: string, first: string, later: seq<string>)
    requires ESC !in payload
    ensures ESC !in first && forall k :: 0 <= k < |later| ==> ESC !in later[k]
    ensures |controls| > 0 && Clean(controls) && (MORE in controls <==> later != [])
    ensures text == JoinWith(Texts(controls), ",") && text != ""
    ensures IdIn(text) == if options.imageId == 0 then None else Some(options.imageId)
    ensures PlacementSequence(text) == PlacingSequence(Placing(options))
    ensures KITTY_PREFIX <= Encoding(payload, Params(options))
    ensures Encoding(payload, Params(options)) + suffix == Command(controls, first) + (MoreCommands(later) + suffix)
  {
    var chunks := Chunks(payload);
    ChunksAreClean(payload);
    first, later := chunks[0], chunks[1..];
    controls := FirstControls(chunks, options);
    text := JoinWith(Texts(controls), ",");
    EncodingParts(payload, options, suffix);
    FirstCarries(chunks, options);
    TextReadsBack(controls, text);
  }

  /**
    The round trip: in a line whose part before the encoding holds no introducer, exactly
    the span of the encoding is found and only it is replaced, by a command with the same
    cursor, size and id controls; and this happens if and only if the image has an id and
    that id is registered.
  */
  lemma PlacementRoundTrip(
      prefix: string, payload: string, options: Options, suffix: string, line: string, encoded: string, lookup: Lookup)
    requires ESC !in payload && !Occurs(prefix, KITTY_PREFIX)
    requires encoded == Encoding(payload, Params(options)) && line == prefix + encoded + suffix
    ensures PlacementOf(line, lookup)
            == if options.imageId == 0 || lookup(options.imageId).None? then None
               else
                 var r := lookup(options.imageId).value;
                 Some(Placement(r.metadata.imageId, r.generation, |encoded|,
                                r.metadata.widthPx * r.metadata.heightPx * 4,
                                PlacingSequence(Placing(options)), prefix + PlacingSequence(Placing(options)) + suffix))
  {
    var controls, text, first, later := EncodingReads(payload, options, suffix);
    var next := SpanEndIsFound(prefix, encoded, suffix, line, controls, text, first, later);
    IntroducerIsFound(prefix, encoded, suffix, line, text, next);
    PlacementOfSpan(prefix, encoded, suffix, line, text, lookup);
  }

  lemma Around(prefix: string, middle: string, suffix: string)
    ensures (prefix + middle + suffix)[..|prefix|] == prefix
    ensures (prefix + middle + suffix)[|prefix| + |middle|..] == suffix
  {
  }

  // ----- What is looked for -----

  /** The first introducer of the line, and the text from there to the first semicolon behind it. */
  lemma IntroducerExactly(line: string, start: nat, text: string)
    ensures FindIntroducer(line) == Some(Introducer(start, text)) <==>
              && start + 3 + |text| < |line| && line[start..start + 3] == "\U{1B}_G" && line[start + 3..start + 3 + |text|] == text
              && ';' !in text && line[start + 3 + |text|] == ';' && forall j :: 0 <= j < start ==> !OccursAt(line, "\U{1B}_G", j)
  {
    assert KITTY_PREFIX == "\U{1B}_G";
    if FindIntroducer(line) == Some(Introducer(start, text)) {
      var end := IndexFrom(line, ";", start + 3);
      IndexFromIsFirst(line, ";", start + 3);
      assert line[end..end + 1][0] == ';';
      forall k | 0 <= k < |text| ensures text[k] != ';' {
        assert !OccursAt(line, ";", start + 3 + k) && line[start + 3 + k..start + 3 + k + 1] == [text[k]];
      }
    } else if start + 3 + |text| < |line| && line[start..start + 3] == "\U{1B}_G" && line[start + 3..start + 3 + |text|] == text
              && ';' !in text && line[start + 3 + |text|] == ';' && forall j :: 0 <= j < start ==> !OccursAt(line, "\U{1B}_G", j) {
      FoundThere(line, start, text);
    }
  }

  lemma FoundThere(line: string, start: nat, text: string)
    requires start + 3 + |text| < |line| && line[start..start + 3] == KITTY_PREFIX && line[start + 3..start + 3 + |text|] == text
    requires ';' !in text && line[start + 3 + |text|] == ';' && forall j :: 0 <= j < start ==> !OccursAt(line, KITTY_PREFIX, j)
    ensures FindIntroducer(line) == Some(Introducer(start, text))
  {
    assert OccursAt(line, KITTY_PREFIX, start);
    var from := start + 3;
    forall j | from <= j < from + |text| ensures !OccursAt(line, ";", j) {
      assert line[j] == text[j - from] && line[j..j + 1] == [line[j]];
    }
    assert line[from + |text|..from + |text| + 1] == ";" && OccursAt(line, ";", from + |text|);
    IndexFromIsFirst(line, ";", from);
  }

  /** The id is in the first field that gives one. */
  lemma {:induction false} ImageIdExactly(fields: seq<string>) returns (k: nat)
    ensures k <= |fields| && forall j :: 0 <= j < k ==> !(|fields[j]| > 2 && fields[j][..2] == "i=" && AllDigits(fields[j][2..]))
    ensures k == |fields| ==> ImageIdOf(fields) == None
    ensures k < |fields| ==> |fields[k]| > 2 && fields[k][..2] == "i=" && AllDigits(fields[k][2..])
                             && ImageIdOf(fields) == Some(ParseDecimal(fields[k][2..]))
  {
    if fields == [] || IsIdField(fields[0]) {
      k := 0;
    } else {
      k := ImageIdExactly(fields[1..]);
      k := k + 1;
    }
  }

  /** The command that replaces an encoding places the image in the same way, without transmitting it. */
  lemma PlacingText(options: Options)
    ensures var tail := (if options.moveCursor then "" else ",C=1")
                        + (if options.columns == 0 then "" else ",c=" + Decimal(options.columns))
                        + (if options.rows == 0 then "" else ",r=" + Decimal(options.rows))
                        + (if options.imageId == 0 then "" else ",i=" + Decimal(options.imageId));
            PlacingSequence(Placing(options)) == "\U{1B}_Ga=p,q=2" + (if tail == "" then "," else tail) + "\U{1B}\\"
  {
    AfterPlacing(options);
    assert [',', 'c', '='] == ",c=" && [',', 'r', '='] == ",r=" && [',', 'i', '='] == ",i=";
    var controls := Placing(options);
    if controls == [] {
      assert After(controls) == "";
    } else {
      AfterIs(controls[0], controls[1..]);
      assert [controls[0]] + controls[1..] == controls;
      Associative(",", controls[0].Text(), After(controls[1..]));
      assert After(controls) == "," + JoinWith(Texts(controls), ",");
    }
    assert KITTY_PREFIX + "a=p,q=2," == "\U{1B}_Ga=p,q=2" + ",";
    Associative("\U{1B}_Ga=p,q=2", ",", JoinWith(Texts(controls), ","));
  }
}
