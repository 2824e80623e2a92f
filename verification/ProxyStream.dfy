/**
  Rebuilding an assistant message from a proxied event stream: decoded text arrives in
  chunks, complete lines carry events, and events update blocks of content in place.
*/
module ProxyStream {
  import opened ProxyLines
  import opened Sequences
  import opened WhiteSpace
  import opened Wrappers

  datatype ProxyEvent =
    | Start
    | TextStart(index: nat)
    | TextDelta(index: nat, delta: string)
    | TextEnd(index: nat, signature: string)
    | ThinkingStart(index: nat)
    | ThinkingDelta(index: nat, delta: string)
    | ThinkingEnd(index: nat, signature: string)
    | ToolCallStart(index: nat, id: string, name: string)
    | ToolCallDelta(index: nat, delta: string)
    | ToolCallEnd(index: nat, id: string, name: string, arguments: string)
    | Done(reason: string)
    | Failed(reason: string, message: string)
    | Unhandled

  /** The JSON text of a tool call is gone once the call ended. */
  datatype Block =
    | Text(text: string, signature: Option<string>)
    | Thinking(text: string, signature: Option<string>)
    | ToolCall(id: string, name: string, arguments: string, partialJson: Option<string>)

  datatype Partial = Partial(content: map<nat, Block>, stopReason: Option<string>, errorMessage: Option<string>)

  /** An event handed on, with the text of its block where the event carries it. */
  datatype Pushed = Pushed(event: ProxyEvent, text: string)

  datatype Failure = BadJson | WrongBlock(index: nat) | Aborted

  datatype Outcome = Ok(pushed: seq<Pushed>) | Thrown(failure: Failure)

  const EMPTY := Partial(map[], None, None)

  /** The JSON parsers of the source: of a whole event, and of the arguments received so far. */
  datatype Json = Json(parse: string -> Option<ProxyEvent>, parseArguments: string -> string)

  function Set(p: Partial, index: nat, block: Block): Partial { p.(content := p.content[index := block]) }

  predicate HoldsText(p: Partial, index: nat) { index in p.content && p.content[index].Text? }
  predicate HoldsThinking(p: Partial, index: nat) { index in p.content && p.content[index].Thinking? }
  predicate HoldsToolCall(p: Partial, index: nat) { index in p.content && p.content[index].ToolCall? }

  function ProcessProxyEvent(json: Json, p: Partial, e: ProxyEvent): (Partial, Outcome) {
    match e
    case Start => (p, Ok([Pushed(e, "")]))
    case TextStart(i) => (Set(p, i, Text("", None)), Ok([Pushed(e, "")]))
    case TextDelta(i, delta) =>
      if !HoldsText(p, i) then (p, Thrown(WrongBlock(i)))
      else (Set(p, i, Text(p.content[i].text + delta, p.content[i].signature)), Ok([Pushed(e, "")]))
    case TextEnd(i, signature) =>
      if !HoldsText(p, i) then (p, Thrown(WrongBlock(i)))
      else (Set(p, i, Text(p.content[i].text, Some(signature))), Ok([Pushed(e, p.content[i].text)]))
    case ThinkingStart(i) => (Set(p, i, Thinking("", None)), Ok([Pushed(e, "")]))
    case ThinkingDelta(i, delta) =>
      if !HoldsThinking(p, i) then (p, Thrown(WrongBlock(i)))
      else (Set(p, i, Thinking(p.content[i].text + delta, p.content[i].signature)), Ok([Pushed(e, "")]))
    case ThinkingEnd(i, signature) =>
      if !HoldsThinking(p, i) then (p, Thrown(WrongBlock(i)))
      else (Set(p, i, Thinking(p.content[i].text, Some(signature))), Ok([Pushed(e, p.content[i].text)]))
    case ToolCallStart(i, id, name) => (Set(p, i, ToolCall(id, name, "{}", Some(""))), Ok([Pushed(e, "")]))
    case ToolCallDelta(i, delta) =>
      if !HoldsToolCall(p, i) then (p, Thrown(WrongBlock(i)))
      else
        var call := p.content[i];
        // a delta after the end of the call is appended to the text of a missing value
        var text := (if call.partialJson.Some? then call.partialJson.value else "undefined") + delta;
        (Set(p, i, call.(partialJson := Some(text), arguments := json.parseArguments(text))), Ok([Pushed(e, "")]))
    case ToolCallEnd(i, id, name, arguments) =>
      if !HoldsToolCall(p, i) then (p, Ok([]))
      else (Set(p, i, ToolCall(id, name, arguments, None)), Ok([Pushed(e, "")]))
    case Done(reason) => (p.(stopReason := Some(reason)), Ok([Pushed(e, "")]))
    case Failed(reason, message) =>
      (p.(stopReason := Some(reason), errorMessage := Some(message)), Ok([Pushed(e, "")]))
    case Unhandled => (p, Ok([]))
  }

  // ----- Lines -----

  const DATA_PREFIX := "data: "

  /** The event data of a line, trimmed; lines without data carry nothing. */
  function DataOf(line: string): Option<string> {
    if DATA_PREFIX <= line && Trim(line[|DATA_PREFIX|..]) != "" then Some(Trim(line[|DATA_PREFIX|..])) else None
  }

  /** How far the stream got: the message, what was pushed, and what stopped it. */
  datatype Progress = Progress(message: Partial, pushed: seq<Pushed>, failure: Option<Failure>)

  const INITIAL := Progress(EMPTY, [], None)

  function ProcessEvent(json: Json, p: Progress, e: ProxyEvent): Progress {
    var (message, outcome) := ProcessProxyEvent(json, p.message, e);
    match outcome
    case Ok(pushed) => Progress(message, p.pushed + pushed, None)
    case Thrown(failure) => p.(message := message, failure := Some(failure))
  }

  function ProcessLine(json: Json, p: Progress, line: string): Progress {
    var data := DataOf(line);
    if p.failure.Some? || data.None? then p
    else
      var event := json.parse(data.value);
      if event.None? then p.(failure := Some(BadJson)) else ProcessEvent(json, p, event.value)
  }

  function ProcessLines(json: Json, p: Progress, lines: seq<string>): Progress {
    if lines == [] then p else ProcessLine(json, ProcessLines(json, p, Lead(lines)), Last(lines))
  }

  lemma {:induction false} FailureStays(json: Json, p: Progress, lines: seq<string>)
    requires p.failure.Some?
    ensures ProcessLines(json, p, lines) == p
  {
    if lines != [] {
      FailureStays(json, p, Lead(lines));
    }
  }

  lemma {:induction false} LinesConcat(json: Json, p: Progress, a: seq<string>, b: seq<string>)
    ensures ProcessLines(json, p, a + b) == ProcessLines(json, ProcessLines(json, p, a), b)
  {
    if b == [] {
      assert a + b == a;
    } else {
      assert Lead(a + b) == a + Lead(b) && Last(a + b) == Last(b);
      LinesConcat(json, p, a, Lead(b));
    }
  }

  // ----- The read loop -----

  /** One read: decoded text, and whether the caller's signal was found aborted after it. */
  datatype Read = Read(text: string, aborted: bool)

  function Texts(received: seq<Read>): seq<string> {
    if received == [] then [] else [received[0].text] + Texts(received[1..])
  }

  /** The reads before the first one that finds the signal aborted. */
  function BeforeAbort(received: seq<Read>): seq<Read> {
    if received == [] || received[0].aborted then [] else [received[0]] + BeforeAbort(received[1..])
  }

  class ProxyReader {
    const json: Json
    var message: Partial
    var pushed: seq<Pushed>
    var failure: Option<Failure>
    var buffer: string

    ghost function View(): Progress
      reads this
    {
      Progress(message, pushed, failure)
    }

    constructor (json: Json)
      ensures View() == INITIAL && buffer == "" && this.json == json
    {
      this.json := json;
      message, pushed, failure, buffer := EMPTY, [], None, "";
    }

    method HandleLine(line: string)
      requires failure == None
      modifies `message, `pushed, `failure
      ensures View() == ProcessLine(json, old(View()), line)
    {
      if DATA_PREFIX <= line {
        var data := Trim(line[|DATA_PREFIX|..]);
        if data != "" {
          var event := json.parse(data);
          if event.None? {
            failure := Some(BadJson);
            return;
          }
          var (next, outcome) := ProcessProxyEvent(json, message, event.value);
          message := next;
          match outcome {
            case Ok(more) => pushed := pushed + more;
            case Thrown(f) => failure := Some(f);
          }
        }
      }
    }

    /** One chunk of text: the complete lines are handled in order, the rest is kept. */
    method HandleText(text: string)
      requires failure == None
      modifies this
      ensures View() == ProcessLines(json, old(View()), CompleteLines(old(buffer) + text))
      ensures buffer == Tail(old(buffer) + text)
    {
      buffer := buffer + text;
      var parts := SplitOn(buffer, '\n');
      buffer := Last(parts);
      var lines := Lead(parts);
      var i := 0;
      assert lines[..0] == [];
      while i < |lines| && failure == None
        invariant 0 <= i <= |lines| && buffer == Last(parts)
        invariant View() == ProcessLines(json, old(View()), lines[..i])
        decreases |lines| - i
      {
        assert Lead(lines[..i + 1]) == lines[..i];
        HandleLine(lines[i]);
        i := i + 1;
      }
      assert lines[..i] + lines[i..] == lines;
      LinesConcat(json, old(View()), lines[..i], lines[i..]);
      if failure.Some? {
        FailureStays(json, View(), lines[i..]);
      }
    }

    /** The read loop: it stops at the first failure or abort; the signal is looked at once more at the end. */
    method ReadAll(received: seq<Read>, abortedAtEnd: bool)
      requires View() == INITIAL && buffer == ""
      modifies this
      ensures var upToAbort := ProcessLines(json, INITIAL, CompleteLines(Flatten(Texts(BeforeAbort(received)))));
              View() == if upToAbort.failure.Some? then upToAbort
                        else if BeforeAbort(received) != received || abortedAtEnd then upToAbort.(failure := Some(Aborted))
                        else upToAbort
      ensures forall index: nat ::
                BlockFollows(message.content, Handled(json, EventsOf(json, LinesReceived(received))), index)
    {
      forall index: nat
        ensures BlockFollows(ProcessLines(json, INITIAL, LinesReceived(received)).message.content,
                             Handled(json, EventsOf(json, LinesReceived(received))), index)
      {
        ChunksAreBlocks(json, received, index);
      }
      var i := 0;
      ghost var before := BeforeAbort(received);
      ghost var whole := CompleteLines(Flatten(Texts(before)));
      BeforeAbortIsPrefix(received);
      LinesOfEmpty();
      while i < |received| && failure == None
        invariant 0 <= i <= |before|
        invariant View() == ProcessLines(json, INITIAL, CompleteLines(Flatten(Texts(received[..i]))))
        invariant failure == None ==> buffer == Tail(Flatten(Texts(received[..i])))
        decreases |received| - i
      {
        if received[i].aborted {
          assert received[..i] == before;
          failure := Some(Aborted);
          return;
        }
        TextsStep(received, i);
        LinesOfTwo(Flatten(Texts(received[..i])), received[i].text);
        LinesConcat(json, INITIAL, CompleteLines(Flatten(Texts(received[..i]))), CompleteLines(buffer + received[i].text));
        HandleText(received[i].text);
        i := i + 1;
      }
      if failure.Some? {
        RestIsIgnored(received, i);
        return;
      }
      assert received[..i] == received;
      if abortedAtEnd {
        failure := Some(Aborted);
      }
    }

    /** After a failure the complete lines of later reads change nothing. */
    lemma RestIsIgnored(received: seq<Read>, i: nat)
      requires i <= |BeforeAbort(received)| <= |received|
      requires BeforeAbort(received) == received[..|BeforeAbort(received)|]
      requires var p := ProcessLines(json, INITIAL, CompleteLines(Flatten(Texts(received[..i])))); p.failure.Some?
      ensures ProcessLines(json, INITIAL, CompleteLines(Flatten(Texts(BeforeAbort(received)))))
           == ProcessLines(json, INITIAL, CompleteLines(Flatten(Texts(received[..i]))))
    {
      var before := BeforeAbort(received);
      var first, rest := Flatten(Texts(received[..i])), Flatten(Texts(before[i..]));
      assert before == before[..i] + before[i..] && before[..i] == received[..i];
      TextsConcat(before[..i], before[i..]);
      LinesOfTwo(first, rest);
      LinesConcat(json, INITIAL, CompleteLines(first), CompleteLines(Tail(first) + rest));
      FailureStays(json, ProcessLines(json, INITIAL, CompleteLines(first)), CompleteLines(Tail(first) + rest));
    }
  }

  lemma LinesOfEmpty()
    ensures CompleteLines("") == [] && Tail("") == "" && Flatten(Texts([])) == ""
  {
  }

  lemma {:induction false} BeforeAbortIsPrefix(received: seq<Read>)
    ensures |BeforeAbort(received)| <= |received| && BeforeAbort(received) == received[..|BeforeAbort(received)|]
    ensures forall k :: 0 <= k < |BeforeAbort(received)| ==> !received[k].aborted
    ensures |BeforeAbort(received)| < |received| ==> received[|BeforeAbort(received)|].aborted
  {
    if received != [] && !received[0].aborted {
      BeforeAbortIsPrefix(received[1..]);
      assert received == [received[0]] + received[1..];
    }
  }

  lemma {:induction false} TextsConcat(a: seq<Read>, b: seq<Read>)
    ensures Flatten(Texts(a + b)) == Flatten(Texts(a)) + Flatten(Texts(b))
  {
    if a == [] {
      assert a + b == b && "" + Flatten(Texts(b)) == Flatten(Texts(b));
    } else {
      assert (a + b)[1..] == a[1..] + b;
      TextsConcat(a[1..], b);
      FlattenCons(a[0].text, Texts(a[1..]));
      FlattenCons(a[0].text, Texts(a[1..] + b));
      assert a[0].text + (Flatten(Texts(a[1..])) + Flatten(Texts(b))) == (a[0].text + Flatten(Texts(a[1..]))) + Flatten(Texts(b));
    }
  }

  lemma FlattenCons(text: string, rest: seq<string>)
    ensures Flatten([text] + rest) == text + Flatten(rest)
  {
    assert ([text] + rest)[1..] == rest;
  }

  lemma TextsStep(received: seq<Read>, i: nat)
    requires i < |received|
    ensures Flatten(Texts(received[..i + 1])) == Flatten(Texts(received[..i])) + received[i].text
  {
    assert received[..i + 1] == received[..i] + [received[i]];
    TextsConcat(received[..i], [received[i]]);
    assert Texts([received[i]]) == [received[i].text];
    FlattenCons(received[i].text, []);
    assert received[i].text + "" == received[i].text;
  }

  // ----- What the blocks hold -----

  function ProcessEvents(json: Json, p: Progress, events: seq<ProxyEvent>): Progress {
    if events == [] then p
    else
      var before := ProcessEvents(json, p, Lead(events));
      if before.failure.Some? then before else ProcessEvent(json, before, Last(events))
  }

  predicate StartsBlock(e: ProxyEvent, index: nat) {
    (e.TextStart? || e.ThinkingStart? || e.ToolCallStart?) && e.index == index
  }

  /** The events since the latest start event of a block, that start event first. */
  function SinceStart(events: seq<ProxyEvent>, index: nat): seq<ProxyEvent> {
    if events == [] then []
    else if StartsBlock(Last(events), index) then [Last(events)]
    else
      var before := SinceStart(Lead(events), index);
      if before == [] then [] else before + [Last(events)]
  }

  /** The text and thinking deltas for a block, one after the other. */
  function Deltas(events: seq<ProxyEvent>, index: nat): string {
    if events == [] then ""
    else
      var e := Last(events);
      Deltas(Lead(events), index) + (if IsDelta(e, index) then e.delta else "")
  }

  /** What the events since the latest start make of a block. */
  ghost predicate BlockFollows(content: map<nat, Block>, events: seq<ProxyEvent>, index: nat) {
    var since := SinceStart(events, index);
    && (index in content <==> since != [])
    && (since != [] ==>
          && (content[index].Text? <==> since[0].TextStart?)
          && (content[index].Thinking? <==> since[0].ThinkingStart?)
          && (content[index].Text? || content[index].Thinking? ==> content[index].text == Deltas(since, index)))
  }

  lemma DeltasOfOne(e: ProxyEvent, index: nat)
    requires StartsBlock(e, index)
    ensures Deltas([e], index) == ""
  {
    assert Lead([e]) == [];
  }

  lemma DeltasSnoc(events: seq<ProxyEvent>, e: ProxyEvent, index: nat)
    ensures Deltas(events + [e], index)
         == Deltas(events, index) + (if IsDelta(e, index) then e.delta else "")
  {
    assert Lead(events + [e]) == events && Last(events + [e]) == e;
  }

  predicate IsDelta(e: ProxyEvent, index: nat) { (e.TextDelta? || e.ThinkingDelta?) && e.index == index }

  /** An event that starts a block, seen from that block and from any other. */
  lemma StartSetsBlock(json: Json, p: Progress, e: ProxyEvent, index: nat)
    requires StartsBlock(e, index)
    ensures var content := ProcessEvent(json, p, e).message.content;
            && index in content
            && (content[index].Text? <==> e.TextStart?) && (content[index].Thinking? <==> e.ThinkingStart?)
            && (content[index].Text? || content[index].Thinking? ==> content[index].text == "")
  {
  }

  /** Any other event keeps the kind of a block, and its text grows by its own deltas only. */
  lemma OthersExtendBlock(json: Json, p: Progress, e: ProxyEvent, index: nat)
    requires !StartsBlock(e, index) && ProcessEvent(json, p, e).failure.None?
    ensures var content, content' := p.message.content, ProcessEvent(json, p, e).message.content;
            && (index in content' <==> index in content)
            && (index in content ==>
                  && (content'[index].Text? <==> content[index].Text?)
                  && (content'[index].Thinking? <==> content[index].Thinking?)
                  && (content[index].Text? || content[index].Thinking? ==>
                        content'[index].text == content[index].text + (if IsDelta(e, index) then e.delta else "")))
  {
    var content := p.message.content;
    if index in content && (content[index].Text? || content[index].Thinking?) {
      assert content[index].text + "" == content[index].text;
    }
  }

  lemma SinceAfterStart(events: seq<ProxyEvent>, e: ProxyEvent, index: nat)
    ensures SinceStart(events + [e], index)
         == if StartsBlock(e, index) then [e]
            else if SinceStart(events, index) == [] then [] else SinceStart(events, index) + [e]
  {
    assert Lead(events + [e]) == events && Last(events + [e]) == e;
  }

  /** One more event, seen from one block. */
  lemma EventKeepsBlock(json: Json, p: Progress, events: seq<ProxyEvent>, e: ProxyEvent, index: nat)
    requires BlockFollows(p.message.content, events, index)
    requires ProcessEvent(json, p, e).failure.None?
    ensures BlockFollows(ProcessEvent(json, p, e).message.content, events + [e], index)
  {
    SinceAfterStart(events, e, index);
    if StartsBlock(e, index) {
      StartSetsBlock(json, p, e, index);
      DeltasOfOne(e, index);
    } else {
      OthersExtendBlock(json, p, e, index);
      DeltasSnoc(SinceStart(events, index), e, index);
    }
  }

  /** The events before the first one that failed; all of them when none did. */
  ghost function Handled(json: Json, events: seq<ProxyEvent>): seq<ProxyEvent> {
    if events == [] then []
    else if ProcessEvents(json, INITIAL, events).failure.Some? then Handled(json, Lead(events))
    else events
  }

  lemma FailureChangesNoBlock(json: Json, p: Progress, e: ProxyEvent)
    requires ProcessEvent(json, p, e).failure.Some?
    ensures ProcessEvent(json, p, e).message == p.message
  {
  }

  /**
    For any interleaving of blocks: a block is a text or thinking block exactly when its
    latest start event says so, and then its text is the concatenation of its deltas since
    that start event. After a failure this holds of the events before it.
  */
  lemma {:induction false} BlocksAreTheirDeltas(json: Json, events: seq<ProxyEvent>, index: nat)
    ensures BlockFollows(ProcessEvents(json, INITIAL, events).message.content, Handled(json, events), index)
    ensures ProcessEvents(json, INITIAL, events).failure.None? ==> Handled(json, events) == events
  {
    if events != [] {
      var before := ProcessEvents(json, INITIAL, Lead(events));
      BlocksAreTheirDeltas(json, Lead(events), index);
      if before.failure.None? {
        if ProcessEvents(json, INITIAL, events).failure.None? {
          EventKeepsBlock(json, before, Lead(events), Last(events), index);
          assert Lead(events) + [Last(events)] == events;
        } else {
          FailureChangesNoBlock(json, before, Last(events));
        }
      }
    }
  }

  // ----- From the text received to the blocks -----

  predicate Parses(json: Json, line: string) {
    DataOf(line).Some? ==> json.parse(DataOf(line).value).Some?
  }

  predicate AllParse(json: Json, lines: seq<string>) {
    forall i :: 0 <= i < |lines| ==> Parses(json, lines[i])
  }

  /** The events that lines carry, up to the first line whose data does not parse. */
  function EventsOf(json: Json, lines: seq<string>): seq<ProxyEvent> {
    if lines == [] then []
    else
      var before, data := EventsOf(json, Lead(lines)), DataOf(Last(lines));
      if !AllParse(json, lines) || data.None? then before else before + [json.parse(data.value).value]
  }

  lemma AllParseSnoc(json: Json, lines: seq<string>)
    requires lines != []
    ensures AllParse(json, lines) <==> AllParse(json, Lead(lines)) && Parses(json, Last(lines))
  {
    assert forall i :: 0 <= i < |lines| - 1 ==> lines[i] == Lead(lines)[i];
  }

  /** Lines do what their events do; where an event did not fail before, the first line that does not parse is what fails. */
  lemma {:induction false} LinesAreEvents(json: Json, lines: seq<string>)
    ensures var p, q := ProcessLines(json, INITIAL, lines), ProcessEvents(json, INITIAL, EventsOf(json, lines));
            && p.message == q.message && p.pushed == q.pushed
            && p.failure == if q.failure.Some? then q.failure else if AllParse(json, lines) then None else Some(BadJson)
  {
    if lines != [] {
      LinesAreEvents(json, Lead(lines));
      AllParseSnoc(json, lines);
      if AllParse(json, lines) && DataOf(Last(lines)).Some? {
        var events, event := EventsOf(json, Lead(lines)), json.parse(DataOf(Last(lines)).value).value;
        assert Lead(events + [event]) == events && Last(events + [event]) == event;
      }
    }
  }

  /** The complete lines that arrived before the signal was found aborted. */
  function LinesReceived(received: seq<Read>): seq<string> { CompleteLines(Flatten(Texts(BeforeAbort(received)))) }

  /**
    From chunks to blocks: however the stream was cut into reads, what the complete lines
    make of a block are the events since its latest start, among those before the first
    failure and before the first line that does not parse.
  */
  lemma ChunksAreBlocks(json: Json, received: seq<Read>, index: nat)
    ensures BlockFollows(ProcessLines(json, INITIAL, LinesReceived(received)).message.content,
                         Handled(json, EventsOf(json, LinesReceived(received))), index)
  {
    LinesAreEvents(json, LinesReceived(received));
    BlocksAreTheirDeltas(json, EventsOf(json, LinesReceived(received)), index);
  }

  // ----- Single lines and events -----

  lemma DataExactly(rest: string, line: string)
    ensures DataOf("data: " + rest) == if Trim(rest) == "" then None else Some(Trim(rest))
    ensures |line| < 6 || line[..6] != "data: " ==> DataOf(line) == None
  {
    assert ("data: " + rest)[6..] == rest && ("data: " + rest)[..6] == "data: ";
  }

  /** A delta or an end fails when its block is not of its kind; the end of a tool call is ignored then. */
  lemma FailsExactly(json: Json, p: Partial, e: ProxyEvent, index: nat)
    requires (e.TextDelta? || e.TextEnd? || e.ThinkingDelta? || e.ThinkingEnd? || e.ToolCallDelta?) && e.index == index
    ensures var (message, outcome) := ProcessProxyEvent(json, p, e);
            var fits := index in p.content && (if e.ToolCallDelta? then p.content[index].ToolCall?
                                               else if e.TextDelta? || e.TextEnd? then p.content[index].Text? else p.content[index].Thinking?);
            && (!fits ==> outcome == Thrown(WrongBlock(index)) && message == p)
            && (fits ==> outcome == Ok([Pushed(e, if e.TextEnd? || e.ThinkingEnd? then p.content[index].text else "")]))
  {
  }

  lemma OthersNeverFail(json: Json, p: Partial, e: ProxyEvent)
    requires !(e.TextDelta? || e.TextEnd? || e.ThinkingDelta? || e.ThinkingEnd? || e.ToolCallDelta?)
    ensures var silent := e.Unhandled? || (e.ToolCallEnd? && !(e.index in p.content && p.content[e.index].ToolCall?));
            && ProcessProxyEvent(json, p, e).1 == Ok(if silent then [] else [Pushed(e, "")])
            && (silent ==> ProcessProxyEvent(json, p, e).0 == p)
  {
  }

  // ----- Signatures, tool calls and the end of the message -----

  /** The signature that the last end event of a block brought. */
  function LastSignature(events: seq<ProxyEvent>, index: nat): Option<string> {
    if events == [] then None
    else
      var e := Last(events);
      if (e.TextEnd? || e.ThinkingEnd?) && e.index == index then Some(e.signature) else LastSignature(Lead(events), index)
  }

  predicate NamesCall(e: ProxyEvent, index: nat) { (e.ToolCallStart? || e.ToolCallEnd?) && e.index == index }

  predicate IsCallDelta(e: ProxyEvent, index: nat) { e.ToolCallDelta? && e.index == index }

  /** The last event that names the tool call, of events that start with one. */
  function LastNaming(since: seq<ProxyEvent>, index: nat): (m: nat)
    requires since != [] && NamesCall(since[0], index)
    ensures m < |since| && NamesCall(since[m], index)
  {
    if NamesCall(Last(since), index) then |since| - 1 else LastNaming(Lead(since), index)
  }

  /** The JSON text that came behind position m; None when none came. */
  function JsonAfter(since: seq<ProxyEvent>, m: nat, index: nat): Option<string>
    requires m < |since|
  {
    if m == |since| - 1 then None
    else
      var before := JsonAfter(Lead(since), m, index);
      if IsCallDelta(Last(since), index) then Some((if before.Some? then before.value else "") + Last(since).delta) else before
  }

  /** The tool call that events since its start make: its latest name, and the JSON that came behind it. */
  ghost predicate IsCall(json: Json, block: Block, since: seq<ProxyEvent>, index: nat)
    requires since != [] && NamesCall(since[0], index)
  {
    var m := LastNaming(since, index);
    var e, more := since[m], JsonAfter(since, m, index);
    if more.Some? then
      // behind the end of a call the text starts over, with the text of a missing value
      var text := (if e.ToolCallStart? then "" else "undefined") + more.value;
      block == ToolCall(e.id, e.name, json.parseArguments(text), Some(text))
    else if e.ToolCallStart? then block == ToolCall(e.id, e.name, "{}", Some(""))
    else block == ToolCall(e.id, e.name, e.arguments, None)
  }

  ghost predicate DetailsFollow(json: Json, content: map<nat, Block>, events: seq<ProxyEvent>, index: nat) {
    var since := SinceStart(events, index);
    && (index in content <==> since != [])
    && (since != [] ==> StartsBlock(since[0], index)
                        && (content[index].Text? <==> since[0].TextStart?) && (content[index].Thinking? <==> since[0].ThinkingStart?))
    && (since != [] && (content[index].Text? || content[index].Thinking?) ==> content[index].signature == LastSignature(since, index))
    && (since != [] && since[0].ToolCallStart? ==> IsCall(json, content[index], since, index))
  }

  lemma CallSnoc(json: Json, block: Block, since: seq<ProxyEvent>, e: ProxyEvent, index: nat)
    requires since != [] && since[0].ToolCallStart? && NamesCall(since[0], index) && IsCall(json, block, since, index)
    ensures NamesCall((since + [e])[0], index)
    ensures e.ToolCallEnd? && e.index == index ==> IsCall(json, ToolCall(e.id, e.name, e.arguments, None), since + [e], index)
    ensures IsCallDelta(e, index) ==>
              block.ToolCall?
              && var text := (if block.partialJson.Some? then block.partialJson.value else "undefined") + e.delta;
                 IsCall(json, block.(partialJson := Some(text), arguments := json.parseArguments(text)), since + [e], index)
    ensures !NamesCall(e, index) && !IsCallDelta(e, index) ==> IsCall(json, block, since + [e], index)
  {
    var more := since + [e];
    assert Lead(more) == since && Last(more) == e;
    var m := LastNaming(since, index);
    if !NamesCall(e, index) {
      assert LastNaming(more, index) == m && more[m] == since[m];
      var json' := JsonAfter(since, m, index);
      if IsCallDelta(e, index) && json'.Some? {
        Associative(if since[m].ToolCallStart? then "" else "undefined", json'.value, e.delta);
      } else if IsCallDelta(e, index) {
        assert JsonAfter(more, m, index) == Some("" + e.delta) && "" + e.delta == e.delta;
      }
    }
  }

  lemma SignatureSnoc(events: seq<ProxyEvent>, e: ProxyEvent, index: nat)
    ensures LastSignature(events + [e], index)
            == if (e.TextEnd? || e.ThinkingEnd?) && e.index == index then Some(e.signature) else LastSignature(events, index)
  {
    assert Lead(events + [e]) == events && Last(events + [e]) == e;
  }

  lemma StartKeepsDetails(json: Json, p: Progress, events: seq<ProxyEvent>, e: ProxyEvent, index: nat)
    requires StartsBlock(e, index)
    ensures DetailsFollow(json, ProcessEvent(json, p, e).message.content, events + [e], index)
  {
    SinceAfterStart(events, e, index);
    assert Lead([e]) == [] && Last([e]) == e;
  }

  /** An event that starts no block, seen from a text or thinking block: only its own end event changes the signature. */
  lemma OthersKeepSignature(json: Json, p: Progress, since: seq<ProxyEvent>, e: ProxyEvent, index: nat)
    requires !StartsBlock(e, index) && ProcessEvent(json, p, e).failure.None? && index in p.message.content
    requires (p.message.content[index].Text? || p.message.content[index].Thinking?) && p.message.content[index].signature == LastSignature(since, index)
    ensures var block := ProcessEvent(json, p, e).message.content[index];
            (block.Text? || block.Thinking?) && block.signature == LastSignature(since + [e], index)
  {
    SignatureSnoc(since, e, index);
  }

  lemma OthersKeepCall(json: Json, p: Progress, since: seq<ProxyEvent>, e: ProxyEvent, index: nat)
    requires !StartsBlock(e, index) && ProcessEvent(json, p, e).failure.None? && index in p.message.content
    requires since != [] && since[0].ToolCallStart? && NamesCall(since[0], index) && IsCall(json, p.message.content[index], since, index)
    ensures IsCall(json, ProcessEvent(json, p, e).message.content[index], since + [e], index)
  {
    CallSnoc(json, p.message.content[index], since, e, index);
  }

  lemma EventKeepsDetails(json: Json, p: Progress, events: seq<ProxyEvent>, e: ProxyEvent, index: nat)
    requires DetailsFollow(json, p.message.content, events, index) && ProcessEvent(json, p, e).failure.None?
    ensures DetailsFollow(json, ProcessEvent(json, p, e).message.content, events + [e], index)
  {
    if StartsBlock(e, index) {
      StartKeepsDetails(json, p, events, e, index);
    } else {
      SinceAfterStart(events, e, index);
      OthersExtendBlock(json, p, e, index);
      var since := SinceStart(events, index);
      if since != [] && since[0].ToolCallStart? {
        OthersKeepCall(json, p, since, e, index);
      } else if since != [] {
        OthersKeepSignature(json, p, since, e, index);
      }
    }
  }

  /** Signatures and tool calls too are what the events since the latest start of their block make them. */
  lemma {:induction false} DetailsAreTheirEvents(json: Json, events: seq<ProxyEvent>, index: nat)
    ensures DetailsFollow(json, ProcessEvents(json, INITIAL, events).message.content, Handled(json, events), index)
  {
    if events != [] {
      var before := ProcessEvents(json, INITIAL, Lead(events));
      DetailsAreTheirEvents(json, Lead(events), index);
      BlocksAreTheirDeltas(json, Lead(events), index);
      if before.failure.None? {
        if ProcessEvents(json, INITIAL, events).failure.None? {
          EventKeepsDetails(json, before, Lead(events), Last(events), index);
          assert Lead(events) + [Last(events)] == events;
        } else {
          FailureChangesNoBlock(json, before, Last(events));
        }
      }
    }
  }

  /** Why the message ended: the reason of its last terminal event. */
  function LastReason(events: seq<ProxyEvent>): Option<string> {
    if events == [] then None
    else if Last(events).Done? || Last(events).Failed? then Some(Last(events).reason)
    else LastReason(Lead(events))
  }

  function LastError(events: seq<ProxyEvent>): Option<string> {
    if events == [] then None
    else if Last(events).Failed? then Some(Last(events).message)
    else LastError(Lead(events))
  }

  lemma {:induction false} EndIsLastTerminal(json: Json, events: seq<ProxyEvent>)
    requires ProcessEvents(json, INITIAL, events).failure.None?
    ensures ProcessEvents(json, INITIAL, events).message.stopReason == LastReason(events)
    ensures ProcessEvents(json, INITIAL, events).message.errorMessage == LastError(events)
  {
    if events != [] {
      EndIsLastTerminal(json, Lead(events));
    }
  }

  /** However the stream was cut into reads. */
  lemma ChunksAreDetails(json: Json, received: seq<Read>, index: nat)
    ensures DetailsFollow(json, ProcessLines(json, INITIAL, LinesReceived(received)).message.content,
                          Handled(json, EventsOf(json, LinesReceived(received))), index)
  {
    LinesAreEvents(json, LinesReceived(received));
    DetailsAreTheirEvents(json, EventsOf(json, LinesReceived(received)), index);
  }
}
