/**
  How the terminal input buffer depends on where its input is cut into chunks.
*/
module PasteChunking {
  import opened EscapeSequences
  import opened PasteProtocol
  import opened Sequences
  import opened Wrappers

  /** One call per chunk. */
  function Feed(st: State, chunks: seq<Text>): Result
    decreases |chunks|
  {
    if chunks == [] then Result(st, [])
    else
      var first := Process(st, chunks[0]);
      Preceded(first.events, Feed(first.state, chunks[1..]))
  }

  ghost predicate NonEmpty(chunks: seq<Text>) {
    forall k :: 0 <= k < |chunks| ==> chunks[k] != []
  }

  // ----- Outside a paste -----

  lemma {:induction false} EmitConcat(pending: Option<nat>, a: seq<Text>, b: seq<Text>)
    ensures var first := EmitAll(pending, a);
            var second := EmitAll(first.pending, b);
            EmitAll(pending, a + b) == Emission(second.pending, first.events + second.events)
    decreases |a|
  {
    if a == [] {
      assert a + b == b;
    } else {
      var (next, event) := EmitDataSequence(pending, a[0]);
      EmitConcat(next, a[1..], b);
      assert (a + b)[1..] == a[1..] + b && (a + b)[0] == a[0];
      var first := EmitAll(next, a[1..]);
      Associative([event], first.events, EmitAll(first.pending, b).events);
    }
  }

  /** Different sequences never give the same events. */
  lemma EmitInjective(pending: Option<nat>, a: seq<Text>, b: seq<Text>)
    requires EmitAll(pending, a).events == EmitAll(pending, b).events
    ensures a == b
  {
    EmissionIsFaithful(pending, a);
    EmissionIsFaithful(pending, b);
    forall k | 0 <= k < |a| ensures a[k] == b[k] {
      assert Raw(EmitAll(pending, a).events[k]) == Raw(EmitAll(pending, b).events[k]);
    }
  }

  /** A call without a paste marker in sight. */
  function Plain(pending: Option<nat>, buffer: Text): Result {
    var cut := Extract(buffer);
    var emission := EmitAll(pending, cut.sequences);
    Result(State(cut.remainder, false, [], emission.pending), emission.events)
  }

  lemma ProcessIsPlain(st: State, str: Text)
    requires !st.pasting && st.buffer + str != [] && !Occurs(st.buffer + str, PASTE_START)
    ensures Process(st, str) == Plain(st.pending, st.buffer + str)
  {
    assert IndexOf(st.buffer + str, PASTE_START) < 0;
  }

  lemma PlainInTwo(pending: Option<nat>, a: Text, b: Text)
    ensures var first := Plain(pending, a);
            Preceded(first.events, Plain(first.state.pending, first.state.buffer + b)) == Plain(pending, a + b)
            <==> !LookaheadMissed(a, b)
  {
    ChunkInvariance(a, b);
    var one, two := Extract(a + b), InTwo(a, b);
    var rest := Extract(Extract(a).remainder + b);
    EmitConcat(pending, Extract(a).sequences, rest.sequences);
    if EmitAll(pending, one.sequences).events == EmitAll(pending, two.sequences).events {
      EmitInjective(pending, one.sequences, two.sequences);
    }
  }

  lemma OccursInPart(a: Text, b: Text, pattern: Text)
    requires Occurs(a, pattern)
    ensures Occurs(a + b, pattern)
  {
    var k :| OccursAt(a, pattern, k);
    assert (a + b)[k..k + |pattern|] == a[k..k + |pattern|];
    assert OccursAt(a + b, pattern, k);
  }

  /** No start marker in the whole, so none before the cut and none in what is held after it. */
  lemma NoStartInTwo(a: Text, y: Text)
    requires !Occurs(a + y, PASTE_START)
    ensures !Occurs(a, PASTE_START) && !Occurs(Extract(a).remainder + y, PASTE_START)
  {
    if Occurs(a, PASTE_START) {
      OccursInPart(a, y, PASTE_START);
    }
    var held := Extract(a).remainder;
    RemainderIsSuffix(a);
    assert (a + y)[|a| - |held|..] == held + y;
    if Occurs(held + y, PASTE_START) {
      OccursInSuffix(a + y, |a| - |held|, PASTE_START);
    }
  }

  /**
    While no paste starts, cutting x + y after x shows in no event and in no state, except
    exactly when the lookahead after ESC ESC falls on the cut.
  */
  lemma PlainCut(st: State, x: Text, y: Text)
    requires Inv(st) && !st.pasting && x != [] && y != []
    requires !Occurs(st.buffer + x + y, PASTE_START)
    ensures Feed(st, [x, y]) == Process(st, x + y) <==> !LookaheadMissed(st.buffer + x, y)
  {
    var a := st.buffer + x;
    assert st.buffer + (x + y) == a + y;
    NoStartInTwo(a, y);
    var first := Plain(st.pending, a);
    assert Process(st, x) == first by { ProcessIsPlain(st, x); }
    assert Process(first.state, y) == Plain(first.state.pending, first.state.buffer + y) by {
      ProcessIsPlain(first.state, y);
    }
    assert Process(st, x + y) == Plain(st.pending, a + y) by { ProcessIsPlain(st, x + y); }
    PlainInTwo(st.pending, a, y);
    FeedTwo(st, x, y);
  }

  lemma FeedTwo(st: State, x: Text, y: Text)
    ensures var first := Process(st, x);
            Feed(st, [x, y]) == Preceded(first.events, Process(first.state, y))
  {
    var first := Process(st, x);
    assert [x, y][1..] == [y] && [y][1..] == [];
    var second := Process(first.state, y);
    assert Feed(second.state, []).events == [];
    assert second.events + [] == second.events;
    assert Feed(first.state, [y]) == second;
  }

  // ----- Inside a paste -----

  /** A whole paste, what follows it, and the state after the first part of it was received. */
  function Whole(body: Text, rest: Text): Text {
    PASTE_START + body + PASTE_END + rest
  }

  function Received(pending: Option<nat>, part: Text): State {
    if |part| < |PASTE_START| then State(part, false, [], pending)
    else State([], true, part[|PASTE_START|..], None)
  }

  /** The end marker is not found before it is meant to be. */
  ghost predicate FirstEnd(body: Text) {
    forall k :: 0 <= k < |body| ==> !OccursAt(body + PASTE_END, PASTE_END, k)
  }

  /** A proper prefix of the start marker is an incomplete escape sequence. */
  lemma StartStaysHeld(pending: Option<nat>, part: Text)
    requires 0 < |part| < |PASTE_START| && part == PASTE_START[..|part|]
    ensures Plain(pending, part) == Result(Received(pending, part), [])
    ensures !Occurs(part, PASTE_START)
  {
    forall k | 0 < k <= |part| ensures IsCompleteSequence(part[..k]) != Complete {
      assert part[..k] == PASTE_START[..k];
      assert k == 1 || PASTE_START[..k][..2] == [ESC, '[' as int];
    }
    assert Pending(part);
    PendingYieldsNothing(part);
  }

  /** The end marker in a prefix of what follows the start marker. */
  lemma EndInPart(body: Text, rest: Text, part: Text)
    requires FirstEnd(body)
    requires part <= body + PASTE_END + rest
    ensures IndexOf(part, PASTE_END) == if |part| < |body| + |PASTE_END| then -1 else |body|
  {
    var text := body + PASTE_END + rest;
    forall k | 0 <= k < |body| && OccursAt(part, PASTE_END, k) ensures false {
      assert part[k..k + |PASTE_END|] == text[k..k + |PASTE_END|];
      assert (body + PASTE_END)[k..k + |PASTE_END|] == text[k..k + |PASTE_END|];
      assert OccursAt(body + PASTE_END, PASTE_END, k);
    }
    if |part| >= |body| + |PASTE_END| {
      assert part[|body|..|body| + |PASTE_END|] == text[|body|..|body| + |PASTE_END|] == PASTE_END;
      assert OccursAt(part, PASTE_END, |body|);
    }
  }

  lemma StartAtFront(part: Text)
    requires PASTE_START <= part
    ensures IndexOf(part, PASTE_START) == 0
    ensures Extract(part[..0]) == Extraction([], [])
  {
    assert part[0..|PASTE_START|] == PASTE_START;
    assert OccursAt(part, PASTE_START, 0);
  }

  /** One more chunk, when it does not reach the end of the end marker. */
  lemma ReceiveMore(pending: Option<nat>, body: Text, rest: Text, part: Text, chunk: Text)
    requires FirstEnd(body) && chunk != [] && part + chunk <= Whole(body, rest)
    requires |part + chunk| < |PASTE_START| + |body| + |PASTE_END|
    ensures Process(Received(pending, part), chunk) == Result(Received(pending, part + chunk), [])
  {
    var st, all := Received(pending, part), part + chunk;
    if |all| < |PASTE_START| {
      assert all == PASTE_START[..|all|];
      StartStaysHeld(pending, all);
      ProcessIsPlain(st, chunk);
    } else {
      var content := all[|PASTE_START|..];
      assert content <= body + PASTE_END + rest;
      EndInPart(body, rest, content);
      ReachesInPaste(pending, part, chunk);
    }
  }

  /** A chunk that completes the start marker, or comes after it, ends up in the paste. */
  lemma ReachesInPaste(pending: Option<nat>, part: Text, chunk: Text)
    requires chunk != [] && PASTE_START <= part + chunk
    ensures Process(Received(pending, part), chunk) == InPaste((part + chunk)[|PASTE_START|..], None)
  {
    var st, all := Received(pending, part), part + chunk;
    if |part| < |PASTE_START| {
      StartAtFront(all);
      var inside := InPaste(all[|PASTE_START|..], None);
      assert [] + inside.events == inside.events;
    } else {
      assert [] + chunk == chunk;
      assert part[|PASTE_START|..] + chunk == all[|PASTE_START|..];
    }
  }

  /** The chunk that completes the end marker. */
  lemma ReceiveEnd(pending: Option<nat>, body: Text, rest: Text, part: Text, chunk: Text) returns (after: Text)
    requires FirstEnd(body) && chunk != [] && part + chunk <= Whole(body, rest)
    requires |part| < |PASTE_START| + |body| + |PASTE_END| <= |part + chunk|
    ensures part + chunk == PASTE_START + body + PASTE_END + after
    ensures Process(Received(pending, part), chunk)
            == Preceded([Paste(body)], if after == [] then Result(IDLE, []) else Process(IDLE, after))
  {
    var all := part + chunk;
    var content := all[|PASTE_START|..];
    after := content[|body| + |PASTE_END|..];
    assert all == PASTE_START + content;
    assert content <= body + PASTE_END + rest;
    EndInPart(body, rest, content);
    assert content[..|body|] == body;
    assert content == body + PASTE_END + after;
    ReachesInPaste(pending, part, chunk);
  }

  lemma PrecededTwice(a: seq<Event>, b: seq<Event>, r: Result)
    ensures Preceded(a, Preceded(b, r)) == Preceded(a + b, r)
    ensures Preceded([], r) == r
  {
    assert a + (b + r.events) == (a + b) + r.events;
    assert [] + r.events == r.events;
  }

  lemma {:induction false} FeedPaste(
      pending: Option<nat>, body: Text, rest: Text, part: Text, chunks: seq<Text>) returns (tail: seq<Text>)
    requires FirstEnd(body) && NonEmpty(chunks) && part + Flatten(chunks) == Whole(body, rest)
    requires |part| < |PASTE_START| + |body| + |PASTE_END|
    ensures NonEmpty(tail) && Flatten(tail) == rest
    ensures Feed(Received(pending, part), chunks) == Preceded([Paste(body)], Feed(IDLE, tail))
    decreases |chunks|
  {
    assert chunks == [] ==> part == Whole(body, rest);
    var chunk, later := chunks[0], chunks[1..];
    Associative(part, chunk, Flatten(later));
    if |part + chunk| < |PASTE_START| + |body| + |PASTE_END| {
      ReceiveMore(pending, body, rest, part, chunk);
      tail := FeedPaste(pending, body, rest, part + chunk, later);
      PrecededTwice([], [], Feed(Received(pending, part + chunk), later));
    } else {
      tail := PasteEnds(pending, body, rest, part, chunk, later);
    }
  }

  lemma PasteEnds(pending: Option<nat>, body: Text, rest: Text, part: Text, chunk: Text, later: seq<Text>)
    returns (tail: seq<Text>)
    requires FirstEnd(body) && chunk != [] && NonEmpty(later)
    requires (part + chunk) + Flatten(later) == Whole(body, rest)
    requires |part| < |PASTE_START| + |body| + |PASTE_END| <= |part + chunk|
    ensures NonEmpty(tail) && Flatten(tail) == rest
    ensures var first := Process(Received(pending, part), chunk);
            Preceded(first.events, Feed(first.state, later)) == Preceded([Paste(body)], Feed(IDLE, tail))
  {
    var after := ReceiveEnd(pending, body, rest, part, chunk);
    RestOf(PASTE_START + body + PASTE_END, after, Flatten(later), rest);
    if after == [] {
      tail := later;
    } else {
      tail := [after] + later;
      FeedNext(IDLE, after, later);
      PrecededTwice([Paste(body)], Process(IDLE, after).events, Feed(Process(IDLE, after).state, later));
    }
  }

  lemma FeedNext(st: State, chunk: Text, later: seq<Text>)
    ensures Feed(st, [chunk] + later) == Preceded(Process(st, chunk).events, Feed(Process(st, chunk).state, later))
    ensures Flatten([chunk] + later) == chunk + Flatten(later)
  {
    assert ([chunk] + later)[1..] == later;
  }

  lemma RestOf(front: Text, after: Text, later: Text, rest: Text)
    requires (front + after) + later == front + rest
    ensures after + later == rest
  {
    assert (front + (after + later))[|front|..] == (front + rest)[|front|..];
  }

  /**
    However a paste and the input after it are cut into non-empty chunks: one paste event
    carries exactly the text before the first end marker, nothing else comes of it, and
    what follows is handled as its own non-empty chunks from the idle state.
  */
  lemma PasteUnderEveryCut(pending: Option<nat>, body: Text, rest: Text, chunks: seq<Text>) returns (tail: seq<Text>)
    requires FirstEnd(body) && NonEmpty(chunks) && Flatten(chunks) == Whole(body, rest)
    ensures NonEmpty(tail) && Flatten(tail) == rest
    ensures Feed(IDLE.(pending := pending), chunks) == Preceded([Paste(body)], Feed(IDLE, tail))
  {
    assert [] + Flatten(chunks) == Flatten(chunks);
    tail := FeedPaste(pending, body, rest, [], chunks);
  }

  /**
    A start marker is not always found, though: after ESC O the next unit belongs to that
    sequence, so a marker whose ESC came in an earlier chunk is typed as text instead.
  */
  lemma StartMarkerMayBeSwallowed()
    ensures Process(IDLE, [ESC, 'O' as int] + PASTE_START).state.pasting
    ensures !Feed(IDLE, [[ESC, 'O' as int, ESC], PASTE_START[1..]]).state.pasting
  {
    var key: Text := [ESC, 'O' as int];
    var all := key + PASTE_START;
    assert OccursAt(all, PASTE_START, 2);
    assert !OccursAt(all, PASTE_START, 0) && !OccursAt(all, PASTE_START, 1) by {
      assert all[0..6][1] == 'O' as int && all[1..7][0] == 'O' as int;
    }
    assert IndexOf(all, PASTE_START) == 2;
    assert all[8..] == [];
    assert [] + all == all;
    SwallowedFirst();
  }

  lemma SwallowedFirst()
    ensures !Feed(IDLE, [[ESC, 'O' as int, ESC], PASTE_START[1..]]).state.pasting
  {
    var first: Text := [ESC, 'O' as int, ESC];
    var second := PASTE_START[1..];
    assert IsCompleteSequence(first[..1]) != Complete && IsCompleteSequence(first[..2]) != Complete;
    assert first[..3] == first && first[3..] == [];
    assert SeqEnd(first, 1) == SeqEnd(first, 2) == SeqEnd(first, 3) == 3;
    assert Extract(first).remainder == [];
    assert IDLE.buffer + first == first;
    ProcessIsPlain(IDLE, first);
    var st := Process(IDLE, first).state;
    assert [] + second == second;
    ProcessIsPlain(st, second);
    FeedTwo(IDLE, first, second);
  }

  // ----- Duplicated Kitty keys -----

  /**
    A unit is suppressed exactly when the sequence right before it was an unmodified Kitty
    key of that very code point (`pending` stands for what came before the list).
  */
  lemma {:induction false} SuppressedExactly(pending: Option<nat>, sequences: seq<Text>, k: nat)
    requires k < |sequences|
    ensures |EmitAll(pending, sequences).events| == |sequences|
    ensures EmitAll(pending, sequences).events[k].Suppressed? <==>
              |sequences[k]| == 1
              && (if k == 0 then pending else KittyPrintable(sequences[k - 1])) == Some(sequences[k][0])
    decreases k
  {
    EmissionIsFaithful(pending, sequences);
    if k > 0 {
      var (next, event) := EmitDataSequence(pending, sequences[0]);
      SuppressedExactly(next, sequences[1..], k - 1);
      if event.Suppressed? {
        assert |sequences[0]| == 1;
        assert KittyPrintable(sequences[0]) == None;
      }
    }
  }
}
