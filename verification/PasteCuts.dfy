/**
  Exactly when the place of a cut in the terminal input shows: for every state and every
  two chunks, handling them one after the other and handling them as one chunk differ if
  and only if `CutShows` says so.
*/
module PasteCuts {
  import opened EscapeSequences
  import opened PasteChunking
  import opened PasteProtocol
  import opened Sequences
  import opened Wrappers

  function LastSequence(text: Text): Text {
    var sequences := Extract(text).sequences;
    if sequences == [] then [] else sequences[|sequences| - 1]
  }

  function HeldFrom(text: Text): (q: nat)
    ensures q <= |text|
  {
    RemainderIsSuffix(text);
    |text| - |Extract(text).remainder|
  }

  /**
    The start marker stands at k, not wholly before the cut. The cut shows when a sequence
    emitted for the first chunk has already taken the marker's ESC, when an ESC right
    before the marker was let go because the marker had begun to show, or when the
    lookahead after ESC ESC falls on the cut.
  */
  predicate CutShowsAtStart(a: Text, y: Text, k: nat)
    requires k <= |a| + |y|
  {
    || k < HeldFrom(a)
    || (k == HeldFrom(a) && LastSequence(a) == [ESC])
    || (k >= |a| && LookaheadMissed(a, y[..k - |a|]))
  }

  /** Outside a paste, with everything held so far in a. */
  predicate CutShowsOutside(a: Text, y: Text)
    decreases |a|, 1
  {
    var k := IndexOf(a + y, PASTE_START);
    if k < 0 then LookaheadMissed(a, y)
    else if k + |PASTE_START| > |a| then CutShowsAtStart(a, y, k)
    else CutShowsInPaste(a[k + |PASTE_START|..], y)
  }

  /** Inside a paste: only what follows the end marker matters. */
  predicate CutShowsInPaste(content: Text, y: Text)
    decreases |content|, 0
  {
    var end := IndexOf(content, PASTE_END);
    end >= 0 && content[end + |PASTE_END|..] != [] && CutShowsOutside(content[end + |PASTE_END|..], y)
  }

  predicate CutShows(st: State, x: Text, y: Text) {
    if st.pasting then CutShowsInPaste(st.pasteBuffer + x, y) else CutShowsOutside(st.buffer + x, y)
  }

  // ----- Searching across the cut -----

  lemma FoundAt(s: Text, pattern: Text, k: nat)
    requires OccursAt(s, pattern, k) && forall j :: 0 <= j < k ==> !OccursAt(s, pattern, j)
    ensures IndexOf(s, pattern) == k
  {
  }

  lemma SameOccurrence(a: Text, y: Text, pattern: Text, j: int)
    requires j + |pattern| <= |a|
    ensures OccursAt(a + y, pattern, j) == OccursAt(a, pattern, j)
  {
    if 0 <= j {
      assert (a + y)[j..j + |pattern|] == a[j..j + |pattern|];
    }
  }

  /** An occurrence wholly before the cut is found with and without what follows. */
  lemma FoundBeforeCut(a: Text, y: Text, pattern: Text)
    requires IndexOf(a, pattern) >= 0
             || (IndexOf(a + y, pattern) >= 0 && IndexOf(a + y, pattern) + |pattern| <= |a|)
    ensures IndexOf(a + y, pattern) == IndexOf(a, pattern) >= 0
  {
    var k := if IndexOf(a, pattern) >= 0 then IndexOf(a, pattern) else IndexOf(a + y, pattern);
    SameOccurrence(a, y, pattern, k);
    forall j | 0 <= j < k ensures OccursAt(a + y, pattern, j) == OccursAt(a, pattern, j) {
      SameOccurrence(a, y, pattern, j);
    }
    FoundAt(a, pattern, k);
    FoundAt(a + y, pattern, k);
  }

  /** Searching in what is held after the cut: the same place, counted from where the held text begins. */
  lemma FoundInHeld(whole: Text, q: nat, pattern: Text, k: nat)
    requires q <= k && q <= |whole| && IndexOf(whole, pattern) == k
    ensures IndexOf(whole[q..], pattern) == k - q
  {
    var held := whole[q..];
    assert held[k - q..k - q + |pattern|] == whole[k..k + |pattern|];
    forall j | 0 <= j < k - q ensures !OccursAt(held, pattern, j) {
      if j + |pattern| <= |held| {
        assert held[j..j + |pattern|] == whole[q + j..q + j + |pattern|];
        assert !OccursAt(whole, pattern, q + j);
      }
    }
    FoundAt(held, pattern, k - q);
  }

  // ----- Results compared -----

  lemma PrecededInjective(events: seq<Event>, a: Result, b: Result)
    ensures Preceded(events, a) == Preceded(events, b) <==> a == b
  {
    assert (events + a.events)[|events|..] == a.events;
    assert (events + b.events)[|events|..] == b.events;
  }

  lemma PrecededDiffers(a: seq<Event>, b: seq<Event>, r: Result)
    ensures Preceded(a, r) == Preceded(b, r) <==> a == b
  {
    if a + r.events == b + r.events {
      assert |a| == |b|;
      assert (a + r.events)[..|a|] == a && (b + r.events)[..|b|] == b;
    }
  }

  /** Two calls, the second one given the state that the first one left. */
  function Then(r: Result, y: Text): Result {
    Preceded(r.events, Process(r.state, y))
  }

  lemma ThenPreceded(events: seq<Event>, r: Result, y: Text)
    ensures Then(Preceded(events, r), y) == Preceded(events, Then(r, y))
  {
    Associative(events, r.events, Process(r.state, y).events);
  }

  lemma NoEmissionIsDropped(pending: Option<nat>, sequences: seq<Text>)
    ensures forall k :: 0 <= k < |EmitAll(pending, sequences).events| ==>
              EmitAll(pending, sequences).events[k].Data? || EmitAll(pending, sequences).events[k].Suppressed?
    decreases |sequences|
  {
    if sequences != [] {
      var (next, _) := EmitDataSequence(pending, sequences[0]);
      NoEmissionIsDropped(next, sequences[1..]);
    }
  }

  /** What is emitted before a paste tells the sequences and the dropped rest apart. */
  lemma BeforePasteInjective(pending: Option<nat>, a: seq<Text>, ra: Text, b: seq<Text>, rb: Text)
    ensures EmitAll(pending, a).events + DroppedTail(ra) == EmitAll(pending, b).events + DroppedTail(rb)
            <==> a == b && ra == rb
  {
    var ea, eb := EmitAll(pending, a).events, EmitAll(pending, b).events;
    if ea + DroppedTail(ra) == eb + DroppedTail(rb) {
      NoEmissionIsDropped(pending, a);
      NoEmissionIsDropped(pending, b);
      TailsAgree(ea, ra, eb, rb);
      EmitInjective(pending, a, b);
    }
  }

  lemma TailsAgree(ea: seq<Event>, ra: Text, eb: seq<Event>, rb: Text)
    requires ea + DroppedTail(ra) == eb + DroppedTail(rb)
    requires forall k :: 0 <= k < |ea| ==> !ea[k].Dropped?
    requires forall k :: 0 <= k < |eb| ==> !eb[k].Dropped?
    ensures ea == eb && ra == rb
  {
    var all := ea + DroppedTail(ra);
    assert all == eb + DroppedTail(rb);
    assert ra != [] ==> all[|all| - 1] == Dropped(ra);
    assert rb != [] ==> all[|all| - 1] == Dropped(rb);
    assert ra == [] && ea != [] ==> all[|all| - 1] == ea[|ea| - 1];
    assert rb == [] && eb != [] ==> all[|all| - 1] == eb[|eb| - 1];
    assert all[..|ea|] == ea && (eb + DroppedTail(rb))[..|eb|] == eb;
  }

  // ----- The text before the marker, cut or not -----

  /** A lone ESC is emitted only when more of a sequence follows. */
  lemma {:induction false} LoneEscHasMore(a: Text)
    requires LastSequence(a) == [ESC]
    ensures |Extract(a).remainder| >= 2 && Opens(Extract(a).remainder[1])
    decreases |a|
  {
    var n := FirstCut(a);
    var tail := a[n..];
    if Extract(tail).sequences == [] {
      assert Extract(a).sequences == [a[..n]];
      assert a[0] == a[..n][0];
    } else {
      assert Extract(a).sequences[|Extract(a).sequences| - 1] == Extract(tail).sequences[|Extract(tail).sequences| - 1];
      LoneEscHasMore(tail);
    }
  }

  lemma PendingPrefix(s: Text, k: nat)
    requires Pending(s) && k <= |s|
    ensures Extract(s[..k]) == Extraction([], s[..k])
  {
    forall j | 0 <= j <= k ensures IsCompleteSequence(s[..k][..j]) != Complete {
      assert s[..k][..j] == s[..j];
    }
    PendingYieldsNothing(s[..k]);
  }

  lemma {:induction false} SeqEndShrinks(a: Text, k: nat, n: nat)
    requires 1 <= n <= |a| + 1 && SeqEnd(a, n) <= k <= |a|
    ensures SeqEnd(a[..k], n) == SeqEnd(a, n)
    decreases |a| - n
  {
    assert a[..k][..n] == a[..n];
    if IsCompleteSequence(a[..n]) != Complete {
      SeqEndShrinks(a, k, n + 1);
    }
  }

  lemma LoneEscCutOff(a: Text)
    requires |a| > 1 && a[0] == ESC && FirstCut(a) > 0 && HeldFrom(a) <= 1
    ensures HeldFrom(a) == 1 && LastSequence(a) == [ESC] && Extract(a[..1]).sequences == []
    ensures Extract(a).sequences != []
  {
    RemainderIsSuffix(a);
    var n := FirstCut(a);
    RemainderIsSuffix(a[n..]);
    assert Extract(a) == Before(a[..n], Extract(a[n..]));
    assert |Extract(a).remainder| <= |a| - n;
    assert n == 1 && a[..1] == [ESC];
    assert Extract(a[1..]).sequences == [] by {
      Conserves(a[1..]);
      NoEmptySequences(a[1..]);
    }
    assert a[..1][..1] == [ESC];
    assert Pending(a[..1]);
    PendingYieldsNothing(a[..1]);
  }

  /** When everything is held, nothing was emitted. */
  lemma NoEmptySequences(a: Text)
    ensures |Extract(a).remainder| == |a| ==> Extract(a).sequences == []
  {
    if a != [] && FirstCut(a) > 0 {
      RemainderIsSuffix(a[FirstCut(a)..]);
    }
  }

  lemma FirstCutShortened(a: Text, k: nat)
    requires k < |a| && a[k] == ESC && 0 < FirstCut(a) <= k && !(k == 1 && a[0] == ESC)
    ensures FirstCut(a[..k]) == FirstCut(a)
  {
    if a[0] == ESC {
      var end := SeqEnd(a, 1);
      if Restarts(a, end) {
        assert a[2] != ESC;
      }
      SeqEndShrinks(a, k, 1);
      assert k >= 2 ==> a[..k][..2] == a[..2];
    }
  }

  /** The held part of a text is the held part of what follows its first sequence. */
  lemma HeldFromTail(a: Text, n: nat)
    requires a != [] && n == FirstCut(a) > 0
    ensures Extract(a) == Before(a[..n], Extract(a[n..])) && n <= HeldFrom(a) == n + HeldFrom(a[n..])
  {
    RemainderIsSuffix(a[n..]);
  }

  lemma ShortenedAtOne(a: Text)
    requires |a| > 1 && a[0] == ESC && FirstCut(a) > 0 && HeldFrom(a) <= 1
    ensures LastSequence(a) == [ESC] && HeldFrom(a) == 1
    ensures Extract(a[..1]) != Extraction(Extract(a).sequences, Extract(a).remainder[..0])
  {
    LoneEscCutOff(a);
  }

  /**
    Cutting a text short inside its held part, where an ESC stands, loses no sequence,
    except a lone ESC right before it.
  */
  lemma {:induction false} ShortenedInHeld(a: Text, k: nat)
    requires HeldFrom(a) <= k < |a| && a[k] == ESC
    ensures Extract(a[..k]) == Extraction(Extract(a).sequences, Extract(a).remainder[..k - HeldFrom(a)])
            <==> !(k == HeldFrom(a) && LastSequence(a) == [ESC])
    decreases |a|
  {
    var n := FirstCut(a);
    if n == 0 {
      RemainderIsPending(a);
      PendingPrefix(a, k);
    } else if k == 1 && a[0] == ESC {
      ShortenedAtOne(a);
    } else {
      HeldFromTail(a, n);
      FirstCutShortened(a, k);
      ShortenedInHeld(a[n..], k - n);
      ShortenStep(a, k, n, a[n..]);
    }
  }

  lemma ShortenStep(a: Text, k: nat, n: nat, tail: Text)
    requires 0 < n <= HeldFrom(a) <= k < |a| && n == FirstCut(a) == FirstCut(a[..k]) && tail == a[n..]
    requires HeldFrom(tail) == HeldFrom(a) - n && !(k == 1 && a[0] == ESC) && a[k] == ESC
    requires Extract(tail[..k - n]) == Extraction(Extract(tail).sequences, Extract(tail).remainder[..k - HeldFrom(a)])
             <==> !(k == HeldFrom(a) && LastSequence(tail) == [ESC])
    ensures Extract(a[..k]) == Extraction(Extract(a).sequences, Extract(a).remainder[..k - HeldFrom(a)])
            <==> !(k == HeldFrom(a) && LastSequence(a) == [ESC])
  {
    var shorter := Extraction(Extract(tail).sequences, Extract(tail).remainder[..k - HeldFrom(a)]);
    assert a[..k][..n] == a[..n] && a[..k][n..] == tail[..k - n];
    BeforeInjective(a[..n], Extract(tail[..k - n]), shorter);
    LastOfTail(a, tail, n);
    assert a[..n][0] == a[0];
  }

  lemma LastOfTail(a: Text, tail: Text, n: nat)
    requires 0 < n <= |a| && tail == a[n..] && Extract(a) == Before(a[..n], Extract(tail))
    ensures LastSequence(a) == if Extract(tail).sequences == [] then a[..n] else LastSequence(tail)
  {
    var all := Extract(a).sequences;
    assert all == [a[..n]] + Extract(tail).sequences;
  }

  // ----- The marker straddles the cut, or comes after it -----

  /** What is emitted and held before the marker when the cut is made. */
  function BeforeStartInTwo(a: Text, y: Text, k: nat): Extraction
    requires HeldFrom(a) <= k <= |a| + |y|
  {
    RemainderIsSuffix(a);
    var rest := Extract((Extract(a).remainder + y)[..k - HeldFrom(a)]);
    Extraction(Extract(a).sequences + rest.sequences, rest.remainder)
  }

  lemma StartAfterCut(a: Text, y: Text, k: nat)
    requires |a| <= k <= |a| + |y|
    ensures Extract((a + y)[..k]) == BeforeStartInTwo(a, y, k) <==> !CutShowsAtStart(a, y, k)
  {
    RemainderIsSuffix(a);
    var more := y[..k - |a|];
    assert (a + y)[..k] == a + more;
    assert (Extract(a).remainder + y)[..k - HeldFrom(a)] == Extract(a).remainder + more;
    ChunkInvariance(a, more);
    if LastSequence(a) == [ESC] {
      LoneEscHasMore(a);
    }
  }

  lemma StartBeforeCut(a: Text, y: Text, k: nat)
    requires HeldFrom(a) <= k < |a| && a[k] == ESC
    ensures Extract((a + y)[..k]) == BeforeStartInTwo(a, y, k) <==> !CutShowsAtStart(a, y, k)
  {
    var held, q := Extract(a).remainder, HeldFrom(a);
    RemainderIsSuffix(a);
    RemainderIsPending(a);
    assert (a + y)[..k] == a[..k] && (held + y)[..k - q] == held[..k - q];
    PendingPrefix(held, k - q);
    ShortenedInHeld(a, k);
    assert Extract(a).sequences + [] == Extract(a).sequences;
  }

  /** The marker starts in the held text or later: what is emitted before it decides. */
  lemma StartInHeld(a: Text, y: Text, k: nat)
    requires IndexOf(a + y, PASTE_START) == k && k >= HeldFrom(a)
    ensures Extract((a + y)[..k]) == BeforeStartInTwo(a, y, k) <==> !CutShowsAtStart(a, y, k)
  {
    if k >= |a| {
      StartAfterCut(a, y, k);
    } else {
      assert (a + y)[k..k + |PASTE_START|][0] == a[k];
      StartBeforeCut(a, y, k);
    }
  }

  // ----- The events of the two ways of handling the input -----

  lemma NoStart(text: Text)
    ensures IndexOf(text, PASTE_START) < 0 <==> !Occurs(text, PASTE_START)
  {
    if IndexOf(text, PASTE_START) >= 0 {
      assert OccursAt(text, PASTE_START, IndexOf(text, PASTE_START));
    }
  }

  /** A call that meets the marker at k. */
  function AtMarker(pending: Option<nat>, text: Text, k: nat): Result
    requires k + |PASTE_START| <= |text|
  {
    Preceded(BeforePaste(pending, text[..k]), InPaste(text[k + |PASTE_START|..], None))
  }

  lemma ProcessAtMarker(st: State, str: Text, k: nat)
    requires !st.pasting && IndexOf(st.buffer + str, PASTE_START) == k
    ensures k + |PASTE_START| <= |st.buffer + str| && Process(st, str) == AtMarker(st.pending, st.buffer + str, k)
  {
  }

  /** A call on the text from q on sees the same paste as one on the whole. */
  lemma SamePasteFrom(pending: Option<nat>, whole: Text, q: nat, k: nat, text: Text)
    requires q <= k && k + |PASTE_START| <= |whole| && text == whole[q..]
    ensures AtMarker(pending, text, k - q)
            == Preceded(BeforePaste(pending, text[..k - q]), InPaste(whole[k + |PASTE_START|..], None))
  {
    var i := k - q + |PASTE_START|;
    assert text[i..] == whole[q + i..];
  }

  /** The second call meets the marker that many units into what is held. */
  lemma MarkerInHeld(whole: Text, q: nat, k: nat, first: State, y: Text, text: Text)
    requires IndexOf(whole, PASTE_START) == k && q <= k
    requires !first.pasting && text == first.buffer + y && text == whole[q..]
    ensures k - q <= |text| && k + |PASTE_START| <= |whole|
    ensures Process(first, y) == Preceded(BeforePaste(first.pending, text[..k - q]),
                                          InPaste(whole[k + |PASTE_START|..], None))
  {
    FoundInHeld(whole, q, PASTE_START, k);
    ProcessAtMarker(first, y, k - q);
    SamePasteFrom(first.pending, whole, q, k, text);
  }

  /** Two calls that meet the marker in the held text, told by what comes out before the paste. */
  lemma TwoCallsAtMarker(pending: Option<nat>, a: Text, y: Text, k: nat)
    requires IndexOf(a + y, PASTE_START) == k && k >= HeldFrom(a)
    ensures k + |PASTE_START| <= |a + y|
    ensures var two := BeforeStartInTwo(a, y, k);
            Then(Plain(pending, a), y)
            == Preceded(EmitAll(pending, two.sequences).events + DroppedTail(two.remainder),
                        InPaste((a + y)[k + |PASTE_START|..], None))
  {
    var first := Plain(pending, a);
    var q, text := HeldFrom(a), first.state.buffer + y;
    RemainderIsSuffix(a);
    assert (a + y)[q..] == text;
    MarkerInHeld(a + y, q, k, first.state, y, text);
    var before := text[..k - q];
    PrecededTwice(first.events, BeforePaste(first.state.pending, before), InPaste((a + y)[k + |PASTE_START|..], None));
    JoinedBefore(pending, Extract(a).sequences, Extract(before));
  }

  /** The marker starts in the held text or later: the paste is the same, so the text before it decides. */
  lemma SamePaste(pending: Option<nat>, a: Text, y: Text, k: nat)
    requires IndexOf(a + y, PASTE_START) == k && k + |PASTE_START| > |a| && k >= HeldFrom(a)
    ensures k + |PASTE_START| <= |a + y|
    ensures Then(Plain(pending, a), y) == AtMarker(pending, a + y, k) <==> !CutShowsAtStart(a, y, k)
  {
    var two, one := BeforeStartInTwo(a, y, k), Extract((a + y)[..k]);
    TwoCallsAtMarker(pending, a, y, k);
    PrecededDiffers(EmitAll(pending, two.sequences).events + DroppedTail(two.remainder),
                    BeforePaste(pending, (a + y)[..k]), InPaste((a + y)[k + |PASTE_START|..], None));
    BeforePasteInjective(pending, two.sequences, two.remainder, one.sequences, one.remainder);
    StartInHeld(a, y, k);
  }

  lemma JoinedBefore(pending: Option<nat>, sequences: seq<Text>, rest: Extraction)
    ensures var first := EmitAll(pending, sequences);
            first.events + (EmitAll(first.pending, rest.sequences).events + DroppedTail(rest.remainder))
            == EmitAll(pending, sequences + rest.sequences).events + DroppedTail(rest.remainder)
  {
    var first := EmitAll(pending, sequences);
    EmitConcat(pending, sequences, rest.sequences);
    Associative(first.events, EmitAll(first.pending, rest.sequences).events, DroppedTail(rest.remainder));
  }

  // ----- The marker's ESC was taken by an emitted sequence -----

  lemma {:induction false} RawLength(events: seq<Event>, n: nat)
    requires n <= |events|
    ensures |RawAll(events[..n])| <= |RawAll(events)|
  {
    assert events[..n] + events[n..] == events;
    RawConcat(events[..n], events[n..]);
  }

  /** In the joint result, what comes before the first paste or dropped text is emitted for the text before the marker. */
  lemma EmittedFirst(pending: Option<nat>, text: Text, inside: Result, n: nat)
    requires inside.events == [] || inside.events[0].Paste?
    requires var all := BeforePaste(pending, text) + inside.events;
             n <= |all| && forall k :: 0 <= k < n ==> all[k].Data? || all[k].Suppressed?
    ensures |RawAll((BeforePaste(pending, text) + inside.events)[..n])| <= |text|
  {
    var cut := Extract(text);
    var emitted := EmitAll(pending, cut.sequences).events;
    var all := BeforePaste(pending, text) + inside.events;
    assert all == emitted + (DroppedTail(cut.remainder) + inside.events);
    var rest := DroppedTail(cut.remainder) + inside.events;
    assert rest != [] ==> rest[0].Dropped? || rest[0].Paste?;
    assert rest != [] ==> all[|emitted|] == rest[0];
    assert n <= |emitted|;
    assert all[..n] == emitted[..n];
    RawLength(emitted, n);
    EmissionIsFaithful(pending, cut.sequences);
    Conserves(text);
  }

  lemma InPasteStarts(content: Text)
    ensures InPaste(content, None).events == [] || InPaste(content, None).events[0].Paste?
  {
  }

  lemma SwallowedMarker(pending: Option<nat>, a: Text, y: Text, k: nat)
    requires IndexOf(a + y, PASTE_START) == k && k < HeldFrom(a)
    ensures Then(Plain(pending, a), y) != AtMarker(pending, a + y, k)
  {
    var emitted := EmitAll(pending, Extract(a).sequences).events;
    var one, two := AtMarker(pending, a + y, k), Then(Plain(pending, a), y);
    if one == two {
      NoEmissionIsDropped(pending, Extract(a).sequences);
      EmissionIsFaithful(pending, Extract(a).sequences);
      Conserves(a);
      assert two.events[..|emitted|] == emitted;
      InPasteStarts((a + y)[k + |PASTE_START|..]);
      EmittedFirst(pending, (a + y)[..k], InPaste((a + y)[k + |PASTE_START|..], None), |emitted|);
    }
  }

  // ----- The theorem -----

  /** Inside a paste. */
  lemma {:induction false} PasteCutExactly(content: Text, y: Text)
    requires y != []
    ensures Then(InPaste(content, None), y) == InPaste(content + y, None) <==> !CutShowsInPaste(content, y)
    decreases |content|, 0
  {
    var end := IndexOf(content, PASTE_END);
    if end < 0 {
      assert [] + y == y;
      PrecededTwice([], [], InPaste(content + y, None));
    } else {
      FoundBeforeCut(content, y, PASTE_END);
      var rest := content[end + |PASTE_END|..];
      assert (content + y)[end + |PASTE_END|..] == rest + y && (content + y)[..end] == content[..end];
      AfterPasteExactly(content[..end], rest, y);
    }
  }

  lemma {:induction false} AfterPasteExactly(body: Text, rest: Text, y: Text)
    requires y != []
    ensures var first := if rest == [] then Result(IDLE, [Paste(body)]) else Preceded([Paste(body)], Process(IDLE, rest));
            Then(first, y) == Preceded([Paste(body)], Process(IDLE, rest + y))
            <==> rest == [] || !CutShowsOutside(rest, y)
    decreases |rest|, 2
  {
    if rest == [] {
      assert [] + y == y;
    } else {
      OutsideExactly(None, rest, y);
      assert [] + rest == rest && [] + (rest + y) == rest + y;
      ThenPreceded([Paste(body)], Process(IDLE, rest), y);
      PrecededInjective([Paste(body)], Then(Process(IDLE, rest), y), Process(IDLE, rest + y));
    }
  }

  /** No marker in sight: only the lookahead counts. */
  lemma NoMarkerExactly(pending: Option<nat>, a: Text, y: Text)
    requires a != [] && y != [] && IndexOf(a + y, PASTE_START) < 0
    ensures var st := State([], false, [], pending);
            Then(Process(st, a), y) == Process(st, a + y) <==> !LookaheadMissed(a, y)
  {
    var st := State([], false, [], pending);
    assert [] + a == a && [] + (a + y) == a + y;
    NoStart(a + y);
    NoStartInTwo(a, y);
    ProcessIsPlain(st, a);
    ProcessIsPlain(st, a + y);
    ProcessIsPlain(Plain(pending, a).state, y);
    PlainInTwo(pending, a, y);
  }

  /** The marker ends after the cut. */
  lemma MarkerAfterExactly(pending: Option<nat>, a: Text, y: Text, k: nat)
    requires a != [] && y != [] && IndexOf(a + y, PASTE_START) == k && k + |PASTE_START| > |a|
    ensures var st := State([], false, [], pending);
            Then(Process(st, a), y) == Process(st, a + y) <==> !CutShowsAtStart(a, y, k)
  {
    var st := State([], false, [], pending);
    assert [] + a == a && [] + (a + y) == a + y;
    NoStartBefore(a, y, k);
    ProcessIsPlain(st, a);
    ProcessAtMarker(st, a + y, k);
    if k < HeldFrom(a) {
      SwallowedMarker(pending, a, y, k);
    } else {
      SamePaste(pending, a, y, k);
    }
  }

  lemma ThenAtMarker(before: seq<Event>, content: Text, longer: Text, y: Text)
    requires longer == content + y
    requires Then(InPaste(content, None), y) == InPaste(longer, None) <==> !CutShowsInPaste(content, y)
    ensures Then(Preceded(before, InPaste(content, None)), y) == Preceded(before, InPaste(longer, None))
            <==> !CutShowsInPaste(content, y)
  {
    ThenPreceded(before, InPaste(content, None), y);
    PrecededInjective(before, Then(InPaste(content, None), y), InPaste(longer, None));
  }

  lemma CutWithin(a: Text, y: Text, i: nat, j: nat)
    requires i <= j <= |a|
    ensures (a + y)[..i] == a[..i] && (a + y)[j..] == a[j..] + y
  {
  }

  lemma AtMarkerExactly(pending: Option<nat>, a: Text, y: Text, k: nat, content: Text)
    requires k + |PASTE_START| <= |a| && content == a[k + |PASTE_START|..]
    requires Then(InPaste(content, None), y) == InPaste(content + y, None) <==> !CutShowsInPaste(content, y)
    ensures Then(AtMarker(pending, a, k), y) == AtMarker(pending, a + y, k) <==> !CutShowsInPaste(content, y)
  {
    CutWithin(a, y, k, k + |PASTE_START|);
    ThenAtMarker(BeforePaste(pending, a[..k]), content, content + y, y);
  }

  lemma NothingHeldAtMarker(pending: Option<nat>, text: Text, k: nat)
    requires IndexOf(text, PASTE_START) == k
    ensures Process(State([], false, [], pending), text) == AtMarker(pending, text, k)
  {
    assert [] + text == text;
    ProcessAtMarker(State([], false, [], pending), text, k);
  }

  /** The marker stands wholly before the cut: what counts is where its paste is cut. */
  lemma MarkerBeforeExactly(pending: Option<nat>, a: Text, y: Text, k: nat, content: Text)
    requires IndexOf(a + y, PASTE_START) == k && k + |PASTE_START| <= |a| && content == a[k + |PASTE_START|..]
    requires Then(InPaste(content, None), y) == InPaste(content + y, None) <==> !CutShowsInPaste(content, y)
    ensures var st := State([], false, [], pending);
            Then(Process(st, a), y) == Process(st, a + y) <==> !CutShowsInPaste(content, y)
  {
    FoundBeforeCut(a, y, PASTE_START);
    NothingHeldAtMarker(pending, a, k);
    NothingHeldAtMarker(pending, a + y, k);
    AtMarkerExactly(pending, a, y, k, content);
  }

  /** Outside a paste, told for a state that holds nothing. */
  lemma {:induction false} OutsideExactly(pending: Option<nat>, a: Text, y: Text)
    requires a != [] && y != []
    ensures var st := State([], false, [], pending);
            Then(Process(st, a), y) == Process(st, a + y) <==> !CutShowsOutside(a, y)
    decreases |a|, 1
  {
    var k := IndexOf(a + y, PASTE_START);
    if k < 0 {
      NoMarkerExactly(pending, a, y);
    } else if k + |PASTE_START| > |a| {
      MarkerAfterExactly(pending, a, y, k);
    } else {
      var content := a[k + |PASTE_START|..];
      PasteCutExactly(content, y);
      MarkerBeforeExactly(pending, a, y, k, content);
    }
  }

  lemma NoStartBefore(a: Text, y: Text, k: nat)
    requires IndexOf(a + y, PASTE_START) == k && k + |PASTE_START| > |a|
    ensures !Occurs(a, PASTE_START)
  {
    NoStart(a);
    if IndexOf(a, PASTE_START) >= 0 {
      FoundBeforeCut(a, y, PASTE_START);
    }
  }

  /** What a call does depends on what is held and what arrives only taken together. */
  lemma HeldAndArriving(st: State, str: Text, text: Text)
    requires !st.pasting && st.pasteBuffer == [] && text == st.buffer + str && text != []
    ensures Process(st, str) == Process(State([], false, [], st.pending), text)
  {
    var none := State([], false, [], st.pending);
    assert none.buffer + text == text;
    var k := IndexOf(text, PASTE_START);
    if k < 0 {
      NoStart(text);
      ProcessIsPlain(st, str);
      ProcessIsPlain(none, text);
    } else {
      ProcessAtMarker(st, str, k);
      ProcessAtMarker(none, text, k);
    }
  }

  /**
    For every state and every two chunks that are not empty: the events and the state
    after both are those of the two as one chunk if and only if the cut does not show.
  */
  lemma CutExactly(st: State, x: Text, y: Text)
    requires Inv(st) && x != [] && y != []
    ensures Feed(st, [x, y]) == Process(st, x + y) <==> !CutShows(st, x, y)
  {
    FeedTwo(st, x, y);
    if st.pasting {
      InsideExactly(st, x, y);
    } else {
      Associative(st.buffer, x, y);
      HeldAndArriving(st, x, st.buffer + x);
      HeldAndArriving(st, x + y, st.buffer + x + y);
      OutsideExactly(st.pending, st.buffer + x, y);
    }
  }

  lemma InsideExactly(st: State, x: Text, y: Text)
    requires Inv(st) && st.pasting && x != [] && y != []
    ensures Then(Process(st, x), y) == Process(st, x + y) <==> !CutShows(st, x, y)
  {
    assert [] + x == x && [] + (x + y) == x + y;
    Associative(st.pasteBuffer, x, y);
    PasteCutExactly(st.pasteBuffer + x, y);
  }

  // ----- Any number of chunks -----

  lemma {:induction false} FeedSnoc(st: State, chunks: seq<Text>, last: Text)
    ensures Feed(st, chunks + [last]) == Then(Feed(st, chunks), last)
    decreases |chunks|
  {
    if chunks == [] {
      assert [] + [last] == [last] && [last][1..] == [];
      assert Process(st, last).events + [] == Process(st, last).events;
    } else {
      assert (chunks + [last])[1..] == chunks[1..] + [last];
      var first := Process(st, chunks[0]);
      FeedSnoc(first.state, chunks[1..], last);
      ThenPreceded(first.events, Feed(first.state, chunks[1..]), last);
    }
  }

  /** No cut shows: each one is judged with everything before it as one chunk. */
  ghost predicate NoCutShows(st: State, chunks: seq<Text>) {
    forall i :: 0 < i < |chunks| ==> !CutShows(st, Flatten(chunks[..i]), chunks[i])
  }

  lemma {:induction false} OneMoreChunk(st: State, chunks: seq<Text>, n: nat)
    requires 0 < n <= |chunks| && Inv(st) && NonEmpty(chunks) && NoCutShows(st, chunks)
    ensures Flatten(chunks[..n]) != [] && Feed(st, chunks[..n]) == Process(st, Flatten(chunks[..n]))
    decreases n
  {
    var before, last := chunks[..n - 1], chunks[n - 1];
    assert chunks[..n] == before + [last];
    FlattenSnoc(before, last);
    FeedSnoc(st, before, last);
    if n == 1 {
      assert before == [] && [] + last == last;
      PrecededTwice([], [], Process(st, last));
    } else {
      OneMoreChunk(st, chunks, n - 1);
      assert !CutShows(st, Flatten(before), last);
      CutExactly(st, Flatten(before), last);
      FeedTwo(st, Flatten(before), last);
    }
  }

  /** If no cut shows, any number of chunks are handled as their concatenation. */
  lemma NoCutNoTrace(st: State, chunks: seq<Text>)
    requires chunks != [] && Inv(st) && NonEmpty(chunks) && NoCutShows(st, chunks)
    ensures Feed(st, chunks) == Process(st, Flatten(chunks))
  {
    OneMoreChunk(st, chunks, |chunks|);
    assert chunks[..|chunks|] == chunks;
  }
}
