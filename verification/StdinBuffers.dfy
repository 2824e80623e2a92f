/**
  The buffer between terminal input and key handling: it emits complete sequences and
  whole pastes, and flushes an incomplete sequence when its timer fires.
*/
module StdinBuffers {
  import opened EscapeSequences
  import opened PasteProtocol
  import opened Sequences
  import opened Wrappers

  type Byte = b: nat | b < 0x100

  /** A chunk arrives as text, or as bytes together with the text they decode to. */
  datatype Chunk = Str(text: Text) | Bytes(bytes: seq<Byte>, decoded: Text)

  /** A single byte above 127 stands for ESC and the byte without its high bit. */
  function Decode(data: Chunk): Text {
    match data
    case Str(text) => text
    case Bytes(bytes, decoded) => if |bytes| == 1 && bytes[0] > 127 then [ESC, bytes[0] - 128] else decoded
  }

  /** The events that listeners see. */
  function Visible(events: seq<Event>): seq<Event> {
    if events == [] then []
    else (if events[0].Data? || events[0].Paste? then [events[0]] else []) + Visible(events[1..])
  }

  lemma {:induction false} VisibleConcat(a: seq<Event>, b: seq<Event>)
    ensures Visible(a + b) == Visible(a) + Visible(b)
  {
    if a == [] {
      assert a + b == b;
    } else {
      var first := if a[0].Data? || a[0].Paste? then [a[0]] else [];
      assert (a + b)[1..] == a[1..] + b;
      VisibleConcat(a[1..], b);
      Associative(first, Visible(a[1..]), Visible(b));
    }
  }

  /** A single byte with its high bit set is ESC and the byte without that bit; all else is as decoded. */
  lemma DecodeExactly(bytes: seq<Byte>, text: Text)
    ensures Decode(Str(text)) == text
    ensures Decode(Bytes(bytes, text)) == if |bytes| == 1 && bytes[0] >= 128 then [27, bytes[0] - 128] else text
  {
  }

  /** The events that stay: data and pastes. */
  lemma {:induction false} VisibleExactly(events: seq<Event>, k: nat) returns (kept: seq<nat>)
    requires k <= |events|
    ensures ArePositions(kept, k, |events|) && (forall j :: k <= j < |events| ==> (j in kept <==> events[j].Data? || events[j].Paste?))
    ensures ArePicked(Visible(events[k..]), events, kept)
    decreases |events| - k
  {
    if k == |events| {
      kept := [];
    } else {
      var later := VisibleExactly(events, k + 1);
      assert events[k..][1..] == events[k + 1..];
      PickFirst(Visible(events[k + 1..]), events, k, later);
      if events[k].Data? || events[k].Paste? {
        kept := [k] + later;
      } else {
        kept := later;
      }
    }
  }

  ghost predicate ArePositions(kept: seq<nat>, k: nat, n: nat) {
    && (forall i :: 0 <= i < |kept| ==> k <= kept[i] < n)
    && forall i, j :: 0 <= i < j < |kept| ==> kept[i] < kept[j]
  }

  ghost predicate ArePicked(picked: seq<Event>, events: seq<Event>, kept: seq<nat>) {
    |picked| == |kept| && forall i :: 0 <= i < |kept| ==> kept[i] < |events| && picked[i] == events[kept[i]]
  }

  lemma PickFirst(picked: seq<Event>, events: seq<Event>, k: nat, kept: seq<nat>)
    requires k < |events| && ArePicked(picked, events, kept) && ArePositions(kept, k + 1, |events|)
    ensures ArePicked([events[k]] + picked, events, [k] + kept) && ArePositions([k] + kept, k, |events|)
    ensures forall j :: j in [k] + kept <==> j == k || j in kept
  {
  }

  class StdinBuffer {
    var buffer: Text
    var timeout: Option<nat>   // the delay of the armed timer
    const timeoutMs: nat
    const escapeTimeoutMs: nat
    var pasteMode: bool
    var pasteBuffer: Text
    var pendingKittyPrintableCodepoint: Option<nat>
    var emitted: seq<Event>    // what the listeners were called with
    ghost var consumed: seq<Event>   // the same, with what was consumed without an event

    ghost function View(): State
      reads this
    {
      State(buffer, pasteMode, pasteBuffer, pendingKittyPrintableCodepoint)
    }

    /** The delay the timer is armed with: an incomplete sequence always has a timer, nothing else does. */
    ghost function Delay(): Option<nat>
      reads this
    {
      if buffer == [] then None else Some(if buffer == [ESC] then escapeTimeoutMs else timeoutMs)
    }

    ghost predicate Valid()
      reads this
    {
      Inv(View()) && emitted == Visible(consumed)
    }

    constructor (timeoutMs: nat, escapeTimeoutMs: nat)
      ensures Valid() && View() == IDLE && emitted == consumed == [] && timeout == None
    {
      buffer, pasteMode, pasteBuffer, pendingKittyPrintableCodepoint := [], false, [], None;
      this.timeoutMs, this.escapeTimeoutMs := timeoutMs, escapeTimeoutMs;
      timeout, emitted, consumed := None, [], [];
    }

    method Consume(event: Event)
      requires emitted == Visible(consumed)
      modifies `emitted, `consumed
      ensures consumed == old(consumed) + [event] && emitted == Visible(consumed)
    {
      VisibleConcat(consumed, [event]);
      if event.Data? || event.Paste? {
        emitted := emitted + [event];
      }
      consumed := consumed + [event];
    }

    method EmitDataSequence(sequence: Text)
      requires emitted == Visible(consumed)
      modifies `emitted, `consumed, `pendingKittyPrintableCodepoint
      ensures emitted == Visible(consumed)
      ensures var (pending, event) := PasteProtocol.EmitDataSequence(old(pendingKittyPrintableCodepoint), sequence);
              pendingKittyPrintableCodepoint == pending && consumed == old(consumed) + [event]
    {
      if |sequence| == 1 && pendingKittyPrintableCodepoint == Some(sequence[0]) {
        pendingKittyPrintableCodepoint := None;
        Consume(Suppressed(sequence[0]));
      } else {
        pendingKittyPrintableCodepoint := KittyPrintable(sequence);
        Consume(Data(sequence));
      }
    }

    method EmitSequences(sequences: seq<Text>)
      requires emitted == Visible(consumed)
      modifies `emitted, `consumed, `pendingKittyPrintableCodepoint
      ensures emitted == Visible(consumed)
      ensures var emission := EmitAll(old(pendingKittyPrintableCodepoint), sequences);
              && pendingKittyPrintableCodepoint == emission.pending
              && consumed == old(consumed) + emission.events
    {
      ghost var whole := EmitAll(pendingKittyPrintableCodepoint, sequences);
      var n := 0;
      assert sequences[0..] == sequences;
      while n < |sequences|
        invariant 0 <= n <= |sequences| && emitted == Visible(consumed)
        invariant whole.pending == EmitAll(pendingKittyPrintableCodepoint, sequences[n..]).pending
        invariant consumed + EmitAll(pendingKittyPrintableCodepoint, sequences[n..]).events == old(consumed) + whole.events
      {
        ghost var before := consumed;
        ghost var (next, event) := PasteProtocol.EmitDataSequence(pendingKittyPrintableCodepoint, sequences[n]);
        assert sequences[n..][0] == sequences[n] && sequences[n..][1..] == sequences[n + 1..];
        Associative(before, [event], EmitAll(next, sequences[n + 1..]).events);
        EmitDataSequence(sequences[n]);
        n := n + 1;
      }
    }

    method FindIndex(s: Text, pattern: Text) returns (index: int)
      ensures index == IndexOf(s, pattern)
    {
      index := 0;
      while index + |pattern| <= |s|
        invariant 0 <= index <= |s| + 1
        invariant index <= |s| ==> IndexOf(s, pattern) == IndexFrom(s, pattern, index)
        invariant index > |s| ==> IndexOf(s, pattern) == -1
      {
        if s[index..index + |pattern|] == pattern { return; }
        index := index + 1;
      }
      index := -1;
    }

    /** The shared end of both paste branches: look for the end marker in what was received. */
    method ContinuePaste()
      requires emitted == Visible(consumed)
      requires pasteMode && buffer == [] && timeout == None && pendingKittyPrintableCodepoint == None
      modifies this
      ensures emitted == Visible(consumed) && timeout == Delay()
      ensures var r := InPaste(old(pasteBuffer), None);
              View() == r.state && consumed == old(consumed) + r.events
      decreases |pasteBuffer|, 1
    {
      var endIndex := FindIndex(pasteBuffer, PASTE_END);
      if endIndex != -1 {
        FinishPaste(endIndex);
      }
    }

    method FinishPaste(endIndex: nat)
      requires emitted == Visible(consumed)
      requires pasteMode && buffer == [] && timeout == None && OccursAt(pasteBuffer, PASTE_END, endIndex)
      modifies this
      ensures emitted == Visible(consumed) && timeout == Delay()
      ensures var remaining := old(pasteBuffer)[endIndex + |PASTE_END|..];
              var r := if remaining == [] then Result(IDLE, []) else PasteProtocol.Process(IDLE, remaining);
              View() == r.state && consumed == old(consumed) + ([Paste(old(pasteBuffer)[..endIndex])] + r.events)
      decreases |pasteBuffer|, 0
    {
      var pastedContent := pasteBuffer[..endIndex];
      var remaining := pasteBuffer[endIndex + |PASTE_END|..];
      pasteMode, pasteBuffer, pendingKittyPrintableCodepoint := false, [], None;
      Consume(Paste(pastedContent));
      if |remaining| > 0 {
        Process(remaining);
        Associative(old(consumed), [Paste(pastedContent)], PasteProtocol.Process(IDLE, remaining).events);
      }
    }

    method Process(str: Text)
      requires Valid()
      modifies this
      ensures Valid() && timeout == Delay()
      ensures timeout == if buffer == [] then None else if buffer == [27] then Some(escapeTimeoutMs) else Some(timeoutMs)
      ensures var r := PasteProtocol.Process(old(View()), str);
              View() == r.state && consumed == old(consumed) + r.events
      decreases |buffer| + |pasteBuffer| + |str|, 2
    {
      ProcessKeepsInv(View(), str);
      timeout := None;
      if |str| == 0 && |buffer| == 0 {
        EmitDataSequence([]);
        return;
      }
      buffer := buffer + str;
      if pasteMode {
        pasteBuffer := pasteBuffer + buffer;
        buffer := [];
        ContinuePaste();
        return;
      }
      var startIndex := FindIndex(buffer, PASTE_START);
      if startIndex != -1 {
        PasteFrom(startIndex);
      } else {
        EmitComplete();
      }
    }

    method PasteFrom(startIndex: nat)
      requires !pasteMode && pasteBuffer == [] && timeout == None && emitted == Visible(consumed)
      requires OccursAt(buffer, PASTE_START, startIndex)
      modifies this
      ensures emitted == Visible(consumed) && timeout == Delay()
      ensures var r := Preceded(BeforePaste(old(pendingKittyPrintableCodepoint), old(buffer)[..startIndex]),
                                InPaste(old(buffer)[startIndex + |PASTE_START|..], None));
              View() == r.state && consumed == old(consumed) + r.events
      decreases |buffer|, 0
    {
      ghost var before := BeforePaste(pendingKittyPrintableCodepoint, buffer[..startIndex]);
      StartPaste(startIndex);
      ghost var inside := InPaste(pasteBuffer, None);
      ContinuePaste();
      Associative(old(consumed), before, inside.events);
    }

    /** No paste in sight: emit what is complete, keep the rest and arm the timer for it. */
    method EmitComplete()
      requires !pasteMode && pasteBuffer == [] && timeout == None && emitted == Visible(consumed)
      modifies `buffer, `timeout, `emitted, `consumed, `pendingKittyPrintableCodepoint
      ensures emitted == Visible(consumed) && timeout == Delay()
      ensures buffer == Extract(old(buffer)).remainder
      ensures var emission := EmitAll(old(pendingKittyPrintableCodepoint), Extract(old(buffer)).sequences);
              pendingKittyPrintableCodepoint == emission.pending && consumed == old(consumed) + emission.events
    {
      var result := ExtractCompleteSequences(buffer);
      buffer := result.remainder;
      EmitSequences(result.sequences);
      if |buffer| > 0 {
        timeout := Some(if buffer == [ESC] then escapeTimeoutMs else timeoutMs);
      }
    }

    /** An escape sequence still incomplete in front of a start marker is forgotten. */
    method EmitBeforePaste(beforePaste: Text)
      requires emitted == Visible(consumed)
      modifies `emitted, `consumed, `pendingKittyPrintableCodepoint
      ensures emitted == Visible(consumed)
      ensures consumed == old(consumed) + BeforePaste(old(pendingKittyPrintableCodepoint), beforePaste)
    {
      var result := ExtractCompleteSequences(beforePaste);
      EmitSequences(result.sequences);
      if |result.remainder| > 0 {
        Consume(Dropped(result.remainder));
      }
    }

    method StartPaste(startIndex: nat)
      requires !pasteMode && pasteBuffer == [] && timeout == None && emitted == Visible(consumed)
      requires OccursAt(buffer, PASTE_START, startIndex)
      modifies this
      ensures pasteMode && buffer == [] && pendingKittyPrintableCodepoint == None && timeout == None
      ensures pasteBuffer == old(buffer)[startIndex + |PASTE_START|..]
      ensures emitted == Visible(consumed)
      ensures consumed == old(consumed) + BeforePaste(old(pendingKittyPrintableCodepoint), old(buffer)[..startIndex])
    {
      if startIndex > 0 {
        EmitBeforePaste(buffer[..startIndex]);
      } else {
        assert buffer[..startIndex] == [];
      }
      pendingKittyPrintableCodepoint := None;
      buffer := buffer[startIndex + |PASTE_START|..];
      pasteMode := true;
      pasteBuffer := buffer;
      buffer := [];
    }

    method ProcessChunk(data: Chunk)
      requires Valid()
      modifies this
      ensures Valid() && timeout == Delay()
      ensures var r := PasteProtocol.Process(old(View()), Decode(data));
              View() == r.state && consumed == old(consumed) + r.events
    {
      var str: Text;
      match data {
        case Bytes(bytes, decoded) =>
          if |bytes| == 1 && bytes[0] > 127 {
            str := [ESC, bytes[0] - 128];
          } else {
            str := decoded;
          }
        case Str(text) => str := text;
      }
      Process(str);
    }

    method Flush() returns (sequences: seq<Text>)
      requires Valid()
      modifies `buffer, `timeout, `pendingKittyPrintableCodepoint
      ensures Valid() && timeout == None && buffer == []
      ensures sequences == (if old(buffer) == [] then [] else [old(buffer)])
      ensures old(buffer) == [] ==> View() == old(View())
      ensures old(buffer) != [] ==> View() == IDLE
    {
      timeout := None;
      if |buffer| == 0 {
        return [];
      }
      sequences := [buffer];
      buffer := [];
      pendingKittyPrintableCodepoint := None;
    }

    /** The timer callback: the incomplete sequence is emitted as it is. */
    method Fire()
      requires Valid() && timeout.Some? && timeout == Delay()
      modifies this
      ensures Valid() && timeout == Delay() == None
      ensures View() == Flushed(old(View())).state
      ensures consumed == old(consumed) + Flushed(old(View())).events && Held(View()) == []
    {
      var flushed := Flush();
      EmitSequences(flushed);
      assert flushed[1..] == [];
    }

    method Clear()
      modifies `buffer, `timeout, `pasteMode, `pasteBuffer, `pendingKittyPrintableCodepoint
      ensures View() == IDLE && timeout == None
      ensures emitted == old(emitted) && consumed == old(consumed)
      ensures old(Valid()) ==> Valid()
    {
      timeout, buffer, pasteMode, pasteBuffer, pendingKittyPrintableCodepoint := None, [], false, [], None;
    }
  }
}
