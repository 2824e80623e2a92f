/**
  Provider streams: how a stream that closes or throws early is completed, and how
  its events become one streamed message in the agent's transcript and context.
*/
module ProviderStreams {
  import opened AgentEvents
  import opened Agents
  import opened Arithmetic
  import opened Sequences
  import opened Wrappers

  /** `Partial` is a start event, `Delta` any partial update, `Final` a done or error event. */
  datatype ProviderEvent =
    | Partial(partial: AssistantMessage)
    | Delta(partial: AssistantMessage)
    | Final(message: AssistantMessage)

  /** A stream delivers `events` and then closes or throws with `failure`. */
  datatype ProviderStream = ProviderStream(events: seq<ProviderEvent>, failure: string, aborted: bool)

  function LastPartial(events: seq<ProviderEvent>): Option<AssistantMessage> {
    if events == [] then None
    else if !events[|events|-1].Final? then Some(events[|events|-1].partial)
    else LastPartial(events[..|events|-1])
  }

  function Interrupted(partial: Option<AssistantMessage>, stream: ProviderStream): AssistantMessage {
    var base := if partial.Some? then partial.value else AssistantMessage(0, Pending, [], None);
    base.(stop := if stream.aborted then Aborted else Error, errorMessage := Some(stream.failure))
  }

  function Starts(events: seq<ProviderEvent>): nat {
    if events == [] then 0 else Starts(events[..|events|-1]) + if events[|events|-1].Partial? then 1 else 0
  }

  ghost predicate IsFirstFinal(events: seq<ProviderEvent>, n: nat) {
    n < |events| && events[n].Final? && forall i :: 0 <= i < n ==> !events[i].Final?
  }

  /**
    What a response amounts to, told from the events delivered alone: the message of the
    first final event; without one, the content of the last partial message, or none, marked
    as aborted or failed with the stream's failure.
  */
  ghost predicate IsResponse(stream: ProviderStream, m: AssistantMessage) {
    || (exists n: nat :: IsFirstFinal(stream.events, n) && stream.events[n] == Final(m))
    || (&& (forall i :: 0 <= i < |stream.events| ==> !stream.events[i].Final?)
        && m.stop == (if stream.aborted then Aborted else Error) && m.errorMessage == Some(stream.failure)
        && if stream.events == [] then m.body == 0 && m.calls == []
           else m.body == stream.events[|stream.events| - 1].partial.body
                && m.calls == stream.events[|stream.events| - 1].partial.calls)
  }

  /** `events` is `stream` cut after its first final event, or completed by an error of its own. */
  ghost predicate IsNormalized(stream: ProviderStream, events: seq<ProviderEvent>) {
    && events != [] && events[|events|-1].Final?
    && (forall i :: 0 <= i < |events| - 1 ==> !events[i].Final?)
    && (|| events <= stream.events
        || (&& events[..|events|-1] == stream.events
            && events[|events|-1] == Final(Interrupted(LastPartial(stream.events), stream))))
  }

  /** A stream has exactly one response, and the completed stream ends with it. */
  lemma NormalizedResponse(stream: ProviderStream, events: seq<ProviderEvent>, m: AssistantMessage)
    requires IsNormalized(stream, events)
    ensures IsResponse(stream, m) <==> events[|events|-1] == Final(m)
  {
    var last := |events| - 1;
    if events <= stream.events {
      assert IsFirstFinal(stream.events, last);
    } else {
      assert forall i :: 0 <= i < |stream.events| ==> stream.events[i] == events[i];
      InterruptedResponse(stream, m);
    }
  }

  lemma InterruptedResponse(stream: ProviderStream, m: AssistantMessage)
    requires forall i :: 0 <= i < |stream.events| ==> !stream.events[i].Final?
    ensures IsResponse(stream, m) <==> m == Interrupted(LastPartial(stream.events), stream)
  {
    if IsResponse(stream, m) {
      assert m == AssistantMessage(m.body, m.stop, m.calls, m.errorMessage);
    }
  }

  method NormalizeProviderStream(stream: ProviderStream) returns (events: seq<ProviderEvent>)
    ensures IsNormalized(stream, events)
  {
    events := [];
    var partial: Option<AssistantMessage> := None;
    for i := 0 to |stream.events|
      invariant events == stream.events[..i]
      invariant forall j :: 0 <= j < i ==> !events[j].Final?
      invariant partial == LastPartial(events)
    {
      var event := stream.events[i];
      assert (events + [event])[..i] == events;
      events := events + [event];
      match event {
        case Final(_) => return;
        case Partial(p) => partial := Some(p);
        case Delta(p) => partial := Some(p);
      }
    }
    assert events == stream.events;
    events := events + [Final(Interrupted(partial, stream))];
  }

  /** How many events come before the first final one. */
  function BeforeFinal(events: seq<ProviderEvent>): (n: nat)
    ensures n <= |events| && (n < |events| ==> events[n].Final?)
    ensures forall i :: 0 <= i < n ==> !events[i].Final?
  {
    if events == [] || events[0].Final? then 0
    else
      var n := BeforeFinal(events[1..]);
      assert forall i :: 0 < i < n + 1 ==> events[i] == events[1..][i - 1];
      n + 1
  }

  /** The provider protocol: at most one start event before the final event. */
  predicate OneStart(stream: ProviderStream) {
    Starts(Partials(stream)) <= 1
  }

  /** The events before the final one. */
  function Partials(stream: ProviderStream): (events: seq<ProviderEvent>)
    ensures NoFinal(events)
  {
    stream.events[..BeforeFinal(stream.events)]
  }

  /** Completing a stream neither adds nor removes an event before the final one. */
  lemma NormalizedPartials(stream: ProviderStream, events: seq<ProviderEvent>)
    requires IsNormalized(stream, events)
    ensures events[..|events|-1] == Partials(stream)
  {
    var n := |events| - 1;
    assert events[..n] == stream.events[..n];
    assert forall i :: 0 <= i < n ==> stream.events[i] == events[i];
    assert n == BeforeFinal(stream.events);
  }

  // ----- What a host sees of a response, and what it adds to the context -----

  /** Where the first start event stands: updates before it go nowhere. */
  function FirstStart(events: seq<ProviderEvent>): (n: nat)
    ensures n <= |events| && (n < |events| ==> events[n].Partial?)
    ensures forall i :: 0 <= i < n ==> !events[i].Partial?
  {
    if events == [] || events[0].Partial? then 0
    else
      var n := FirstStart(events[1..]);
      assert forall i :: 0 < i < n + 1 ==> events[i] == events[1..][i - 1];
      n + 1
  }

  predicate NoFinal(events: seq<ProviderEvent>) {
    forall i :: 0 <= i < |events| ==> !events[i].Final?
  }

  /** From the first start event on, each start starts a message and each other event updates it. */
  ghost function Shown(events: seq<ProviderEvent>): (shown: seq<Event>)
    requires NoFinal(events)
    ensures |shown| == |events| - FirstStart(events)
    ensures forall i :: 0 <= i < |shown| ==>
              var e := events[FirstStart(events) + i];
              shown[i] == if e.Partial? then MessageStart(Assistant(e.partial)) else MessageUpdate(Assistant(e.partial))
  {
    var n := FirstStart(events);
    seq(|events| - n, i requires 0 <= i < |events| - n =>
      var e := events[n + i];
      if e.Partial? then MessageStart(Assistant(e.partial)) else MessageUpdate(Assistant(e.partial)))
  }

  /** The context entries of a response under way: one for each start event, each as last updated. */
  ghost function Drafts(events: seq<ProviderEvent>): (drafts: seq<Message>)
    requires NoFinal(events)
    ensures |drafts| == Starts(events)
    ensures drafts != [] ==> drafts[|drafts|-1] == Assistant(events[|events|-1].partial)
  {
    if events == [] then []
    else
      var before, last := Drafts(events[..|events|-1]), events[|events|-1];
      if last.Partial? then before + [Assistant(last.partial)]
      else if before == [] then []
      else before[|before| - 1 := Assistant(last.partial)]
  }

  /** All events of a response: a message that was never started starts with its final content. */
  ghost function ShownResponse(events: seq<ProviderEvent>, m: AssistantMessage): seq<Event>
    requires NoFinal(events)
  {
    Shown(events) + (if Starts(events) == 0 then [MessageStart(Assistant(m))] else []) + [MessageEnd(Assistant(m))]
  }

  /** The context entries of a response: the final message takes the place of the last draft. */
  ghost function ContextEntries(events: seq<ProviderEvent>, m: AssistantMessage): (entries: seq<Message>)
    requires NoFinal(events)
    ensures |entries| == Max(1, Starts(events)) && entries[|entries|-1] == Assistant(m)
  {
    var drafts := Drafts(events);
    if drafts == [] then [Assistant(m)] else drafts[|drafts| - 1 := Assistant(m)]
  }

  /** What one more event before the final one shows the host. */
  lemma ShownExtends(events: seq<ProviderEvent>, e: ProviderEvent)
    requires NoFinal(events) && !e.Final?
    ensures Starts(events + [e]) == Starts(events) + if e.Partial? then 1 else 0
    ensures Shown(events + [e]) == Shown(events) + if e.Partial? then [MessageStart(Assistant(e.partial))]
                                                   else if Starts(events) > 0 then [MessageUpdate(Assistant(e.partial))] else []
  {
    var all := events + [e];
    assert all[..|events|] == events;
    NoneStarts(events);
    FirstStartExtends(events, e);
  }

  lemma FirstStartExtends(events: seq<ProviderEvent>, e: ProviderEvent)
    ensures FirstStart(events + [e]) == FirstStart(events) + if FirstStart(events) == |events| && !e.Partial? then 1 else 0
  {
    var all := events + [e];
    assert forall i :: 0 <= i < |events| ==> all[i] == events[i];
    assert all[|events|] == e;
  }

  /** What one more event before the final one does to the context. */
  lemma DraftsExtend(events: seq<ProviderEvent>, e: ProviderEvent)
    requires NoFinal(events) && !e.Final?
    ensures e.Partial? ==> Drafts(events + [e]) == Drafts(events) + [Assistant(e.partial)]
    ensures e.Delta? && Starts(events) == 0 ==> Drafts(events + [e]) == Drafts(events) == []
    ensures e.Delta? && Starts(events) > 0 ==>
              Drafts(events + [e]) == Drafts(events)[Starts(events) - 1 := Assistant(e.partial)]
  {
    assert (events + [e])[..|events|] == events;
  }

  lemma {:induction false} NoneStarts(events: seq<ProviderEvent>)
    ensures Starts(events) == 0 <==> FirstStart(events) == |events|
  {
    if events != [] {
      var before := events[..|events|-1];
      NoneStarts(before);
      assert forall i :: 0 <= i < |before| ==> before[i] == events[i];
      assert FirstStart(before) < |before| ==> events[FirstStart(before)].Partial?;
    }
  }

  /** With one start event a response is one message: started, updated by every event after that, and ended. */
  lemma OneMessage(first: AssistantMessage, updates: seq<ProviderEvent>, m: AssistantMessage)
    requires forall i :: 0 <= i < |updates| ==> updates[i].Delta?
    ensures var events := [Partial(first)] + updates;
            && NoFinal(events) && Starts(events) == 1 && ContextEntries(events, m) == [Assistant(m)]
            && ShownResponse(events, m) ==
                 [MessageStart(Assistant(first))]
                 + seq(|updates|, i requires 0 <= i < |updates| => MessageUpdate(Assistant(updates[i].partial)))
                 + [MessageEnd(Assistant(m))]
  {
    var events := [Partial(first)] + updates;
    assert events[0].Partial? && FirstStart(events) == 0;
    assert NoFinal(events);
    OneStarts(events);
  }

  lemma {:induction false} OneStarts(events: seq<ProviderEvent>)
    requires events != [] && events[0].Partial? && forall i :: 0 < i < |events| ==> !events[i].Partial?
    ensures Starts(events) == 1
  {
    if |events| > 1 {
      OneStarts(events[..|events|-1]);
    } else {
      assert events[..0] == [];
    }
  }

  /**
    Forward one response to the host: each event as it comes, and the final message last.
    The message events nest if and only if the provider sent at most one start event.
  */
  method StreamAssistantResponse(state: MutableAgentState, context: seq<Message>, stream: ProviderStream)
    returns (context': seq<Message>, message: AssistantMessage)
    requires state.Phase() == QUIET
    modifies state
    ensures IsResponse(stream, message)
    ensures state.messages == old(state.messages) + [Assistant(message)]
    ensures state.log == old(state.log) + ShownResponse(Partials(stream), message) && state.initial == old(state.initial)
    ensures state.Phase() == QUIET
    ensures state.Nested() <==> old(state.Nested()) && OneStart(stream)
    ensures context' == context + ContextEntries(Partials(stream), message)
  {
    var events := NormalizeProviderStream(stream);
    NormalizedPartials(stream, events);
    ghost var messages, log, nested := state.messages, state.log, state.Nested();
    var added;
    message := events[|events|-1].message;
    NormalizedResponse(stream, events, message);
    context', added := ForwardPartials(state, context, events[..|events|-1]);
    context' := FinishResponse(state, context, context', Partials(stream), message, added, log, nested);
  }

  /** Everything before the final event. */
  method ForwardPartials(state: MutableAgentState, context: seq<Message>, events: seq<ProviderEvent>)
    returns (context': seq<Message>, added: bool)
    requires NoFinal(events) && state.Phase() == QUIET
    modifies state
    ensures added == (Starts(events) > 0) && context' == context + Drafts(events)
    ensures Forwarded(state, old(state.messages), old(state.log), old(state.Nested()), events)
    ensures state.initial == old(state.initial)
  {
    context', added := context, false;
    ghost var messages, log, nested := state.messages, state.log, state.Nested();
    for i := 0 to |events|
      invariant NoFinal(events[..i]) && added == (Starts(events[..i]) > 0)
      invariant context' == context + Drafts(events[..i])
      invariant Forwarded(state, messages, log, nested, events[..i])
      invariant state.initial == old(state.initial)
    {
      assert events[..i + 1] == events[..i] + [events[i]];
      context' := ForwardPartial(state, context, context', events[..i], events[i], added, messages, log, nested);
      added := added || events[i].Partial?;
    }
    assert events[..|events|] == events;
  }

  /** The log and its standing once a response has shown `events` after `log`. */
  ghost predicate IsShown(after: seq<Event>, phase: Monitor, nested': bool, log: seq<Event>, nested: bool, events: seq<ProviderEvent>)
    requires NoFinal(events)
  {
    && after == log + Shown(events)
    && phase == InTurn(Starts(events) > 0, multiset{})
    && (nested' <==> nested && Starts(events) <= 1)
  }

  /** The loop event that forwards one provider event. */
  function Forwarding(event: ProviderEvent): Event
    requires !event.Final?
  {
    if event.Partial? then MessageStart(Assistant(event.partial)) else MessageUpdate(Assistant(event.partial))
  }

  lemma ShowsNext(after: seq<Event>, phase: Monitor, nested': bool, log: seq<Event>, nested: bool,
                  events: seq<ProviderEvent>, event: ProviderEvent)
    requires NoFinal(events) && !event.Final? && IsShown(after, phase, nested', log, nested, events)
    ensures event.Partial? || Starts(events) > 0 ==>
              var e := Forwarding(event);
              IsShown(after + [e], Watch(false, phase, e), nested' && Watch(true, phase, e) != Broken, log, nested, events + [event])
    ensures event.Delta? && Starts(events) == 0 ==> IsShown(after, phase, nested', log, nested, events + [event])
  {
    ShownExtends(events, event);
    Associative(log, Shown(events), [Forwarding(event)]);
    assert Shown(events) + [] == Shown(events);
  }

  /** What the host has seen of a response so far. */
  ghost predicate Forwarded(state: MutableAgentState, messages: seq<Message>, log: seq<Event>, nested: bool,
                            events: seq<ProviderEvent>)
    reads state
    requires NoFinal(events)
  {
    state.messages == messages && IsShown(state.log, state.Phase(), state.Nested(), log, nested, events)
  }

  /** The final event: the message takes its place in the context, and ends for the host. */
  method FinishResponse(state: MutableAgentState, ghost before: seq<Message>, context: seq<Message>,
                        ghost events: seq<ProviderEvent>, message: AssistantMessage, added: bool,
                        ghost log: seq<Event>, ghost nested: bool)
    returns (context': seq<Message>)
    requires NoFinal(events) && added == (Starts(events) > 0) && context == before + Drafts(events)
    requires Forwarded(state, state.messages, log, nested, events)
    modifies state
    ensures state.messages == old(state.messages) + [Assistant(message)] && state.initial == old(state.initial)
    ensures state.log == log + ShownResponse(events, message)
    ensures state.Phase() == QUIET && (state.Nested() <==> nested && Starts(events) <= 1)
    ensures context' == before + ContextEntries(events, message)
  {
    if added {
      context' := context[|context| - 1 := Assistant(message)];
    } else {
      context' := context + [Assistant(message)];
      state.ProcessEvents(MessageStart(Assistant(message)));
    }
    state.ProcessEvents(MessageEnd(Assistant(message)));
  }

  /** One event before the final one: a start grows the context, an update replaces its last message. */
  method ForwardPartial(state: MutableAgentState, ghost before: seq<Message>, context: seq<Message>,
                        ghost events: seq<ProviderEvent>, event: ProviderEvent, added: bool,
                        ghost messages: seq<Message>, ghost log: seq<Event>, ghost nested: bool)
    returns (context': seq<Message>)
    requires NoFinal(events) && !event.Final? && added == (Starts(events) > 0)
    requires context == before + Drafts(events) && Forwarded(state, messages, log, nested, events)
    modifies state
    ensures context' == before + Drafts(events + [event]) && Forwarded(state, messages, log, nested, events + [event])
    ensures state.initial == old(state.initial)
  {
    ShowsNext(state.log, state.Phase(), state.Nested(), log, nested, events, event);
    DraftsExtend(events, event);
    context' := context;
    match event {
      case Partial(p) =>
        context' := context + [Assistant(p)];
        state.ProcessEvents(MessageStart(Assistant(p)));
      case Delta(p) =>
        if added {
          context' := context[|context| - 1 := Assistant(p)];
          state.ProcessEvents(MessageUpdate(Assistant(p)));
        }
    }
  }

  /** Two start events before the final one: the second message starts while the first is streamed. */
  lemma TwoStartsDoNotNest(first: AssistantMessage, second: AssistantMessage)
    ensures !OneStart(ProviderStream([Partial(first), Partial(second), Final(second)], "", false))
    ensures WatchAll(true, QUIET, [MessageStart(Assistant(first)), MessageStart(Assistant(second))]) == Broken
  {
    var events := [Partial(first), Partial(second), Final(second)];
    assert BeforeFinal(events) == 2 by {
      assert events[0].Partial? && events[1].Partial? && events[2].Final?;
    }
    var one: seq<ProviderEvent> := [Partial(first)];
    var two := one + [Partial(second)];
    assert events[..2] == two && two[..1] == one && one[..0] == [];
    assert Starts(one) == 1 && Starts(two) == 2;
    WatchTwo(true, QUIET, MessageStart(Assistant(first)), MessageStart(Assistant(second)));
  }
}
