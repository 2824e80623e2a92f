/**
  The agent loop. The environment of a run (provider streams, tools, hooks, aborts, and
  what the host queues meanwhile) is a script of choices, one `TurnScript` per turn; when
  the script is used up the run is simply observed no further. Hooks and event
  listeners do not throw.
*/
module AgentLoop {
  import opened AgentEvents
  import opened Agents
  import opened PendingQueue
  import opened ProviderStreams
  import opened Sequences
  import opened ToolBatches
  import opened ToolCalls
  import opened Wrappers
  import PB = ParallelBatch

  // ----- Turns -----

  /** Everything the environment decides during one turn. */
  datatype TurnScript = TurnScript(
    whilePreparing: seq<HostAction>,         // done by the host while `prepareNextTurn` runs
    preparedContext: Option<seq<Message>>,   // a context that `prepareNextTurn` put in place
    requestHook: bool,                       // whether there is a `beforeModelRequest`
    whileRequesting: seq<HostAction>,
    requestContext: Option<seq<Message>>,
    abortedAtRequest: bool,
    stream: ProviderStream,
    sequential: bool,                        // the batch must run one call at a time
    calls: CallScripts,
    stopAfterTurn: bool,
    whileResponding: seq<HostAction>,
    beforeFollowUps: seq<HostAction>)

  /** What waits for a turn: messages already drained for it, and the queues. */
  datatype Waiting = Waiting(pending: seq<Message>, queues: Queues)

  /** What one completed turn found and did. */
  datatype Turn = Turn(
    found: Waiting,          // when the turn came up
    early: seq<Message>,     // delivered before `beforeModelRequest`
    late: seq<Message>,      // delivered after it
    steered: bool,           // the delivered messages came from the steering queue
    left: Queues,            // the queues when the model was asked
    request: seq<Message>,   // the context that the model saw
    message: AssistantMessage,
    outcomes: seq<Outcome>,
    results: seq<Message>,
    executed: seq<nat>,
    batch: seq<Event>,       // the events of its tool batch
    stopAfter: bool,
    polls: nat)              // how often the queues had been drained when it ended
  {
    function Injected(): seq<Message> { early + late }
  }

  predicate Failed(m: AssistantMessage) { m.stop.Error? || m.stop.Aborted? }

  /** A barrier: the run ends with this turn. */
  ghost predicate Stops(t: Turn) { AnyStop(t.outcomes) || t.stopAfter }

  /** The turn leaves the run open: it neither failed nor raised a barrier. */
  ghost predicate GoesOn(t: Turn) { !Failed(t.message) && !Stops(t) }

  /** The model is owed another request for its tool results: no result ends the batch, nor all of them together. */
  ghost predicate HasMoreToolCalls(t: Turn) {
    && t.message.calls != []
    && !(exists i :: 0 <= i < |t.outcomes| && t.outcomes[i].stopTurn)
    && !(t.outcomes != [] && forall i :: 0 <= i < |t.outcomes| ==> t.outcomes[i].terminate)
  }

  // ----- What a turn delivers -----

  ghost function Poll(q: Queues, steering: bool): Waiting {
    Waiting(Release(q, steering), Polled(q, steering))
  }

  /** After `prepareNextTurn`, which the first turn skips: steering is polled unless messages wait already. */
  ghost function Prepared(ts: TurnScript, first: bool, w: Waiting): Waiting {
    if first then w
    else
      var q := Acted(w.queues, ts.whilePreparing);
      if w.pending == [] then Poll(q, true) else Waiting(w.pending, q)
  }

  /** What is delivered after `beforeModelRequest`: steering, when the turn is not the first and delivered nothing yet. */
  ghost function Requested(ts: TurnScript, first: bool, w: Waiting): Waiting {
    if !ts.requestHook then Waiting([], w.queues)
    else
      var q := Acted(w.queues, ts.whileRequesting);
      if !first && w.pending == [] && !ts.abortedAtRequest then Poll(q, true) else Waiting([], q)
  }

  /** What the turn delivers, and when. */
  ghost predicate IsOpening(ts: TurnScript, first: bool, t: Turn) {
    var prepared := Prepared(ts, first, t.found);
    t.early == prepared.pending && Waiting(t.late, t.left) == Requested(ts, first, prepared)
  }

  /** The context of the model request: hooks may replace what came before. */
  function RequestContext(ts: TurnScript, first: bool, context: seq<Message>, early: seq<Message>, late: seq<Message>): seq<Message> {
    var prepared := Or(if first then None else ts.preparedContext, context) + early;
    Or(if ts.requestHook then ts.requestContext else None, prepared) + late
  }

  // ----- What a turn does -----

  ghost predicate ParallelExecuted(scripts: CallScripts, handled: nat, executed: seq<nat>) {
    Increasing(executed) && forall k: nat :: k in executed <==> k < handled && Runs(scripts(k))
  }

  /** The tool batch of a turn: which calls ran, what became of each, and what the host saw of it. */
  ghost predicate IsBatch(ts: TurnScript, m: AssistantMessage, outcomes: seq<Outcome>, results: seq<Message>,
                          executed: seq<nat>, events: seq<Event>)
  {
    if Failed(m) then outcomes == [] && results == [] && executed == [] && events == []
    else
      && |outcomes| <= |m.calls| && results == Results(m.calls, outcomes)
      && if m.stop.Length? then
           && executed == [] && |outcomes| == |m.calls|
           && (forall i :: 0 <= i < |outcomes| ==> outcomes[i] == Refuse(ts.calls(i)))
           && events == OneByOne(m.calls, ts.calls, outcomes, executed, |outcomes|)
         else
           && HandledUntilAbort(m.calls, ts.calls, |outcomes|)
           && if ts.sequential then
                && SequentialOutcomes(ts.calls, outcomes) && ExecutedIn(ts.calls, outcomes, executed)
                && events == OneByOne(m.calls, ts.calls, outcomes, executed, |outcomes|)
              else
                && (forall i :: 0 <= i < |outcomes| ==> outcomes[i] == Settle(ts.calls(i)))
                && ParallelExecuted(ts.calls, |outcomes|, executed)
                && IsConcurrent(m.calls, ts.calls, outcomes, events)
  }

  /** The turn does what its script says, given the context so far. */
  ghost predicate IsTurnOf(ts: TurnScript, first: bool, context: seq<Message>, t: Turn) {
    && t.stopAfter == ts.stopAfterTurn
    && IsOpening(ts, first, t)
    && t.request == RequestContext(ts, first, context, t.early, t.late)
    && IsResponse(ts.stream, t.message)
    && IsBatch(ts, t.message, t.outcomes, t.results, t.executed, t.batch)
  }

  /** The context after a turn. */
  ghost function TurnContext(ts: TurnScript, t: Turn): seq<Message> {
    t.request + (ContextEntries(Partials(ts.stream), t.message) + t.results)
  }

  /** The response and its tool results. */
  function ResponseMessages(m: AssistantMessage, results: seq<Message>): seq<Message> {
    [Assistant(m)] + results
  }

  /** The messages a turn adds to the transcript, in order. */
  function TurnMessages(t: Turn): seq<Message> {
    t.Injected() + ResponseMessages(t.message, t.results)
  }

  function MessagesOf(turns: seq<Turn>): seq<Message> {
    if turns == [] then [] else MessagesOf(turns[..|turns|-1]) + TurnMessages(turns[|turns|-1])
  }

  /** The events of messages that arrive complete. */
  ghost function MessageEvents(messages: seq<Message>): seq<Event> {
    if messages == [] then []
    else
      var m := messages[|messages|-1];
      MessageEvents(messages[..|messages|-1]) + [MessageStart(m), MessageEnd(m)]
  }

  lemma {:induction false} MessageEventsConcat(a: seq<Message>, b: seq<Message>)
    ensures MessageEvents(a + b) == MessageEvents(a) + MessageEvents(b)
    ensures |a| == 1 ==> MessageEvents(a) == [MessageStart(a[0]), MessageEnd(a[0])]
  {
    if b == [] {
      assert a + b == a;
    } else {
      MessageEventsConcat(a, b[..|b|-1]);
      assert (a + b)[..|a + b|-1] == a + b[..|b|-1];
    }
  }

  /** The events from the model's answer to `turn_end`. */
  ghost function AnswerLog(ts: TurnScript, m: AssistantMessage, results: seq<Message>, batch: seq<Event>): seq<Event> {
    ShownResponse(Partials(ts.stream), m) + batch + [TurnEnd(Assistant(m), results)]
  }

  /** The events of a turn after its `turn_start`. */
  ghost function TurnLog(ts: TurnScript, t: Turn): seq<Event> {
    MessageEvents(t.Injected()) + AnswerLog(ts, t.message, t.results, t.batch)
  }

  /** The run stays in the turn it is in, with nothing open, while its log and its transcript grow. */
  twostate predicate Grows(state: MutableAgentState, events: seq<Event>, messages: seq<Message>)
    reads state
  {
    && state.Phase() == QUIET && state.Nested() == old(state.Nested()) && state.initial == old(state.initial)
    && state.log == old(state.log) + events && state.messages == old(state.messages) + messages
  }

  method InjectPending(state: MutableAgentState, pending: seq<Message>, context: seq<Message>, newMessages: seq<Message>)
    returns (context': seq<Message>, newMessages': seq<Message>)
    requires state.Phase() == QUIET
    modifies state
    ensures Grows(state, MessageEvents(pending), pending)
    ensures context' == context + pending && newMessages' == newMessages + pending
  {
    context', newMessages' := context, newMessages;
    for i := 0 to |pending|
      invariant Grows(state, MessageEvents(pending[..i]), pending[..i])
      invariant context' == context + pending[..i] && newMessages' == newMessages + pending[..i]
    {
      state.EmitMessage(pending[i]);
      context', newMessages' := context' + [pending[i]], newMessages' + [pending[i]];
      assert pending[..i + 1] == pending[..i] + [pending[i]];
      MessageEventsConcat(pending[..i], [pending[i]]);
    }
    assert pending[..|pending|] == pending;
  }

  /** `prepareNextTurn` and the steering poll after it, unless messages are already waiting. */
  method PrepareNextTurn(agent: Agent, ts: TurnScript, pending: seq<Message>) returns (steered: seq<Message>)
    requires agent.Valid() && !agent.skipInitialSteeringPoll
    modifies agent`polls, agent`drains, agent`skipInitialSteeringPoll, agent`deliveryFilter, agent.steering, agent.followUp
    ensures agent.Valid() && !agent.skipInitialSteeringPoll
    ensures Waiting(steered, agent.Held()) == Prepared(ts, false, Waiting(pending, old(agent.Held())))
    ensures agent.drains == if pending == [] then Record(old(agent.drains), true, steered) else old(agent.drains)
  {
    agent.Host(ts.whilePreparing);
    steered := pending;
    if pending == [] {
      steered := agent.GetSteeringMessages();
    }
  }

  /** `beforeModelRequest`, and the last steering poll when this turn delivered nothing yet. */
  method BeforeModelRequest(agent: Agent, ts: TurnScript, first: bool, steered: seq<Message>,
                            context: seq<Message>, newMessages: seq<Message>)
    returns (context': seq<Message>, newMessages': seq<Message>, ghost late: seq<Message>)
    requires agent.Valid() && !agent.skipInitialSteeringPoll && agent.state.Phase() == QUIET
    modifies agent`polls, agent`drains, agent`skipInitialSteeringPoll, agent`deliveryFilter, agent.state, agent.steering, agent.followUp
    ensures agent.Valid() && !agent.skipInitialSteeringPoll
    ensures Waiting(late, agent.Held()) == Requested(ts, first, Waiting(steered, old(agent.Held())))
    ensures Grows(agent.state, MessageEvents(late), late) && newMessages' == newMessages + late
    ensures context' == Or(if ts.requestHook then ts.requestContext else None, context) + late
    ensures agent.drains == Record(old(agent.drains), true, late)
  {
    context', newMessages', late := context, newMessages, [];
    if ts.requestHook {
      agent.Host(ts.whileRequesting);
      context' := Or(ts.requestContext, context);
      if !first && steered == [] && !ts.abortedAtRequest {
        var polled := agent.GetSteeringMessages();
        late := polled;
        context', newMessages' := InjectPending(agent.state, polled, context', newMessages');
      }
    }
  }

  /** Deliver what was polled, then run `beforeModelRequest`, which may deliver the turn's first messages. */
  method DeliverAndRequest(agent: Agent, ts: TurnScript, first: bool, steered: seq<Message>,
                           context: seq<Message>, newMessages: seq<Message>)
    returns (context': seq<Message>, newMessages': seq<Message>, ghost late: seq<Message>)
    requires agent.Valid() && !agent.skipInitialSteeringPoll && agent.state.Phase() == QUIET
    modifies agent`polls, agent`drains, agent`skipInitialSteeringPoll, agent`deliveryFilter, agent.state, agent.steering, agent.followUp
    ensures agent.Valid() && !agent.skipInitialSteeringPoll
    ensures Waiting(late, agent.Held()) == Requested(ts, first, Waiting(steered, old(agent.Held())))
    ensures Grows(agent.state, MessageEvents(steered + late), steered + late) && newMessages' == newMessages + (steered + late)
    ensures context' == Or(if ts.requestHook then ts.requestContext else None, context + steered) + late
    ensures agent.drains == Record(old(agent.drains), true, late)
  {
    context', newMessages' := InjectPending(agent.state, steered, context, newMessages);
    context', newMessages', late := BeforeModelRequest(agent, ts, first, steered, context', newMessages');
    MessageEventsConcat(steered, late);
    Associative(old(agent.state.log), MessageEvents(steered), MessageEvents(late));
    Associative(old(agent.state.messages), steered, late);
    Associative(newMessages, steered, late);
  }

  /** Everything from the end of the previous turn to the model request. */
  method BeginTurn(agent: Agent, ts: TurnScript, first: bool, pending: seq<Message>,
                   ghost fromSteering: bool, ghost delivered: seq<Drain>,
                   context: seq<Message>, newMessages: seq<Message>)
    returns (context': seq<Message>, newMessages': seq<Message>, ghost early: seq<Message>, ghost late: seq<Message>)
    requires agent.Valid() && !agent.skipInitialSteeringPoll
    requires agent.state.Phase() == if first then QUIET else Between
    requires agent.drains == Record(delivered, fromSteering, pending)
    modifies agent`polls, agent`drains, agent`skipInitialSteeringPoll, agent`deliveryFilter, agent.state, agent.steering, agent.followUp
    ensures agent.Valid() && !agent.skipInitialSteeringPoll
    ensures var prepared := Prepared(ts, first, Waiting(pending, old(agent.Held())));
            early == prepared.pending && Waiting(late, agent.Held()) == Requested(ts, first, prepared)
    ensures agent.state.Phase() == QUIET && agent.state.Nested() == old(agent.state.Nested()) && agent.state.initial == old(agent.state.initial)
    ensures agent.state.log == old(agent.state.log) + (if first then [] else [TurnStart]) + MessageEvents(early + late)
    ensures agent.state.messages == old(agent.state.messages) + (early + late) && newMessages' == newMessages + (early + late)
    ensures context' == RequestContext(ts, first, context, early, late)
    ensures agent.drains == Record(delivered, pending == [] || fromSteering, early + late)
  {
    context' := context;
    var steered := pending;
    if !first {
      steered := PrepareNextTurn(agent, ts, pending);
      context' := Or(ts.preparedContext, context);
      agent.state.ProcessEvents(TurnStart);
    }
    early := steered;
    context', newMessages', late := DeliverAndRequest(agent, ts, first, steered, context', newMessages);
    assert early == [] || late == [];
    assert early + [] == early && [] + late == late;
  }

  method ExecuteToolCalls(state: MutableAgentState, ts: TurnScript, m: AssistantMessage)
    returns (outcomes: seq<Outcome>, results: seq<Message>, ghost executed: seq<nat>, ghost events: seq<Event>)
    requires state.Phase() == QUIET
    modifies state
    ensures Grows(state, events, results)
    ensures IsBatch(ts, m, outcomes, results, executed, events)
  {
    if Failed(m) {
      outcomes, results, executed, events := [], [], [], [];
    } else if m.stop.Length? {
      outcomes, results, executed := FailToolCallsFromTruncatedMessage(state, m.calls, ts.calls);
      events := OneByOne(m.calls, ts.calls, outcomes, executed, |outcomes|);
    } else if ts.sequential {
      var stopTurn;
      outcomes, results, stopTurn, executed := ExecuteToolCallsSequential(state, m.calls, ts.calls);
      events := OneByOne(m.calls, ts.calls, outcomes, executed, |outcomes|);
    } else {
      ghost var run;
      outcomes, results, run, executed := ExecuteToolCallsParallel(state, m.calls, ts.calls);
      events := PB.Project(m.calls, run[|run|-1].trace);
    }
  }

  /** The model request, its tool batch, and `turn_end`. */
  method CompleteTurn(state: MutableAgentState, ts: TurnScript, context: seq<Message>, newMessages: seq<Message>)
    returns (context': seq<Message>, newMessages': seq<Message>, message: AssistantMessage,
             outcomes: seq<Outcome>, results: seq<Message>, ghost executed: seq<nat>, ghost batch: seq<Event>)
    requires state.Phase() == QUIET
    modifies state
    ensures state.Phase() == Between && state.initial == old(state.initial)
    ensures state.Nested() <==> old(state.Nested()) && OneStart(ts.stream)
    ensures IsResponse(ts.stream, message) && IsBatch(ts, message, outcomes, results, executed, batch)
    ensures state.log == old(state.log) + AnswerLog(ts, message, results, batch)
    ensures newMessages' == newMessages + ResponseMessages(message, results)
    ensures context' == context + (ContextEntries(Partials(ts.stream), message) + results)
    ensures state.messages == old(state.messages) + ResponseMessages(message, results)
  {
    ghost var log, messages := state.log, state.messages;
    context', message := StreamAssistantResponse(state, context, ts.stream);
    newMessages' := newMessages + [Assistant(message)];
    outcomes, results, executed, batch := ExecuteToolCalls(state, ts, message);
    context', newMessages' := context' + results, newMessages' + results;
    state.ProcessEvents(TurnEnd(Assistant(message), results));
    Associative(context, ContextEntries(Partials(ts.stream), message), results);
    Associative(messages, [Assistant(message)], results);
    AnswerLogAfter(log, ts, message, results, batch);
  }

  lemma AnswerLogAfter(log: seq<Event>, ts: TurnScript, m: AssistantMessage, results: seq<Message>, batch: seq<Event>)
    ensures log + ShownResponse(Partials(ts.stream), m) + batch + [TurnEnd(Assistant(m), results)]
            == log + AnswerLog(ts, m, results, batch)
  {
  }

  /** One turn, from the events before its model request to its `turn_end`. */
  method RunTurn(agent: Agent, ts: TurnScript, first: bool, pending: seq<Message>,
                 ghost fromSteering: bool, ghost delivered: seq<Drain>,
                 context: seq<Message>, newMessages: seq<Message>)
    returns (context': seq<Message>, newMessages': seq<Message>,
             failed: bool, hasMoreToolCalls: bool, stopTurn: bool, ghost turn: Turn)
    requires agent.Valid() && !agent.skipInitialSteeringPoll
    requires agent.state.Phase() == if first then QUIET else Between
    requires agent.drains == Record(delivered, fromSteering, pending)
    modifies agent`polls, agent`drains, agent`skipInitialSteeringPoll, agent`deliveryFilter, agent.state, agent.steering, agent.followUp
    ensures agent.Valid() && !agent.skipInitialSteeringPoll && agent.state.Phase() == Between
    ensures agent.state.initial == old(agent.state.initial)
    ensures agent.state.Nested() <==> old(agent.state.Nested()) && OneStart(ts.stream)
    ensures turn.found == Waiting(pending, old(agent.Held())) && turn.left == agent.Held() && turn.polls == agent.polls
    ensures IsTurnOf(ts, first, context, turn) && context' == TurnContext(ts, turn)
    ensures failed == Failed(turn.message) && stopTurn == AnyStop(turn.outcomes)
    ensures hasMoreToolCalls == HasMoreToolCalls(turn)
    ensures agent.drains == Record(delivered, turn.steered, turn.Injected())
    ensures agent.state.log == old(agent.state.log) + ((if first then [] else [TurnStart]) + TurnLog(ts, turn))
    ensures agent.state.messages == old(agent.state.messages) + TurnMessages(turn)
    ensures newMessages' == newMessages + TurnMessages(turn)
  {
    ghost var early, late, executed, batch;
    ghost var log, messages, found := agent.state.log, agent.state.messages, Waiting(pending, agent.Held());
    var message, outcomes, results;
    context', newMessages', early, late := BeginTurn(agent, ts, first, pending, fromSteering, delivered, context, newMessages);
    ghost var request := context';
    context', newMessages', message, outcomes, results, executed, batch :=
      CompleteTurn(agent.state, ts, context', newMessages');
    failed, stopTurn := Failed(message), AnyStop(outcomes);
    hasMoreToolCalls := message.calls != [] && !ShouldTerminate(outcomes);
    turn := Turn(found, early, late, pending == [] || fromSteering, agent.Held(), request,
                 message, outcomes, results, executed, batch, ts.stopAfterTurn, agent.polls);
    MoreExactly(turn);
    TurnAdds(messages, newMessages, turn);
    TurnLogAfter(log, if first then [] else [TurnStart], ts, turn);
  }

  lemma MoreExactly(t: Turn)
    ensures HasMoreToolCalls(t) <==> t.message.calls != [] && !ShouldTerminate(t.outcomes)
  {
  }

  lemma TurnAdds(messages: seq<Message>, newMessages: seq<Message>, t: Turn)
    ensures messages + t.Injected() + ResponseMessages(t.message, t.results) == messages + TurnMessages(t)
    ensures newMessages + t.Injected() + ResponseMessages(t.message, t.results) == newMessages + TurnMessages(t)
  {
    Associative(messages, t.Injected(), ResponseMessages(t.message, t.results));
    Associative(newMessages, t.Injected(), ResponseMessages(t.message, t.results));
  }

  lemma TurnLogAfter(log: seq<Event>, start: seq<Event>, ts: TurnScript, t: Turn)
    ensures log + start + MessageEvents(t.Injected()) + AnswerLog(ts, t.message, t.results, t.batch) == log + (start + TurnLog(ts, t))
  {
  }

  // ----- Runs -----

  datatype RunScript = RunScript(beforeFirstPoll: seq<HostAction>, turns: seq<TurnScript>)

  /** The first n responses each obey the provider protocol. */
  ghost predicate ObeysProtocol(script: RunScript, n: nat)
    requires n <= |script.turns|
  {
    forall i :: 0 <= i < n ==> OneStart(script.turns[i].stream)
  }

  /** Every non-empty drain, after those in `before`, is what one turn injected: nothing else was delivered. */
  ghost function Deliveries(before: seq<Drain>, turns: seq<Turn>): seq<Drain> {
    if turns == [] then before
    else
      var t := turns[|turns|-1];
      Record(Deliveries(before, turns[..|turns|-1]), t.steered, t.Injected())
  }

  /** What waits after a turn, once the queues were drained n more times: first steering, then follow-ups. */
  ghost function WaitingAfter(ts: TurnScript, t: Turn, n: nat): Waiting {
    if n == 0 then Waiting([], t.left)
    else
      var steered := Poll(Acted(t.left, ts.whileResponding), true);
      if n == 1 then steered else Poll(Acted(steered.queues, ts.beforeFollowUps), false)
  }

  /** Whether the loop, after a turn that leaves the run open, asks for the follow-ups: nothing else calls for another turn. */
  ghost predicate AsksFollowUps(ts: TurnScript, t: Turn) {
    !HasMoreToolCalls(t) && WaitingAfter(ts, t, 1).pending == []
  }

  /** What the next turn finds. */
  ghost function Next(ts: TurnScript, t: Turn): Waiting {
    WaitingAfter(ts, t, if AsksFollowUps(ts, t) then 2 else 1)
  }

  /** After `t` the loop takes another turn: for tool results, or for messages to deliver. */
  ghost predicate AsksForAnother(ts: TurnScript, t: Turn) {
    GoesOn(t) && (HasMoreToolCalls(t) || Next(ts, t).pending != [])
  }

  /** The context when turn i comes up. */
  ghost function ContextBefore(script: RunScript, turns: seq<Turn>, context: seq<Message>, i: nat): seq<Message>
    requires i <= |turns| <= |script.turns|
  {
    if i == 0 then context else TurnContext(script.turns[i - 1], turns[i - 1])
  }

  /**
    The turns of a run that starts with `context` and finds `opening`: each follows its script
    and finds what the one before it left, and is followed by another only if something asks for one.
  */
  ghost predicate IsRunOf(script: RunScript, turns: seq<Turn>, context: seq<Message>, opening: Waiting) {
    && |turns| <= |script.turns|
    && (forall i :: 0 <= i < |turns| ==>
          IsTurnOf(script.turns[i], i == 0, ContextBefore(script, turns, context, i), turns[i]))
    && (turns != [] ==> turns[0].found == opening)
    && forall i :: 0 <= i < |turns| - 1 ==>
         AsksForAnother(script.turns[i], turns[i]) && turns[i + 1].found == Next(script.turns[i], turns[i])
  }

  /** The events of a run after its first `turn_start`. */
  ghost function RunLog(script: RunScript, turns: seq<Turn>): seq<Event>
    requires |turns| <= |script.turns|
  {
    if turns == [] then []
    else
      var n := |turns| - 1;
      RunLog(script, turns[..n]) + ((if n == 0 then [] else [TurnStart]) + TurnLog(script.turns[n], turns[n]))
  }

  /** What a run starts from. */
  datatype Origin = Origin(
    initial: AgentView, log: seq<Event>, nested: bool, messages: seq<Message>, drains: seq<Drain>,
    context: seq<Message>, newMessages: seq<Message>,
    opening: Waiting)   // what the first poll released, and left

  ghost function OriginOf(agent: Agent, context: seq<Message>, newMessages: seq<Message>, opening: Waiting): Origin
    reads agent, agent.state
  {
    Origin(agent.state.initial, agent.state.log, agent.state.Nested(), agent.state.messages, agent.drains, context, newMessages, opening)
  }

  /** How far a run got, in terms of its completed turns. */
  ghost predicate Reached(script: RunScript, turns: seq<Turn>, o: Origin, nested: bool, messages: seq<Message>,
                          log: seq<Event>, context: seq<Message>, newMessages: seq<Message>)
  {
    && IsRunOf(script, turns, o.context, o.opening)
    && (nested <==> o.nested && ObeysProtocol(script, |turns|))
    && messages == o.messages + MessagesOf(turns)
    && newMessages == o.newMessages + MessagesOf(turns)
    && context == ContextBefore(script, turns, o.context, |turns|)
    && log == o.log + RunLog(script, turns)
  }

  /** Always true: mentioning it makes the verifier look inside `Progressed`. */
  ghost predicate Expand(details: bool) { true }

  /** `Reached`, handled as a whole. */
  ghost predicate Progressed(script: RunScript, turns: seq<Turn>, o: Origin, nested: bool, messages: seq<Message>,
                             log: seq<Event>, context: seq<Message>, newMessages: seq<Message>)
  {
    && |turns| <= |script.turns|
    && forall details :: Expand(details) ==> Reached(script, turns, o, nested, messages, log, context, newMessages)
  }

  /** Every non-empty drain of the run is what one turn injected, or is about to be injected. */
  ghost predicate Delivered(drains: seq<Drain>, turns: seq<Turn>, o: Origin, pending: seq<Message>, fromSteering: bool) {
    drains == Record(Deliveries(o.drains, turns), fromSteering, pending)
  }

  lemma TurnsExtend(script: RunScript, before: seq<Drain>, turns: seq<Turn>, t: Turn)
    requires |turns| < |script.turns|
    ensures MessagesOf(turns + [t]) == MessagesOf(turns) + TurnMessages(t)
    ensures RunLog(script, turns + [t])
            == RunLog(script, turns) + ((if turns == [] then [] else [TurnStart]) + TurnLog(script.turns[|turns|], t))
    ensures Deliveries(before, turns + [t]) == Record(Deliveries(before, turns), t.steered, t.Injected())
  {
    assert (turns + [t])[..|turns|] == turns;
  }

  /** Turn `t` may come after `turns`. */
  ghost predicate MayFollow(script: RunScript, turns: seq<Turn>, context: seq<Message>, opening: Waiting, found: Waiting)
    requires |turns| <= |script.turns|
  {
    if turns == [] then found == opening
    else
      var n := |turns| - 1;
      AsksForAnother(script.turns[n], turns[n]) && found == Next(script.turns[n], turns[n])
  }

  lemma IsRunExtends(script: RunScript, turns: seq<Turn>, t: Turn, context: seq<Message>, opening: Waiting)
    requires IsRunOf(script, turns, context, opening) && |turns| < |script.turns|
    requires MayFollow(script, turns, context, opening, t.found)
    requires IsTurnOf(script.turns[|turns|], turns == [], ContextBefore(script, turns, context, |turns|), t)
    ensures IsRunOf(script, turns + [t], context, opening)
  {
    var all := turns + [t];
    forall i | 0 <= i < |all|
      ensures IsTurnOf(script.turns[i], i == 0, ContextBefore(script, all, context, i), all[i])
    {
      ContextKept(script, turns, t, context, i);
    }
    forall i | 0 <= i < |all| - 1
      ensures AsksForAnother(script.turns[i], all[i]) && all[i + 1].found == Next(script.turns[i], all[i])
    {
      assert all[i] == turns[i];
      assert i < |turns| - 1 ==> all[i + 1] == turns[i + 1];
    }
  }

  lemma ContextKept(script: RunScript, turns: seq<Turn>, t: Turn, context: seq<Message>, i: nat)
    requires i <= |turns| < |script.turns|
    ensures ContextBefore(script, turns + [t], context, i) == ContextBefore(script, turns, context, i)
    ensures (turns + [t])[i] == if i < |turns| then turns[i] else t
  {
  }

  lemma ReachedExtends(script: RunScript, turns: seq<Turn>, t: Turn, o: Origin, nested: bool, messages: seq<Message>,
                       log: seq<Event>, context: seq<Message>, newMessages: seq<Message>)
    requires Reached(script, turns, o, nested, messages, log, context, newMessages)
    requires |turns| < |script.turns| && MayFollow(script, turns, o.context, o.opening, t.found)
    requires IsTurnOf(script.turns[|turns|], turns == [], context, t)
    ensures Reached(script, turns + [t], o, nested && OneStart(script.turns[|turns|].stream), messages + TurnMessages(t),
                    log + ((if turns == [] then [] else [TurnStart]) + TurnLog(script.turns[|turns|], t)),
                    TurnContext(script.turns[|turns|], t), newMessages + TurnMessages(t))
  {
    var all := MessagesOf(turns);
    IsRunExtends(script, turns, t, o.context, o.opening);
    TurnsExtend(script, o.drains, turns, t);
    Associative(o.messages, all, TurnMessages(t));
    Associative(o.newMessages, all, TurnMessages(t));
    Associative(o.log, RunLog(script, turns), (if turns == [] then [] else [TurnStart]) + TurnLog(script.turns[|turns|], t));
  }

  /** One pass of the inner loop up to `turn_end`. */
  method TakeTurn(agent: Agent, script: RunScript, ghost turns: seq<Turn>, ghost o: Origin, i: nat,
                  pending: seq<Message>, ghost fromSteering: bool, context: seq<Message>, newMessages: seq<Message>)
    returns (context': seq<Message>, newMessages': seq<Message>, stop: bool, hasMoreToolCalls: bool, ghost turn: Turn)
    requires agent.Valid() && !agent.skipInitialSteeringPoll && i == |turns| < |script.turns|
    requires Reached(script, turns, o, agent.state.Nested(), agent.state.messages, agent.state.log, context, newMessages)
    requires Delivered(agent.drains, turns, o, pending, fromSteering)
    requires agent.state.Phase() == if turns == [] then QUIET else Between
    requires MayFollow(script, turns, o.context, o.opening, Waiting(pending, agent.Held()))
    modifies agent`polls, agent`drains, agent`skipInitialSteeringPoll, agent`deliveryFilter, agent.state, agent.steering, agent.followUp
    ensures agent.Valid() && !agent.skipInitialSteeringPoll && agent.state.Phase() == Between
    ensures agent.state.initial == old(agent.state.initial)
    ensures Reached(script, turns + [turn], o, agent.state.Nested(), agent.state.messages, agent.state.log, context', newMessages')
    ensures Delivered(agent.drains, turns + [turn], o, [], true)
    ensures turn.polls == agent.polls && turn.left == agent.Held()
    ensures hasMoreToolCalls == HasMoreToolCalls(turn) && stop == !GoesOn(turn)
  {
    var ts := script.turns[i];
    var failed, stopTurn;
    ghost var nested, messages, log := agent.state.Nested(), agent.state.messages, agent.state.log;
    context', newMessages', failed, hasMoreToolCalls, stopTurn, turn :=
      RunTurn(agent, ts, i == 0, pending, fromSteering, Deliveries(o.drains, turns), context, newMessages);
    ReachedExtends(script, turns, turn, o, nested, messages, log, context, newMessages);
    TurnsExtend(script, o.drains, turns, turn);
    stop := failed || stopTurn || ts.stopAfterTurn;
  }

  /** Between two turns: what waits, told from the last turn and from how often the queues were drained since. */
  ghost predicate IsStanding(script: RunScript, turns: seq<Turn>, opening: Waiting, w: Waiting, polls: nat)
    requires |turns| <= |script.turns|
  {
    if turns == [] then w == opening
    else
      var ts, t := script.turns[|turns|-1], turns[|turns|-1];
      && t.polls <= polls <= t.polls + 2 && w == WaitingAfter(ts, t, polls - t.polls)
      && (polls == t.polls + 2 ==> AsksFollowUps(ts, t))
  }

  /** After the last turn steering is polled, and then, when nothing calls for another turn, the follow-ups. */
  lemma StandingMoves(script: RunScript, turns: seq<Turn>, opening: Waiting, w: Waiting, polls: nat)
    requires turns != [] && |turns| <= |script.turns| && IsStanding(script, turns, opening, w, polls) && w.pending == []
    ensures var ts, t := script.turns[|turns|-1], turns[|turns|-1];
            && (polls == t.polls ==>
                  IsStanding(script, turns, opening, Poll(Acted(w.queues, ts.whileResponding), true), polls + 1))
            && (polls == t.polls + 1 && !HasMoreToolCalls(t) ==>
                  IsStanding(script, turns, opening, Poll(Acted(w.queues, ts.beforeFollowUps), false), polls + 1))
  {
  }

  /** Where the loop stands between two turns. The verifier looks inside only where `Unfold` is mentioned. */
  ghost predicate AtTurn(agent: Agent, script: RunScript, turns: seq<Turn>, o: Origin, pending: seq<Message>,
                         fromSteering: bool, context: seq<Message>, newMessages: seq<Message>)
    reads agent, agent.state, agent.steering, agent.followUp
  {
    forall details :: Unfold(details) ==>
      && agent.Valid() && !agent.skipInitialSteeringPoll && agent.state.initial == o.initial
      && Progressed(script, turns, o, agent.state.Nested(), agent.state.messages, agent.state.log, context, newMessages)
      && Delivered(agent.drains, turns, o, pending, fromSteering)
      && IsStanding(script, turns, o.opening, Waiting(pending, agent.Held()), agent.polls)
      && agent.state.Phase() == if turns == [] then QUIET else Between
  }

  /** The host acts, and then one of the queues is drained. */
  method PollAfter(agent: Agent, actions: seq<HostAction>, steering: bool) returns (pending: seq<Message>)
    requires agent.Valid() && !agent.skipInitialSteeringPoll
    modifies agent`polls, agent`drains, agent`skipInitialSteeringPoll, agent`deliveryFilter, agent.steering, agent.followUp
    ensures agent.Valid() && !agent.skipInitialSteeringPoll && agent.polls == old(agent.polls) + 1
    ensures Waiting(pending, agent.Held()) == Poll(Acted(old(agent.Held()), actions), steering)
    ensures agent.drains == Record(old(agent.drains), steering, pending)
  {
    agent.Host(actions);
    if steering {
      pending := agent.GetSteeringMessages();
    } else {
      pending := agent.GetFollowUpMessages();
    }
  }

  /** The steering poll after a turn that does not end the run. */
  method PollSteering(agent: Agent, script: RunScript, ghost before: seq<Turn>, ghost turn: Turn, ghost o: Origin,
                      ghost context: seq<Message>, ghost newMessages: seq<Message>, i: nat)
    returns (pending: seq<Message>)
    requires i == |before| < |script.turns| && agent.polls == turn.polls
    requires AtTurn(agent, script, before + [turn], o, [], true, context, newMessages)
    modifies agent`polls, agent`drains, agent`skipInitialSteeringPoll, agent`deliveryFilter, agent.steering, agent.followUp
    ensures AtTurn(agent, script, before + [turn], o, pending, true, context, newMessages)
    ensures agent.polls == old(agent.polls) + 1
  {
    assert Unfold(true);
    StandingMoves(script, before + [turn], o.opening, Waiting([], agent.Held()), agent.polls);
    pending := PollAfter(agent, script.turns[i].whileResponding, true);
  }

  /** The last turn settled what comes next: the run stops, or tool results and steering decide. */
  ghost predicate Decided(turns: seq<Turn>, stop: bool, hasMoreToolCalls: bool, pending: seq<Message>, polls: nat) {
    && turns != []
    && var last := turns[|turns|-1];
       && stop == !GoesOn(last)
       && hasMoreToolCalls == HasMoreToolCalls(last)
       && polls == last.polls + (if stop then 0 else 1)
       && (stop ==> pending == [])
  }

  /** The last turn, if there is one, leaves the run open, and after the polls since then something asks for another. */
  ghost predicate MayGoOn(turns: seq<Turn>, pending: seq<Message>, polls: nat) {
    turns != [] ==>
      var last := turns[|turns|-1];
      GoesOn(last) && polls > last.polls && (HasMoreToolCalls(last) || pending != [])
  }

  lemma GoingOn(script: RunScript, turns: seq<Turn>, context: seq<Message>, opening: Waiting, w: Waiting, polls: nat)
    requires |turns| <= |script.turns| && IsStanding(script, turns, opening, w, polls) && MayGoOn(turns, w.pending, polls)
    ensures MayFollow(script, turns, context, opening, w)
  {
  }

  /** One pass of the inner loop. */
  method TurnStep(agent: Agent, script: RunScript, ghost turns: seq<Turn>, ghost o: Origin, i: nat,
                  pending: seq<Message>, ghost fromSteering: bool, context: seq<Message>, newMessages: seq<Message>)
    returns (context': seq<Message>, newMessages': seq<Message>, stop: bool, hasMoreToolCalls: bool,
             pending': seq<Message>, ghost turns': seq<Turn>)
    requires AtTurn(agent, script, turns, o, pending, fromSteering, context, newMessages)
    requires i == |turns| < |script.turns| && MayGoOn(turns, pending, agent.polls)
    modifies agent`polls, agent`drains, agent`skipInitialSteeringPoll, agent`deliveryFilter, agent.state, agent.steering, agent.followUp
    ensures AtTurn(agent, script, turns', o, pending', true, context', newMessages')
    ensures |turns'| == i + 1 && Decided(turns', stop, hasMoreToolCalls, pending', agent.polls)
  {
    assert Unfold(true) && Expand(true);
    ghost var turn;
    GoingOn(script, turns, o.context, o.opening, Waiting(pending, agent.Held()), agent.polls);
    context', newMessages', stop, hasMoreToolCalls, turn :=
      TakeTurn(agent, script, turns, o, i, pending, fromSteering, context, newMessages);
    turns', pending' := turns + [turn], [];
    if !stop {
      pending' := PollSteering(agent, script, turns, turn, o, context', newMessages', i);
    }
  }

  /** How a run ended: why no further turn followed, and how the queues were left. */
  ghost predicate IsEnd(last: Turn, polls: nat) {
    if GoesOn(last) then !HasMoreToolCalls(last) && polls == last.polls + 2   // both queues had nothing to deliver
    else polls == last.polls                                                  // neither queue was drained again
  }

  /**
    The inner loop: turns follow each other while tool results or steering ask for one.
    It ends by stopping the run, by using up the script, or with nothing left to do.
  */
  method RunTurns(agent: Agent, script: RunScript, ghost turns: seq<Turn>, ghost o: Origin, i: nat,
                  pending: seq<Message>, ghost fromSteering: bool, context: seq<Message>, newMessages: seq<Message>)
    returns (i': nat, context': seq<Message>, newMessages': seq<Message>, stop: bool, cut: bool,
             pending': seq<Message>, ghost fromSteering': bool, ghost turns': seq<Turn>)
    requires AtTurn(agent, script, turns, o, pending, fromSteering, context, newMessages)
    requires i == |turns| <= |script.turns| && MayGoOn(turns, pending, agent.polls)
    modifies agent`polls, agent`drains, agent`skipInitialSteeringPoll, agent`deliveryFilter, agent.state, agent.steering, agent.followUp
    ensures AtTurn(agent, script, turns', o, pending', fromSteering', context', newMessages')
    ensures i <= i' == |turns'| <= |script.turns|
    ensures cut ==> i' == |script.turns| && MayGoOn(turns', pending', agent.polls)
    ensures !cut ==> i < i' && pending' == [] && stop == !GoesOn(turns'[i' - 1])
    ensures !cut ==> IsEnd(turns'[i' - 1], agent.polls + if stop then 0 else 1)
  {
    i', context', newMessages', stop, cut, pending' := i, context, newMessages, false, false, pending;
    fromSteering', turns' := fromSteering, turns;
    var hasMoreToolCalls := true;
    while hasMoreToolCalls || pending' != []
      invariant AtTurn(agent, script, turns', o, pending', fromSteering', context', newMessages')
      invariant i <= i' == |turns'| <= |script.turns|
      invariant i' == i ==> hasMoreToolCalls && MayGoOn(turns', pending', agent.polls)
      invariant i' > i ==> Decided(turns', false, hasMoreToolCalls, pending', agent.polls)
      decreases |script.turns| - i'
    {
      if i' == |script.turns| {
        cut := true;
        return;
      }
      context', newMessages', stop, hasMoreToolCalls, pending', turns' :=
        TurnStep(agent, script, turns', o, i', pending', fromSteering', context', newMessages');
      i', fromSteering' := i' + 1, true;
      if stop {
        return;
      }
    }
  }

  /**
    What the first turn finds, once the host has acted: nothing is drained for it if that
    poll is to be skipped, and otherwise what the steering queue then releases.
  */
  ghost function FirstWaiting(skips: bool, q: Queues, actions: seq<HostAction>): Waiting {
    if skips then Waiting([], Acted(q, actions)) else Poll(Acted(q, actions), true)
  }

  /** The first poll releases something exactly when a message that may be delivered waits for it. */
  lemma FirstPollReleases(skips: bool, q: Queues, actions: seq<HostAction>)
    ensures FirstWaiting(skips, q, actions).pending != []
            <==> !skips && !NoneDeliverable(Acted(q, actions).steering, Acted(q, actions).filter)
  {
    var waiting := Acted(q, actions);
    DrainReleases(waiting.steering, waiting.steeringMode, waiting.filter);
  }

  /** Host actions and the steering poll before the first turn. */
  method FirstPoll(agent: Agent, script: RunScript, ghost context: seq<Message>, ghost newMessages: seq<Message>)
    returns (pending: seq<Message>, ghost o: Origin)
    requires agent.Valid() && agent.state.Phase() == QUIET
    modifies agent`polls, agent`drains, agent`skipInitialSteeringPoll, agent`deliveryFilter, agent.steering, agent.followUp
    ensures o == old(OriginOf(agent, context, newMessages, FirstWaiting(agent.skipInitialSteeringPoll, agent.Held(), script.beforeFirstPoll)))
    ensures AtTurn(agent, script, [], o, pending, true, context, newMessages)
  {
    o := OriginOf(agent, context, newMessages, FirstWaiting(agent.skipInitialSteeringPoll, agent.Held(), script.beforeFirstPoll));
    agent.Host(script.beforeFirstPoll);
    pending := agent.GetSteeringMessages();
  }

  /** `agent_end`. */
  method Conclude(agent: Agent, script: RunScript, ghost turns: seq<Turn>, ghost o: Origin, ghost fromSteering: bool,
                  ghost context: seq<Message>, newMessages: seq<Message>)
    requires AtTurn(agent, script, turns, o, [], fromSteering, context, newMessages) && turns != []
    modifies agent.state
    ensures Ended(agent, script, turns, o, fromSteering, context, newMessages)
  {
    assert Unfold(true);
    ghost var log := agent.state.log;
    agent.state.ProcessEvents(AgentEnd(newMessages));
    assert agent.state.log[..|agent.state.log|-1] == log;
  }

  /** What is known when the run is over. The verifier looks inside only where `Unfold` is mentioned. */
  ghost predicate Ended(agent: Agent, script: RunScript, turns: seq<Turn>, o: Origin, fromSteering: bool,
                        context: seq<Message>, newMessages: seq<Message>)
    reads agent, agent.state, agent.steering, agent.followUp
  {
    forall details :: Unfold(details) ==>
      && agent.Valid() && agent.state.initial == o.initial
      && agent.state.log != [] && agent.state.log[|agent.state.log|-1] == AgentEnd(newMessages)
      && Progressed(script, turns, o, agent.state.Nested(), agent.state.messages,
                    agent.state.log[..|agent.state.log|-1], context, newMessages)
      && Delivered(agent.drains, turns, o, [], fromSteering)
      && IsStanding(script, turns, o.opening, Waiting([], agent.Held()), agent.polls)
      && agent.state.Phase() == Done
  }

  /**
    The loop. `finished` says that the run came to its end within the script; otherwise
    `pending` holds what was drained for the turn that would come next.
  */
  method RunLoop(agent: Agent, context: seq<Message>, newMessages: seq<Message>, script: RunScript)
    returns (context': seq<Message>, newMessages': seq<Message>, finished: bool, pending: seq<Message>,
             ghost fromSteering: bool, ghost turns: seq<Turn>, ghost o: Origin)
    requires agent.Valid() && agent.state.Phase() == QUIET
    modifies agent`polls, agent`drains, agent`skipInitialSteeringPoll, agent`deliveryFilter, agent.state, agent.steering, agent.followUp
    ensures o == old(OriginOf(agent, context, newMessages, FirstWaiting(agent.skipInitialSteeringPoll, agent.Held(), script.beforeFirstPoll)))
    ensures if finished then Ended(agent, script, turns, o, fromSteering, context', newMessages')
            else AtTurn(agent, script, turns, o, pending, fromSteering, context', newMessages')
    ensures finished ==> turns != [] && pending == [] && IsEnd(turns[|turns|-1], agent.polls)
    ensures !finished ==> |turns| == |script.turns| && MayGoOn(turns, pending, agent.polls)
  {
    pending, o := FirstPoll(agent, script, context, newMessages);
    var cut;
    context', newMessages', cut, pending, fromSteering, turns :=
      RunRounds(agent, script, o, pending, context, newMessages);
    finished := !cut;
    if finished {
      Conclude(agent, script, turns, o, fromSteering, context', newMessages');
    }
  }

  /** The outer loop: after each round of turns the follow-up queue is polled, until there is nothing to go on with. */
  method RunRounds(agent: Agent, script: RunScript, ghost o: Origin, first: seq<Message>,
                   context: seq<Message>, newMessages: seq<Message>)
    returns (context': seq<Message>, newMessages': seq<Message>, cut: bool, pending: seq<Message>,
             ghost fromSteering: bool, ghost turns: seq<Turn>)
    requires AtTurn(agent, script, [], o, first, true, context, newMessages)
    modifies agent`polls, agent`drains, agent`skipInitialSteeringPoll, agent`deliveryFilter, agent.state, agent.steering, agent.followUp
    ensures AtTurn(agent, script, turns, o, pending, fromSteering, context', newMessages')
    ensures if cut then |turns| == |script.turns| && MayGoOn(turns, pending, agent.polls)
            else turns != [] && pending == [] && IsEnd(turns[|turns|-1], agent.polls)
  {
    context', newMessages', pending, fromSteering, turns := context, newMessages, first, true, [];
    var i, stop := 0, false;
    while true
      invariant AtTurn(agent, script, turns, o, pending, fromSteering, context', newMessages')
      invariant i == |turns| <= |script.turns| && MayGoOn(turns, pending, agent.polls)
      decreases |script.turns| - i
    {
      i, context', newMessages', stop, cut, pending, fromSteering, turns :=
        RunTurns(agent, script, turns, o, i, pending, fromSteering, context', newMessages');
      if cut || stop {
        return;
      }
      pending := PollFollowUps(agent, script, turns, o, fromSteering, context', newMessages', i - 1);
      fromSteering := false;
      if pending == [] {
        return;
      }
    }
  }

  /** The follow-up poll when the agent would otherwise stop. */
  method PollFollowUps(agent: Agent, script: RunScript, ghost turns: seq<Turn>, ghost o: Origin, ghost fromSteering: bool,
                       ghost context: seq<Message>, ghost newMessages: seq<Message>, i: nat)
    returns (pending: seq<Message>)
    requires i == |turns| - 1 < |script.turns| && turns != []
    requires AtTurn(agent, script, turns, o, [], fromSteering, context, newMessages)
    requires agent.polls == turns[i].polls + 1 && !HasMoreToolCalls(turns[i])
    modifies agent`polls, agent`drains, agent`skipInitialSteeringPoll, agent`deliveryFilter, agent.steering, agent.followUp
    ensures AtTurn(agent, script, turns, o, pending, false, context, newMessages)
    ensures agent.polls == old(agent.polls) + 1
  {
    assert Unfold(true);
    StandingMoves(script, turns, o.opening, Waiting([], agent.Held()), agent.polls);
    pending := PollAfter(agent, script.turns[i].beforeFollowUps, false);
  }
}
