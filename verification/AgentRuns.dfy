/**
  Whole runs: `prompt` and `continue` of the `Agent`, from the lifecycle bookkeeping
  around the loop to what a finished run leaves behind.
*/
module AgentRuns {
  import opened AgentEvents
  import opened AgentLoop
  import opened Agents
  import opened PendingQueue
  import opened ProviderStreams
  import opened Sequences
  import opened ToolBatches
  import opened ToolCalls
  import opened Wrappers

  /** Everything the host sees of a run. */
  ghost function RunEvents(script: RunScript, prompts: seq<Message>, turns: seq<Turn>, newMessages: seq<Message>, finished: bool): seq<Event>
    requires |turns| <= |script.turns|
  {
    [AgentStart, TurnStart] + MessageEvents(prompts) + RunLog(script, turns) + if finished then [AgentEnd(newMessages)] else []
  }

  /**
    How a run is left: it is finished exactly when a turn came after which nothing asks for
    another, and what waits then, or for the turn that would come next, is what the last turn
    and the polls after it leave.
  */
  ghost predicate IsRest(script: RunScript, turns: seq<Turn>, opening: Waiting, finished: bool, w: Waiting)
    requires |turns| <= |script.turns|
  {
    if turns == [] then !finished && w == opening
    else
      var ts, t := script.turns[|turns|-1], turns[|turns|-1];
      && (finished <==> !AsksForAnother(ts, t))
      && w == if GoesOn(t) then Next(ts, t) else Waiting([], t.left)
  }

  /**
    What a run started with `prompts` has done so far, or, when `finished`, altogether. The
    verifier looks inside only where `Unfold` is mentioned.
  */
  ghost predicate RunOutcome(agent: Agent, script: RunScript, prompts: seq<Message>, turns: seq<Turn>, initial: AgentView, opening: Waiting,
                             newMessages: seq<Message>, finished: bool, pending: seq<Message>, fromSteering: bool)
    reads agent, agent.state, agent.steering, agent.followUp
  {
    forall details :: Unfold(details) ==>
      && agent.Valid() && agent.state.initial == initial
      && |turns| <= |script.turns| && IsRunOf(script, turns, initial.messages + prompts, opening)
      && (if finished then turns != [] && pending == [] else |turns| == |script.turns|)
      && IsRest(script, turns, opening, finished, Waiting(pending, agent.Held()))
      // The two message lists, built independently, agree.
      && newMessages == prompts + MessagesOf(turns)
      && agent.state.messages == initial.messages + newMessages
      && agent.state.log == RunEvents(script, prompts, turns, newMessages, finished)
      // Every non-empty drain was injected by one turn, in order; at most the last one still waits.
      && agent.drains == Record(Deliveries([], turns), fromSteering, pending)
      // The messages nest exactly when every response so far started one message.
      && (agent.state.Nested() <==> ObeysProtocol(script, |turns|))
      // The log is a complete run, or stands inside the first turn or between two turns.
      && agent.state.Phase() == (if finished then Done else if turns == [] then QUIET else Between)
      && (finished ==> IsEnd(turns[|turns|-1], agent.polls))
  }

  /** `agent_start`, `turn_start` and the prompts, after which the first turn is under way. */
  method OpenRun(agent: Agent, prompts: seq<Message>) returns (context: seq<Message>, newMessages: seq<Message>)
    requires agent.state.Phase() == Fresh && agent.state.log == []
    modifies agent.state
    ensures agent.state.Phase() == QUIET && agent.state.initial == old(agent.state.initial) && agent.state.Nested()
    ensures agent.state.log == [AgentStart, TurnStart] + MessageEvents(prompts)
    ensures agent.state.messages == old(agent.state.messages) + prompts
    ensures newMessages == prompts && context == old(agent.state.messages) + prompts
  {
    assert agent.state.Nested();
    context := agent.state.messages;
    agent.state.ProcessEvents(AgentStart);
    agent.state.ProcessEvents(TurnStart);
    context, newMessages := InjectPending(agent.state, prompts, context, []);
  }

  lemma RestOfRun(script: RunScript, turns: seq<Turn>, opening: Waiting, finished: bool, w: Waiting, polls: nat)
    requires |turns| <= |script.turns| && IsStanding(script, turns, opening, w, polls)
    requires if finished then turns != [] && w.pending == [] && IsEnd(turns[|turns|-1], polls) else MayGoOn(turns, w.pending, polls)
    ensures IsRest(script, turns, opening, finished, w)
  {
  }

  lemma EventsOfRun(script: RunScript, prompts: seq<Message>, turns: seq<Turn>, newMessages: seq<Message>, finished: bool,
                    before: seq<Event>, log: seq<Event>)
    requires |turns| <= |script.turns| && before == [AgentStart, TurnStart] + MessageEvents(prompts)
    requires if finished then log != [] && log[|log|-1] == AgentEnd(newMessages) && log[..|log|-1] == before + RunLog(script, turns)
             else log == before + RunLog(script, turns)
    ensures log == RunEvents(script, prompts, turns, newMessages, finished)
  {
    if finished {
      assert log == log[..|log|-1] + [AgentEnd(newMessages)];
    } else {
      assert log == before + RunLog(script, turns) + [];
    }
  }

  /** What a run that opened with `prompts` and went through the loop amounts to. */
  lemma OutcomeOfRun(agent: Agent, script: RunScript, prompts: seq<Message>, turns: seq<Turn>, o: Origin,
                     context: seq<Message>, newMessages: seq<Message>, finished: bool, pending: seq<Message>, fromSteering: bool)
    requires o.messages == o.context == o.initial.messages + prompts && o.newMessages == prompts
    requires o.log == [AgentStart, TurnStart] + MessageEvents(prompts) && o.drains == [] && o.nested
    requires if finished then Ended(agent, script, turns, o, fromSteering, context, newMessages)
             else AtTurn(agent, script, turns, o, pending, fromSteering, context, newMessages)
    requires finished ==> turns != [] && pending == [] && IsEnd(turns[|turns|-1], agent.polls)
    requires !finished ==> |turns| == |script.turns| && MayGoOn(turns, pending, agent.polls)
    ensures RunOutcome(agent, script, prompts, turns, o.initial, o.opening, newMessages, finished, pending, fromSteering)
  {
    assert Unfold(true) && Expand(true);
    Associative(o.initial.messages, prompts, MessagesOf(turns));
    RestOfRun(script, turns, o.opening, finished, Waiting(pending, agent.Held()), agent.polls);
    EventsOfRun(script, prompts, turns, newMessages, finished, o.log, agent.state.log);
  }

  /** A fresh run of the loop. */
  method RunAgentLoop(agent: Agent, prompts: seq<Message>, script: RunScript)
    returns (newMessages: seq<Message>, finished: bool, pending: seq<Message>, ghost fromSteering: bool, ghost turns: seq<Turn>)
    requires agent.Valid() && agent.state.Phase() == Fresh && agent.state.log == [] && agent.drains == []
    requires agent.state.initial == agent.state.View()
    modifies agent`polls, agent`drains, agent`skipInitialSteeringPoll, agent`deliveryFilter, agent.state,
             agent.steering, agent.followUp
    ensures RunOutcome(agent, script, prompts, turns, old(agent.state.initial),
                       old(FirstWaiting(agent.skipInitialSteeringPoll, agent.Held(), script.beforeFirstPoll)),
                       newMessages, finished, pending, fromSteering)
  {
    var context;
    ghost var o;
    context, newMessages := OpenRun(agent, prompts);
    context, newMessages, finished, pending, fromSteering, turns, o := RunLoop(agent, context, newMessages, script);
    OutcomeOfRun(agent, script, prompts, turns, o, context, newMessages, finished, pending, fromSteering);
  }

  /** Why `prompt` and `continue` refuse to start a run. */
  datatype Refusal = AlreadyProcessing | NothingToContinueFrom | CannotContinueFromAssistant

  datatype Started = Refused(why: Refusal) | Running(prompts: seq<Message>, newMessages: seq<Message>, finished: bool)

  /**
    The log of a run: accepted, complete when the run finished, strictly accepted exactly
    when every response so far obeyed the provider protocol, and with no tool call pending
    for the host at any turn_end.
  */
  ghost predicate IsLogOf(initial: AgentView, log: seq<Event>, script: RunScript, turns: seq<Turn>, finished: bool) {
    && |turns| <= |script.turns|
    && WatchAll(false, Fresh, log) != Broken
    && (finished ==> WatchAll(false, Fresh, log) == Done)
    && (WatchAll(true, Fresh, log) != Broken <==> ObeysProtocol(script, |turns|))
    && forall k :: 0 <= k < |log| && log[k].TurnEnd? ==> Fold(initial, log[..k + 1]).pendingToolCalls == {}
  }

  lemma LogOfRun(s: AgentView, log: seq<Event>, script: RunScript, turns: seq<Turn>, finished: bool)
    requires s.pendingToolCalls == {} && s.streaming == None
    requires |turns| <= |script.turns| && WatchAll(false, Fresh, log) != Broken
    requires finished ==> WatchAll(false, Fresh, log) == Done
    requires WatchAll(true, Fresh, log) != Broken <==> ObeysProtocol(script, |turns|)
    ensures IsLogOf(s, log, script, turns, finished)
  {
    forall k | 0 <= k < |log| && log[k].TurnEnd? ensures Fold(s, log[..k + 1]).pendingToolCalls == {} {
      NothingPendingAtTurnEnd(false, s, log, k);
    }
  }

  /** The first turn is joined by steering exactly when the first poll, if not skipped, finds some that may be delivered. */
  ghost predicate FirstTurnIsPolled(skips: bool, q: Queues, script: RunScript, turns: seq<Turn>) {
    turns != [] ==>
      (turns[0].Injected() != [] <==>
       !skips && !NoneDeliverable(Acted(q, script.beforeFirstPoll).steering, Acted(q, script.beforeFirstPoll).filter))
  }

  /** What a run's first turn delivers is what was drained for it, whatever the hooks of that turn do. */
  lemma FirstTurnDelivers(skips: bool, q: Queues, script: RunScript, turns: seq<Turn>, context: seq<Message>)
    requires IsRunOf(script, turns, context, FirstWaiting(skips, q, script.beforeFirstPoll))
    ensures FirstTurnIsPolled(skips, q, script, turns)
    ensures turns != [] ==> turns[0].Injected() == FirstWaiting(skips, q, script.beforeFirstPoll).pending
  {
    FirstPollReleases(skips, q, script.beforeFirstPoll);
    if turns != [] {
      assert IsTurnOf(script.turns[0], true, context, turns[0]);
      assert turns[0].early + [] == turns[0].early;
    }
  }

  /**
    What a started run leaves behind: its turns follow the script, its log is all their events,
    every non-empty drain was injected by one turn, in order, and only the last may wait, in a
    run that is cut off. The verifier looks inside only where `Unfold` is mentioned.
  */
  ghost predicate IsRecord(script: RunScript, prompts: seq<Message>, turns: seq<Turn>, opening: Waiting,
                           newMessages: seq<Message>, finished: bool, pending: seq<Message>, fromSteering: bool,
                           initial: AgentView, messages: seq<Message>, log: seq<Event>, drains: seq<Drain>, held: Queues)
  {
    forall details :: Unfold(details) ==>
      && |turns| <= |script.turns| && IsRunOf(script, turns, initial.messages + prompts, opening)
      && (turns == [] ==> script.turns == [])
      && IsRest(script, turns, opening, finished, Waiting(pending, held))
      && newMessages == prompts + MessagesOf(turns) && messages == initial.messages + newMessages
      && log == RunEvents(script, prompts, turns, newMessages, finished)
      && IsLogOf(initial, log, script, turns, finished)
      && drains == Record(Deliveries([], turns), fromSteering, pending)
      && (finished ==> pending == [])
  }

  ghost predicate Recorded(agent: Agent, script: RunScript, prompts: seq<Message>, turns: seq<Turn>, opening: Waiting,
                           newMessages: seq<Message>, finished: bool, pending: seq<Message>, fromSteering: bool)
    reads agent, agent.state, agent.steering, agent.followUp
  {
    IsRecord(script, prompts, turns, opening, newMessages, finished, pending, fromSteering,
             agent.state.initial, agent.state.messages, agent.state.log, agent.drains, agent.Held())
  }

  lemma OutcomeIsRecorded(agent: Agent, script: RunScript, prompts: seq<Message>, turns: seq<Turn>, initial: AgentView,
                          opening: Waiting, newMessages: seq<Message>, finished: bool, pending: seq<Message>, fromSteering: bool)
    requires RunOutcome(agent, script, prompts, turns, initial, opening, newMessages, finished, pending, fromSteering)
    requires initial.pendingToolCalls == {} && initial.streaming == None
    ensures agent.Valid() && agent.state.initial == initial
    ensures Recorded(agent, script, prompts, turns, opening, newMessages, finished, pending, fromSteering)
  {
    assert Unfold(true);
    LogOfRun(initial, agent.state.log, script, turns, finished);
  }

  /** The run itself, before its end is recorded. */
  method ExecuteRun(agent: Agent, prompts: seq<Message>, skipInitialSteeringPoll: bool, script: RunScript)
    returns (newMessages: seq<Message>, finished: bool, pending: seq<Message>, ghost fromSteering: bool, ghost turns: seq<Turn>)
    requires agent.Valid() && !agent.running && agent.state.pendingToolCalls == {}
    modifies agent, agent.state, agent.steering, agent.followUp
    ensures agent.running
    ensures agent.Valid()
    ensures Recorded(agent, script, prompts, turns, old(FirstWaiting(skipInitialSteeringPoll, agent.Held(), script.beforeFirstPoll)),
                     newMessages, finished, pending, fromSteering)
    ensures agent.state.initial.messages == old(agent.state.messages)
    ensures agent.steeredBefore == old(agent.steering.delivered) && agent.followedBefore == old(agent.followUp.delivered)
  {
    agent.BeginRun(skipInitialSteeringPoll);
    ghost var initial, opening := agent.state.initial, FirstWaiting(skipInitialSteeringPoll, agent.Held(), script.beforeFirstPoll);
    newMessages, finished, pending, fromSteering, turns := RunAgentLoop(agent, prompts, script);
    OutcomeIsRecorded(agent, script, prompts, turns, initial, opening, newMessages, finished, pending, fromSteering);
  }

  /** The run of `runWithLifecycle` around the loop. */
  method RunPromptMessages(agent: Agent, prompts: seq<Message>, skipInitialSteeringPoll: bool, script: RunScript)
    returns (r: Started, ghost pending: seq<Message>, ghost fromSteering: bool, ghost turns: seq<Turn>)
    requires agent.Valid() && !agent.running && agent.state.pendingToolCalls == {}
    modifies agent, agent.state, agent.steering, agent.followUp
    ensures r.Running? && r.prompts == prompts && agent.Valid()
    ensures agent.running == !r.finished
    ensures agent.state.initial.messages == old(agent.state.messages)
    ensures Recorded(agent, script, prompts, turns, old(FirstWaiting(skipInitialSteeringPoll, agent.Held(), script.beforeFirstPoll)),
                     r.newMessages, r.finished, pending, fromSteering)
    ensures agent.steeredBefore == old(agent.steering.delivered) && agent.followedBefore == old(agent.followUp.delivered)
    ensures r.finished ==> agent.state.pendingToolCalls == {} && agent.state.streaming == None
  {
    var newMessages, finished, waiting;
    newMessages, finished, waiting, fromSteering, turns := ExecuteRun(agent, prompts, skipInitialSteeringPoll, script);
    pending := waiting;
    if finished {
      agent.FinishRun();
    }
    r := Running(prompts, newMessages, finished);
  }

  /** Start a run from new messages. */
  method Prompt(agent: Agent, messages: seq<Message>, script: RunScript)
    returns (r: Started, ghost turns: seq<Turn>, ghost pending: seq<Message>, ghost fromSteering: bool)
    requires agent.Valid() && (!agent.running ==> agent.state.pendingToolCalls == {})
    modifies agent, agent.state, agent.steering, agent.followUp
    ensures agent.Valid() && (old(agent.running) <==> r == Refused(AlreadyProcessing)) && (r.Running? <==> !old(agent.running))
    ensures r.Refused? ==> agent.state.View() == old(agent.state.View()) && agent.state.log == old(agent.state.log)
                           && agent.Held() == old(agent.Held())
    ensures r.Running? ==> r.prompts == messages && agent.state.initial.messages == old(agent.state.messages)
    ensures r.Running? ==>
              Recorded(agent, script, messages, turns, old(FirstWaiting(false, agent.Held(), script.beforeFirstPoll)),
                       r.newMessages, r.finished, pending, fromSteering)
    ensures r.Running? ==>
              agent.steeredBefore == old(agent.steering.delivered) && agent.followedBefore == old(agent.followUp.delivered)
  {
    if agent.running {
      return Refused(AlreadyProcessing), [], [], false;
    }
    r, pending, fromSteering, turns := RunPromptMessages(agent, messages, false, script);
  }

  /** Queued messages for a new run: steering first, and follow-ups only when no steering may be delivered. */
  ghost function Taken(q: Queues): Waiting {
    if Release(q, true) != [] then Poll(q, true) else Poll(Polled(q, true), false)
  }

  /**
    Take the queued messages that may be delivered now: steering first, follow-ups only
    when no steering may be delivered.
  */
  method TakeQueued(agent: Agent) returns (queued: seq<Message>, steered: bool)
    requires agent.Valid()
    modifies agent`polls, agent`drains, agent.steering, agent.followUp
    ensures agent.Valid() && (steered ==> queued != [])
    ensures Waiting(queued, agent.Held()) == Taken(old(agent.Held())) && steered == (Release(old(agent.Held()), true) != [])
    ensures steered <==> !NoneDeliverable(old(agent.steering.messages), agent.deliveryFilter)
    ensures queued == [] ==> NoneDeliverable(old(agent.followUp.messages), agent.deliveryFilter)
    ensures agent.steering.delivered == old(agent.steering.delivered) + (if steered then queued else [])
    ensures agent.followUp.delivered == old(agent.followUp.delivered) + (if steered then [] else queued)
  {
    queued := agent.DrainSteering();
    steered := queued != [];
    if !steered {
      queued := agent.GetFollowUpMessages();
    }
  }

  /** What `continue` takes from the queues before it starts a run. */
  ghost function TakenFor(last: Message, deliverQueued: bool, q: Queues): Waiting {
    if last.Assistant? || deliverQueued then Taken(q) else Waiting([], q)
  }

  /**
    Start a run from the transcript or from queued messages. Queued steering goes first
    and then fills the first turn alone. Queued follow-ups are taken only when no steering
    may be delivered; they are joined by steering in the first turn exactly when, after
    what the host did before the first poll, some steering may be delivered.
  */
  method Continue(agent: Agent, deliverQueued: bool, script: RunScript)
    returns (r: Started, ghost turns: seq<Turn>, ghost pending: seq<Message>, ghost fromSteering: bool)
    requires agent.Valid() && (!agent.running ==> agent.state.pendingToolCalls == {})
    modifies agent, agent.state, agent.steering, agent.followUp
    ensures agent.Valid() && (old(agent.running) <==> r == Refused(AlreadyProcessing))
    ensures !old(agent.running) ==> (old(agent.state.messages) == [] <==> r == Refused(NothingToContinueFrom))
    ensures !old(agent.running) && old(agent.state.messages) != [] ==>
              var last := old(agent.state.messages)[|old(agent.state.messages)|-1];
              var taken := TakenFor(last, deliverQueued, old(agent.Held()));
              && (r == Refused(CannotContinueFromAssistant) <==> last.Assistant? && taken.pending == [])
              && (r.Running? <==> r != Refused(CannotContinueFromAssistant))
              && (r.Running? ==>
                    var skips := taken.pending != [] && Release(old(agent.Held()), true) != [];
                    && r.prompts == taken.pending && agent.state.initial.messages == old(agent.state.messages)
                    && Recorded(agent, script, r.prompts, turns, FirstWaiting(skips, taken.queues, script.beforeFirstPoll),
                                r.newMessages, r.finished, pending, fromSteering)
                    && agent.steeredBefore == old(agent.steering.delivered) + (if skips then r.prompts else [])
                    && agent.followedBefore == old(agent.followUp.delivered) + (if skips then [] else r.prompts))
    ensures r.Refused? ==> agent.state.View() == old(agent.state.View())
  {
    turns, pending, fromSteering := [], [], false;
    if agent.running {
      return Refused(AlreadyProcessing), [], [], false;
    }
    if agent.state.messages == [] {
      return Refused(NothingToContinueFrom), [], [], false;
    }
    var last := agent.state.messages[|agent.state.messages|-1];
    if last.Assistant? || deliverQueued {
      var queued, steered := TakeQueued(agent);
      if queued != [] {
        r, pending, fromSteering, turns := RunPromptMessages(agent, queued, steered, script);
        return;
      }
      if last.Assistant? {
        return Refused(CannotContinueFromAssistant), [], [], false;
      }
    }
    r, pending, fromSteering, turns := RunPromptMessages(agent, [], false, script);
  }

  /** A turn in which the model answers at once and calls no tool. */
  function Answer(m: AssistantMessage): TurnScript {
    var call := CallScript(Preparation(true, true, NoHook, false), [], Returned(ERROR), NoFailure, NoAfter, NoTransform, false);
    TurnScript([], None, false, [], None, false, ProviderStream([Final(m)], "", false), false, (_: nat) => call, false, [], [])
  }

  /** Two drains meet: a follow-up starts the run, and steering queued before the first poll joins it in the first turn. */
  method FollowUpMeetsSteering() returns (r: Started, ghost turns: seq<Turn>)
    ensures r.Running? && r.prompts == [User(1)] && turns != [] && turns[0].Injected() != []
  {
    var agent := new Agent(OneAtATime, OneAtATime, [User(0)]);
    assert agent.Held() == Queues([], [], OneAtATime, OneAtATime, None);
    agent.Host([FollowUp(User(1))]);
    var script := RunScript([Steer(User(2))], [Answer(AssistantMessage(3, Stop, [], None))]);
    ghost var q, pending, fromSteering := agent.Held(), [], false;
    OnlyFollowUp(q, User(1));
    r, turns, pending, fromSteering := Continue(agent, true, script);
    FirstTurnRecorded(false, Taken(q).queues, script, r.prompts, turns, r.newMessages, r.finished, pending, fromSteering,
                      agent.state.initial, agent.state.messages, agent.state.log, agent.drains, agent.Held());
    assert Acted(Taken(q).queues, script.beforeFirstPoll) == Act(Taken(q).queues, Steer(User(2))) by {
      assert [Steer(User(2))][..0] == [];
    }
    assert Allowed(None, [User(2)][0]);
  }

  lemma FirstTurnRecorded(skips: bool, q: Queues, script: RunScript, prompts: seq<Message>, turns: seq<Turn>,
                          newMessages: seq<Message>, finished: bool, pending: seq<Message>, fromSteering: bool,
                          initial: AgentView, messages: seq<Message>, log: seq<Event>, drains: seq<Drain>, held: Queues)
    requires IsRecord(script, prompts, turns, FirstWaiting(skips, q, script.beforeFirstPoll), newMessages, finished, pending,
                      fromSteering, initial, messages, log, drains, held)
    ensures FirstTurnIsPolled(skips, q, script, turns) && (turns == [] ==> script.turns == [])
  {
    assert Unfold(true);
    FirstTurnDelivers(skips, q, script, turns, initial.messages + prompts);
  }

  lemma OnlyFollowUp(q: Queues, m: Message)
    requires q == Acted(Queues([], [], OneAtATime, OneAtATime, None), [FollowUp(m)])
    ensures Taken(q) == Waiting([m], Queues([], [], OneAtATime, OneAtATime, None)) && Release(q, true) == []
  {
    assert [FollowUp(m)][..0] == [];
    assert q == Queues([], [m], OneAtATime, OneAtATime, None);
    assert FirstPassing([m], None) == 0 by {
      assert Allowed(None, [m][0]);
    }
  }
}
