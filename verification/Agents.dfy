/**
  The stateful `Agent`: the transcript it shows its host, the reducer that maintains
  it, and the two queues the host fills while a run is under way. Ghost fields record
  the events and the queue drains of the current run.
*/
module Agents {
  import opened AgentEvents
  import opened PendingQueue
  import opened Wrappers

  datatype HostAction =
    | Steer(message: Message)
    | FollowUp(message: Message)
    | ClearSteeringQueue
    | ClearFollowUpQueue
    | SetSteeringMode(mode: QueueMode)
    | SetFollowUpMode(mode: QueueMode)
    | SetQueueDeliveryFilter(filter: Filter)

  /** One non-empty drain: which queue, and what it released. */
  datatype Drain = Drain(steering: bool, released: seq<Message>)

  /** What the drains of one queue released, in order. */
  ghost function Released(drains: seq<Drain>, steering: bool): seq<Message> {
    if drains == [] then []
    else
      var d := drains[|drains|-1];
      Released(drains[..|drains|-1], steering) + if d.steering == steering then d.released else []
  }

  ghost function Record(drains: seq<Drain>, steering: bool, released: seq<Message>): seq<Drain> {
    if released == [] then drains else drains + [Drain(steering, released)]
  }

  /** Each queue delivered what it had delivered before the run, then what the run drained from it. */
  ghost predicate Balanced(
    steered: seq<Message>, followed: seq<Message>, steeredBefore: seq<Message>, followedBefore: seq<Message>,
    drains: seq<Drain>)
  {
    forall steering: bool ::
      (if steering then steered else followed)
      == (if steering then steeredBefore else followedBefore) + Released(drains, steering)
  }

  lemma BalancedByDrain(
    steered: seq<Message>, followed: seq<Message>, steeredBefore: seq<Message>, followedBefore: seq<Message>,
    drains: seq<Drain>, steering: bool, released: seq<Message>)
    requires Balanced(steered, followed, steeredBefore, followedBefore, drains)
    ensures Balanced(if steering then steered + released else steered,
                     if steering then followed else followed + released,
                     steeredBefore, followedBefore, Record(drains, steering, released))
  {
    var drains' := Record(drains, steering, released);
    if released != [] {
      assert drains'[..|drains|] == drains;
    }
    assert Released(drains', steering) == Released(drains, steering) + released;
    assert Released(drains', !steering) == Released(drains, !steering);
  }

  // ----- What waits in the queues -----

  /** The two queues, their modes, and the filter on what may be delivered now. */
  datatype Queues = Queues(
    steering: seq<Message>,
    followUp: seq<Message>,
    steeringMode: QueueMode,
    followUpMode: QueueMode,
    filter: Filter)

  ghost function Act(q: Queues, action: HostAction): Queues {
    match action
    case Steer(m) => q.(steering := q.steering + [m])
    case FollowUp(m) => q.(followUp := q.followUp + [m])
    case ClearSteeringQueue => q.(steering := [])
    case ClearFollowUpQueue => q.(followUp := [])
    case SetSteeringMode(mode) => q.(steeringMode := mode)
    case SetFollowUpMode(mode) => q.(followUpMode := mode)
    case SetQueueDeliveryFilter(filter) => q.(filter := filter)
  }

  /** The queues after the host acted on them. */
  ghost function Acted(q: Queues, actions: seq<HostAction>): Queues {
    if actions == [] then q else Act(Acted(q, actions[..|actions|-1]), actions[|actions|-1])
  }

  /** Each action of the host changes one thing. */
  lemma ActExactly(steering: seq<Message>, followUp: seq<Message>, mode: QueueMode, mode': QueueMode, filter: Filter, m: Message)
    ensures var q := Queues(steering, followUp, mode, mode', filter);
            && Act(q, Steer(m)) == Queues(steering + [m], followUp, mode, mode', filter)
            && Act(q, FollowUp(m)) == Queues(steering, followUp + [m], mode, mode', filter)
            && Act(q, ClearSteeringQueue) == Queues([], followUp, mode, mode', filter)
            && Act(q, ClearFollowUpQueue) == Queues(steering, [], mode, mode', filter)
            && (forall x :: Act(q, SetSteeringMode(x)) == Queues(steering, followUp, x, mode', filter))
            && (forall x :: Act(q, SetFollowUpMode(x)) == Queues(steering, followUp, mode, x, filter))
            && forall x :: Act(q, SetQueueDeliveryFilter(x)) == Queues(steering, followUp, mode, mode', x)
  {
  }

  lemma ActedInOrder(q: Queues, actions: seq<HostAction>, action: HostAction)
    ensures Acted(q, []) == q && Acted(q, actions + [action]) == Act(Acted(q, actions), action)
  {
    assert (actions + [action])[..|actions|] == actions;
  }

  ghost function DrainIn(q: Queues, steering: bool): Drained {
    if steering then DrainOf(q.steering, q.steeringMode, q.filter) else DrainOf(q.followUp, q.followUpMode, q.filter)
  }

  /** What draining one of the queues releases now. */
  ghost function Release(q: Queues, steering: bool): seq<Message> {
    DrainIn(q, steering).released
  }

  /** The queues after one of them was drained. */
  ghost function Polled(q: Queues, steering: bool): Queues {
    var kept := DrainIn(q, steering).kept;
    if steering then q.(steering := kept) else q.(followUp := kept)
  }

  /** A poll drains its own queue, in that queue's mode, and leaves the other alone. */
  lemma PollExactly(steering: seq<Message>, followUp: seq<Message>, mode: QueueMode, mode': QueueMode, filter: Filter)
    ensures var q := Queues(steering, followUp, mode, mode', filter);
            var first, second := DrainOf(steering, mode, filter), DrainOf(followUp, mode', filter);
            && Release(q, true) == first.released && Polled(q, true) == Queues(first.kept, followUp, mode, mode', filter)
            && Release(q, false) == second.released && Polled(q, false) == Queues(steering, second.kept, mode, mode', filter)
  {
  }

  /** Always true: mentioning it makes the verifier look inside predicates that are otherwise handled as a whole. */
  ghost predicate Unfold(details: bool) { true }

  /** What one more event does to everything that is read off a log. */
  lemma LogGrows(initial: AgentView, before: seq<Event>, e: Event)
    ensures var log := before + [e];
            && Fold(initial, log) == Reduce(Fold(initial, before), e)
            && WatchAll(false, Fresh, log) == Watch(false, WatchAll(false, Fresh, before), e)
            && (WatchAll(true, Fresh, log) != Broken
                <==> WatchAll(true, Fresh, before) != Broken && Watch(true, WatchAll(false, Fresh, before), e) != Broken)
  {
    var log := before + [e];
    assert log[..|log|-1] == before && log[|log|-1] == e;
    WatchLast(false, Fresh, log, before, e);
    WatchLast(true, Fresh, log, before, e);
    if WatchAll(true, Fresh, before) != Broken {
      StrictIsLoose(before);
    }
  }

  /** The state an agent shows its host; the ghost `log` holds the events of the current run. */
  class MutableAgentState {
    var messages: seq<Message>
    var streaming: Option<Message>
    var pendingToolCalls: set<string>
    var errorMessage: Option<string>
    ghost var log: seq<Event>
    ghost var initial: AgentView   // what the host saw when the run began

    ghost function View(): AgentView
      reads this
    {
      AgentView(messages, streaming, pendingToolCalls, errorMessage)
    }

    /** What the host sees is the run's events folded into what it saw before. */
    ghost predicate Faithful()
      reads this
    {
      forall start :: start == initial ==> View() == Fold(start, log)
    }

    /** Where the run's log stands in the language of runs, provided the host sees that log. */
    ghost function Phase(): Monitor
      reads this
    {
      if Faithful() then WatchAll(false, Fresh, log) else Broken
    }

    /** No message of the run started while another was being streamed. */
    ghost predicate Nested()
      reads this
    {
      WatchAll(true, Fresh, log) != Broken
    }

    /**
      The run is inside a turn with nothing open, under a given transcript and a given log. The verifier looks inside only where `Unfold` is mentioned.
    */
    ghost predicate Quiet(initial: AgentView, nested: bool, log: seq<Event>, messages: seq<Message>)
      reads this
    {
      forall details :: Unfold(details) ==>
        Phase() == QUIET && this.initial == initial && Nested() == nested && this.log == log && this.messages == messages
    }

    constructor (messages: seq<Message>)
      ensures View() == initial == AgentView(messages, None, {}, None) && log == []
    {
      this.messages, streaming, pendingToolCalls, errorMessage := messages, None, {}, None;
      log, initial := [], AgentView(messages, None, {}, None);
    }

    /** Fold one loop event into the state the host sees. */
    method ProcessEvents(e: Event)
      modifies this
      ensures View() == Reduce(old(View()), e)
      ensures log == old(log) + [e]
      ensures initial == old(initial) && (old(Faithful()) ==> Faithful())
      ensures old(Phase()) != Broken ==> Phase() == Watch(false, old(Phase()), e)
      ensures old(Phase()) != Broken ==>
                (Nested() <==> old(Nested()) && Watch(true, old(Phase()), e) != Broken)
    {
      match e {
        case MessageStart(m) => streaming := Some(m);
        case MessageUpdate(m) => streaming := Some(m);
        case MessageEnd(m) => streaming, messages := None, messages + [m];
        case ToolStart(id) => pendingToolCalls := pendingToolCalls + {id};
        case ToolEnd(id, _) => pendingToolCalls := pendingToolCalls - {id};
        case TurnEnd(m, _) =>
          if m.Assistant? && m.assistant.errorMessage.Some? && m.assistant.errorMessage.value != "" {
            errorMessage := m.assistant.errorMessage;
          }
        case AgentEnd(_) => streaming := None;
        case _ =>
      }
      LogGrows(initial, log, e);
      log := log + [e];
    }

    /** Before a run: nothing is streamed, no error is shown, and the log starts anew. */
    method BeginLog()
      modifies this
      ensures messages == old(messages) && pendingToolCalls == old(pendingToolCalls)
      ensures streaming == None && errorMessage == None
      ensures log == [] && initial == View() && Phase() == Fresh
    {
      streaming, errorMessage := None, None;
      initial, log := View(), [];
    }

    /** A message that arrives complete. */
    method EmitMessage(m: Message)
      requires Phase() == QUIET
      modifies this
      ensures Phase() == QUIET && Nested() == old(Nested()) && initial == old(initial)
      ensures log == old(log) + [MessageStart(m), MessageEnd(m)]
      ensures messages == old(messages) + [m]
    {
      ProcessEvents(MessageStart(m));
      ProcessEvents(MessageEnd(m));
    }
  }

  class Agent {
    const state: MutableAgentState
    const steering: PendingMessageQueue
    const followUp: PendingMessageQueue
    var deliveryFilter: Filter
    var skipInitialSteeringPoll: bool
    var running: bool                      // whether there is an active run

    ghost var polls: nat                   // how often the current run drained a queue
    ghost var drains: seq<Drain>           // the non-empty drains of the current run
    ghost var steeredBefore: seq<Message>  // what the queues had delivered before the current run
    ghost var followedBefore: seq<Message>

    /** Both queues account for their messages, and the run's drains for what they delivered. */
    ghost predicate Valid()
      reads this, steering, followUp
    {
      && steering != followUp && steering.Valid() && followUp.Valid()
      && Balanced(steering.delivered, followUp.delivered, steeredBefore, followedBefore, drains)
    }

    constructor (steeringMode: QueueMode, followUpMode: QueueMode, messages: seq<Message>)
      ensures Valid() && fresh(steering) && fresh(followUp) && fresh(state)
      ensures state.View() == AgentView(messages, None, {}, None) && state.log == []
      ensures drains == [] && polls == 0 && !running
      ensures Held() == Queues([], [], steeringMode, followUpMode, None) && !skipInitialSteeringPoll
    {
      state := new MutableAgentState(messages);
      steering := new PendingMessageQueue(steeringMode);
      followUp := new PendingMessageQueue(followUpMode);
      deliveryFilter, skipInitialSteeringPoll, running := None, false, false;
      polls, drains, steeredBefore, followedBefore := 0, [], [], [];
    }

    ghost function Held(): Queues
      reads this, steering, followUp
    {
      Queues(steering.messages, followUp.messages, steering.mode, followUp.mode, deliveryFilter)
    }

    /** What the host does to the queues between two steps of the loop. */
    method Host(actions: seq<HostAction>)
      requires Valid()
      modifies `deliveryFilter, steering, followUp
      ensures Valid() && Held() == Acted(old(Held()), actions)
    {
      for i := 0 to |actions|
        invariant Valid() && Held() == Acted(old(Held()), actions[..i])
      {
        assert actions[..i + 1][..i] == actions[..i];
        match actions[i] {
          case Steer(m) => steering.Enqueue(m);
          case FollowUp(m) => followUp.Enqueue(m);
          case ClearSteeringQueue => steering.Clear();
          case ClearFollowUpQueue => followUp.Clear();
          case SetSteeringMode(mode) => steering.SetMode(mode);
          case SetFollowUpMode(mode) => followUp.SetMode(mode);
          case SetQueueDeliveryFilter(filter) => deliveryFilter := filter;
        }
      }
      assert actions[..|actions|] == actions;
    }

    method GetSteeringMessages() returns (released: seq<Message>)
      requires Valid()
      modifies `polls, `drains, `skipInitialSteeringPoll, steering
      ensures Valid() && !skipInitialSteeringPoll
      ensures old(skipInitialSteeringPoll) ==> released == [] && polls == old(polls) && Held() == old(Held())
      ensures !old(skipInitialSteeringPoll) ==>
                && polls == old(polls) + 1
                && released == Release(old(Held()), true) && Held() == Polled(old(Held()), true)
      ensures drains == Record(old(drains), true, released)
    {
      if skipInitialSteeringPoll {
        skipInitialSteeringPoll := false;
        return [];
      }
      released := DrainSteering();
    }

    method DrainSteering() returns (released: seq<Message>)
      requires Valid()
      modifies `polls, `drains, steering
      ensures Valid() && polls == old(polls) + 1 && drains == Record(old(drains), true, released)
      ensures steering.delivered == old(steering.delivered) + released
      ensures released == Release(old(Held()), true) && Held() == Polled(old(Held()), true)
      ensures released == [] <==> NoneDeliverable(old(steering.messages), deliveryFilter)
      ensures released == [] ==> steering.messages == old(steering.messages)
    {
      ghost var delivered := steering.delivered;
      released := steering.Deliver(deliveryFilter);
      polls := polls + 1;
      assert Balanced(steering.delivered, followUp.delivered, steeredBefore, followedBefore, Record(drains, true, released)) by {
        BalancedByDrain(delivered, followUp.delivered, steeredBefore, followedBefore, drains, true, released);
      }
      drains := Record(drains, true, released);
    }

    method GetFollowUpMessages() returns (released: seq<Message>)
      requires Valid()
      modifies `polls, `drains, followUp
      ensures Valid() && polls == old(polls) + 1 && drains == Record(old(drains), false, released)
      ensures followUp.delivered == old(followUp.delivered) + released
      ensures released == Release(old(Held()), false) && Held() == Polled(old(Held()), false)
      ensures released == [] <==> NoneDeliverable(old(followUp.messages), deliveryFilter)
    {
      ghost var delivered := followUp.delivered;
      released := followUp.Deliver(deliveryFilter);
      polls := polls + 1;
      assert Balanced(steering.delivered, followUp.delivered, steeredBefore, followedBefore, Record(drains, false, released)) by {
        BalancedByDrain(steering.delivered, delivered, steeredBefore, followedBefore, drains, false, released);
      }
      drains := Record(drains, false, released);
    }

    /** The start of `runWithLifecycle`, with the loop configuration of `createLoopConfig`. */
    method BeginRun(skipInitialSteeringPoll: bool)
      requires Valid() && !running
      modifies this, state
      ensures Valid() && running && this.skipInitialSteeringPoll == skipInitialSteeringPoll
      ensures state.messages == old(state.messages) && state.pendingToolCalls == old(state.pendingToolCalls)
      ensures state.streaming == None && state.errorMessage == None
      ensures state.Phase() == Fresh && state.initial == state.View() && state.log == []
      ensures drains == [] && polls == 0 && deliveryFilter == old(deliveryFilter)
      ensures steeredBefore == steering.delivered && followedBefore == followUp.delivered
      ensures Held() == old(Held())
    {
      running, this.skipInitialSteeringPoll := true, skipInitialSteeringPoll;
      state.BeginLog();
      polls, drains, steeredBefore, followedBefore := 0, [], steering.delivered, followUp.delivered;
    }

    /** `finishRun`. */
    method FinishRun()
      requires Valid()
      modifies `running, state`streaming, state`pendingToolCalls
      ensures Valid() && !running && state.streaming == None && state.pendingToolCalls == {} && Held() == old(Held())
    {
      state.streaming, state.pendingToolCalls, running := None, {}, false;
    }
  }
}
