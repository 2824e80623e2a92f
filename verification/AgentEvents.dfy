/**
  The vocabulary of the agent loop: messages, lifecycle events, the reducer that
  folds events into the state an `Agent` shows its host, and the language of
  event logs that a run may produce.
*/
module AgentEvents {
  import opened Sequences
  import opened Wrappers

  datatype StopReason = Pending | Stop | Length | ToolUse | Deferred | Error | Aborted

  datatype ToolCall = ToolCall(id: string, name: string)

  /** Message bodies are opaque: `body` only distinguishes one message from another. */
  datatype AssistantMessage = AssistantMessage(
    body: nat,
    stop: StopReason,
    calls: seq<ToolCall>,
    errorMessage: Option<string>)

  /** A part of a tool result; `Note` is a diagnostic that the loop itself put there. */
  datatype Part = Text(text: nat) | Image(image: nat) | Note

  datatype Message =
    | User(body: nat)
    | Assistant(assistant: AssistantMessage)
    | ToolResult(callId: string, isError: bool, content: seq<Part>)

  datatype Event =
    | AgentStart
    | TurnStart
    | MessageStart(message: Message)
    | MessageUpdate(message: Message)
    | MessageEnd(message: Message)
    | ToolStart(callId: string)
    | ToolUpdate(callId: string, frame: nat)
    | ToolEnd(callId: string, isError: bool)
    | TurnEnd(message: Message, results: seq<Message>)
    | AgentEnd(messages: seq<Message>)

  // ----- What a host sees: the reducer of `Agent.processEvents` -----

  datatype AgentView = AgentView(
    messages: seq<Message>,
    streaming: Option<Message>,
    pendingToolCalls: set<string>,
    errorMessage: Option<string>)

  function Reduce(s: AgentView, e: Event): AgentView {
    match e
    case MessageStart(m) => s.(streaming := Some(m))
    case MessageUpdate(m) => s.(streaming := Some(m))
    case MessageEnd(m) => s.(streaming := None, messages := s.messages + [m])
    case ToolStart(id) => s.(pendingToolCalls := s.pendingToolCalls + {id})
    case ToolEnd(id, _) => s.(pendingToolCalls := s.pendingToolCalls - {id})
    case TurnEnd(m, _) =>
      if m.Assistant? && m.assistant.errorMessage.Some? && m.assistant.errorMessage.value != ""
      then s.(errorMessage := m.assistant.errorMessage) else s
    case AgentEnd(_) => s.(streaming := None)
    case _ => s
  }

  function Fold(s: AgentView, log: seq<Event>): AgentView {
    if log == [] then s else Reduce(Fold(s, log[..|log|-1]), log[|log|-1])
  }

  // ----- The language of event logs -----

  /**
    A deterministic acceptor for `agent_start (turn_start ... turn_end)+ agent_end`.
    Inside a turn it also tracks whether a message is being streamed and which tool
    calls have started without ending, so that no message starts while a tool call is
    open, and a turn ends with nothing open. The strict acceptor also demands that no
    message starts while another is being streamed; the other one lets the later
    message take the place of the earlier one.
  */
  datatype Monitor =
    | Fresh
    | Started
    | InTurn(streaming: bool, open: multiset<string>)
    | Between
    | Done
    | Broken

  const QUIET := InTurn(false, multiset{})

  function Watch(strict: bool, p: Monitor, e: Event): Monitor {
    match (p, e)
    case (Fresh, AgentStart) => Started
    case (Started, TurnStart) => QUIET
    case (Between, TurnStart) => QUIET
    case (Between, AgentEnd(_)) => Done
    case (InTurn(streaming, open), MessageStart(_)) =>
      if !(streaming && strict) && open == multiset{} then InTurn(true, open) else Broken
    case (InTurn(streaming, open), MessageUpdate(_)) => if streaming then p else Broken
    case (InTurn(streaming, open), MessageEnd(_)) => if streaming then InTurn(false, open) else Broken
    case (InTurn(streaming, open), ToolStart(id)) =>
      if !streaming then InTurn(false, open + multiset{id}) else Broken
    case (InTurn(streaming, open), ToolUpdate(id, _)) => if !streaming && id in open then p else Broken
    case (InTurn(streaming, open), ToolEnd(id, _)) =>
      if !streaming && id in open then InTurn(false, open - multiset{id}) else Broken
    case (InTurn(streaming, open), TurnEnd(_, _)) => if p == QUIET then Between else Broken
    case _ => Broken
  }

  function WatchAll(strict: bool, p: Monitor, log: seq<Event>): Monitor {
    if log == [] then p else Watch(strict, WatchAll(strict, p, log[..|log|-1]), log[|log|-1])
  }

  // ----- An independent reading of the same language -----

  predicate Lifecycle(e: Event) {
    e.AgentStart? || e.TurnStart? || e.TurnEnd? || e.AgentEnd?
  }

  /** A turn: `turn_start`, events that open or close no turn and no run, `turn_end`. */
  ghost predicate IsTurn(t: seq<Event>) {
    && |t| >= 2 && t[0].TurnStart? && t[|t|-1].TurnEnd?
    && forall i :: 0 < i < |t| - 1 ==> !Lifecycle(t[i])
  }

  ghost predicate IsCompleteRun(log: seq<Event>) {
    exists turns: seq<seq<Event>>, messages: seq<Message> ::
      IsCompleteRunOf(log, turns, messages)
  }

  ghost predicate IsCompleteRunOf(log: seq<Event>, turns: seq<seq<Event>>, messages: seq<Message>) {
    && turns != []
    && (forall i :: 0 <= i < |turns| ==> IsTurn(turns[i]))
    && log == [AgentStart] + Flatten(turns) + [AgentEnd(messages)]
  }

  // ----- Facts about folding and watching -----

  lemma {:induction false} WatchAllConcat(strict: bool, p: Monitor, a: seq<Event>, b: seq<Event>)
    ensures WatchAll(strict, p, a + b) == WatchAll(strict, WatchAll(strict, p, a), b)
  {
    if b == [] {
      assert a + b == a;
    } else {
      WatchAllConcat(strict, p, a, b[..|b|-1]);
      assert (a + b)[..|a + b|-1] == a + b[..|b|-1];
    }
  }

  lemma {:induction false} BrokenStays(strict: bool, log: seq<Event>)
    ensures WatchAll(strict, Broken, log) == Broken
  {
    if log != [] {
      BrokenStays(strict, log[..|log|-1]);
    }
  }

  ghost predicate IsStreaming(p: Monitor) { p.InTurn? && p.streaming }

  lemma StrictStep(p: Monitor, e: Event)
    ensures Watch(true, p, e) != Broken <==> Watch(false, p, e) != Broken && !(e.MessageStart? && IsStreaming(p))
    ensures Watch(true, p, e) != Broken ==> Watch(true, p, e) == Watch(false, p, e)
  {
  }

  lemma WatchLast(strict: bool, p: Monitor, log: seq<Event>, before: seq<Event>, e: Event)
    requires log == before + [e]
    ensures WatchAll(strict, p, log) == Watch(strict, WatchAll(strict, p, before), e)
  {
    assert log[..|log|-1] == before;
  }

  /** What the strict acceptor accepts, the other one accepts, and both stand at the same place. */
  lemma {:induction false} StrictIsLoose(log: seq<Event>)
    requires WatchAll(true, Fresh, log) != Broken
    ensures WatchAll(false, Fresh, log) == WatchAll(true, Fresh, log)
  {
    if log != [] {
      var before, e := log[..|log|-1], log[|log|-1];
      WatchLast(true, Fresh, log, before, e);
      WatchLast(false, Fresh, log, before, e);
      StrictIsLoose(before);
      StrictStep(WatchAll(true, Fresh, before), e);
    }
  }

  ghost predicate NoOverlap(log: seq<Event>) {
    forall k :: 0 <= k < |log| && log[k].MessageStart? ==> !IsStreaming(WatchAll(false, Fresh, log[..k]))
  }

  lemma NoOverlapLast(log: seq<Event>, before: seq<Event>, e: Event)
    requires log == before + [e]
    ensures NoOverlap(log) <==> NoOverlap(before) && !(e.MessageStart? && IsStreaming(WatchAll(false, Fresh, before)))
  {
    assert log[..|before|] == before && log[|before|] == e;
    forall k | 0 <= k < |before| ensures log[..k] == before[..k] && log[k] == before[k] {
    }
  }

  /** The strict acceptor asks one thing more: no message starts while another is being streamed. */
  lemma {:induction false} StrictExactly(log: seq<Event>)
    ensures WatchAll(true, Fresh, log) != Broken <==> WatchAll(false, Fresh, log) != Broken && NoOverlap(log)
  {
    if log != [] {
      var before, e := log[..|log|-1], log[|log|-1];
      WatchLast(true, Fresh, log, before, e);
      WatchLast(false, Fresh, log, before, e);
      NoOverlapLast(log, before, e);
      StrictExactly(before);
      StrictStep(WatchAll(false, Fresh, before), e);
      if WatchAll(true, Fresh, before) != Broken {
        StrictIsLoose(before);
      }
    }
  }

  /** A log that was rejected once stays rejected: acceptance is prefix closed. */
  lemma {:induction false} AcceptedPrefix(strict: bool, p: Monitor, log: seq<Event>, k: nat)
    requires k <= |log|
    requires WatchAll(strict, p, log) != Broken
    ensures WatchAll(strict, p, log[..k]) != Broken
  {
    if k < |log| {
      assert log[..|log|-1][..k] == log[..k];
      AcceptedPrefix(strict, p, log[..|log|-1], k);
    } else {
      assert log[..k] == log;
    }
  }

  /** Every accepted log can still be completed, so accepted means "prefix of a run". */
  lemma {:induction false} AcceptedExtends(strict: bool, log: seq<Event>) returns (rest: seq<Event>)
    requires WatchAll(strict, Fresh, log) != Broken
    ensures WatchAll(strict, Fresh, log + rest) == Done
  {
    var p := WatchAll(strict, Fresh, log);
    rest := Completion(p);
    CompletionFinishes(strict, p);
    WatchAllConcat(strict, Fresh, log, rest);
  }

  const ANY_MESSAGE := User(0)

  ghost function CloseTools(open: multiset<string>): seq<Event>
    decreases |open|
  {
    if open == multiset{} then [] else
      var id :| id in open;
      [ToolEnd(id, true)] + CloseTools(open - multiset{id})
  }

  ghost function Completion(p: Monitor): seq<Event> {
    var tail := [TurnEnd(ANY_MESSAGE, []), AgentEnd([])];
    match p
    case Fresh => [AgentStart, TurnStart] + tail
    case Started => [TurnStart] + tail
    case InTurn(streaming, open) =>
      (if streaming then [MessageEnd(ANY_MESSAGE)] else []) + (CloseTools(open) + tail)
    case Between => [AgentEnd([])]
    case Done => []
    case Broken => []
  }

  lemma {:induction false} CloseToolsCloses(strict: bool, open: multiset<string>)
    ensures WatchAll(strict, InTurn(false, open), CloseTools(open)) == QUIET
    decreases |open|
  {
    if open != multiset{} {
      var all := CloseTools(open);
      var id := all[0].callId;
      var less := open - multiset{id};
      assert all == [ToolEnd(id, true)] + CloseTools(less);
      CloseToolsCloses(strict, less);
      WatchOne(strict, InTurn(false, open), ToolEnd(id, true));
      assert Watch(strict, InTurn(false, open), ToolEnd(id, true)) == InTurn(false, less);
      WatchAllConcat(strict, InTurn(false, open), [ToolEnd(id, true)], CloseTools(less));
    }
  }

  lemma WatchOne(strict: bool, p: Monitor, e: Event)
    ensures WatchAll(strict, p, [e]) == Watch(strict, p, e)
  {
    assert [e][..0] == [];
  }

  lemma WatchTwo(strict: bool, p: Monitor, e: Event, f: Event)
    ensures WatchAll(strict, p, [e, f]) == Watch(strict, Watch(strict, p, e), f)
  {
    WatchOne(strict, p, e);
    assert [e, f][..1] == [e];
  }

  lemma EndingFinishes(strict: bool, p: Monitor)
    requires p == QUIET
    ensures WatchAll(strict, p, [TurnEnd(ANY_MESSAGE, []), AgentEnd([])]) == Done
  {
    WatchTwo(strict, p, TurnEnd(ANY_MESSAGE, []), AgentEnd([]));
  }

  /** Before a quiet turn: some events lead there, and then the ending finishes the run. */
  lemma FinishesAfter(strict: bool, p: Monitor, head: seq<Event>, tail: seq<Event>)
    requires WatchAll(strict, p, head) == QUIET && tail == [TurnEnd(ANY_MESSAGE, []), AgentEnd([])]
    ensures WatchAll(strict, p, head + tail) == Done
  {
    EndingFinishes(strict, QUIET);
    WatchAllConcat(strict, p, head, tail);
  }

  lemma TurnFinishes(strict: bool, streaming: bool, open: multiset<string>)
    ensures WatchAll(strict, InTurn(streaming, open), Completion(InTurn(streaming, open))) == Done
  {
    var p := InTurn(streaming, open);
    var head := if streaming then [MessageEnd(ANY_MESSAGE)] else [];
    var rest := CloseTools(open) + [TurnEnd(ANY_MESSAGE, []), AgentEnd([])];
    WatchOne(strict, p, MessageEnd(ANY_MESSAGE));
    assert WatchAll(strict, p, head) == InTurn(false, open);
    CloseToolsCloses(strict, open);
    FinishesAfter(strict, InTurn(false, open), CloseTools(open), [TurnEnd(ANY_MESSAGE, []), AgentEnd([])]);
    WatchAllConcat(strict, p, head, rest);
  }

  lemma CompletionFinishes(strict: bool, p: Monitor)
    requires p != Broken
    ensures WatchAll(strict, p, Completion(p)) == Done
  {
    var tail := [TurnEnd(ANY_MESSAGE, []), AgentEnd([])];
    match p
    case Fresh =>
      WatchTwo(strict, p, AgentStart, TurnStart);
      FinishesAfter(strict, p, [AgentStart, TurnStart], tail);
    case Started =>
      WatchOne(strict, p, TurnStart);
      FinishesAfter(strict, p, [TurnStart], tail);
    case InTurn(streaming, open) =>
      TurnFinishes(strict, streaming, open);
    case Between =>
      WatchOne(strict, p, AgentEnd([]));
    case Done =>
  }

  // ----- The acceptor recognises exactly the runs -----

  /** Where an accepted log stands, told without the acceptor. */
  ghost predicate Shape(p: Monitor, log: seq<Event>, turns: seq<seq<Event>>, current: seq<Event>) {
    && (forall i :: 0 <= i < |turns| ==> IsTurn(turns[i]))
    && match p
       case Fresh => log == [] && turns == []
       case Started => log == [AgentStart] && turns == []
       case InTurn(_, _) => log == [AgentStart] + Flatten(turns) + current && IsOpenTurn(current)
       case Between => turns != [] && log == [AgentStart] + Flatten(turns)
       case Done =>
         && turns != [] && log != [] && log[|log|-1].AgentEnd?
         && log == [AgentStart] + Flatten(turns) + [log[|log|-1]]
       case Broken => false
  }

  ghost predicate IsOpenTurn(t: seq<Event>) {
    && t != [] && t[0].TurnStart?
    && forall i :: 0 < i < |t| ==> !Lifecycle(t[i])
  }

  lemma ShapeInTurn(log: seq<Event>, e: Event, turns: seq<seq<Event>>, current: seq<Event>)
    returns (turns': seq<seq<Event>>, current': seq<Event>)
    requires forall i :: 0 <= i < |turns| ==> IsTurn(turns[i])
    requires log == [AgentStart] + Flatten(turns) + current && IsOpenTurn(current)
    requires e.TurnEnd? || !Lifecycle(e)
    ensures forall i :: 0 <= i < |turns'| ==> IsTurn(turns'[i])
    ensures e.TurnEnd? ==> turns' != [] && log + [e] == [AgentStart] + Flatten(turns')
    ensures !e.TurnEnd? ==> log + [e] == [AgentStart] + Flatten(turns') + current' && IsOpenTurn(current')
  {
    if e.TurnEnd? {
      turns', current' := turns + [current + [e]], [];
      FlattenSnoc(turns, current + [e]);
      assert log + [e] == [AgentStart] + (Flatten(turns) + (current + [e]));
    } else {
      turns', current' := turns, current + [e];
    }
  }

  lemma ShapeNext(strict: bool, p: Monitor, log: seq<Event>, e: Event, turns: seq<seq<Event>>, current: seq<Event>)
    returns (turns': seq<seq<Event>>, current': seq<Event>)
    requires Shape(p, log, turns, current) && Watch(strict, p, e) != Broken
    ensures Shape(Watch(strict, p, e), log + [e], turns', current')
  {
    turns', current' := turns, current;
    if p.InTurn? {
      turns', current' := ShapeInTurn(log, e, turns, current);
    } else if p.Started? || (p.Between? && e.TurnStart?) {
      current' := [e];
    }
  }

  lemma {:induction false} AcceptedShape(strict: bool, log: seq<Event>) returns (turns: seq<seq<Event>>, current: seq<Event>)
    requires WatchAll(strict, Fresh, log) != Broken
    ensures Shape(WatchAll(strict, Fresh, log), log, turns, current)
  {
    turns, current := [], [];
    if log != [] {
      var before, e := log[..|log|-1], log[|log|-1];
      WatchLast(strict, Fresh, log, before, e);
      turns, current := AcceptedShape(strict, before);
      turns, current := ShapeNext(strict, WatchAll(strict, Fresh, before), before, e, turns, current);
      assert log == before + [e];
    }
  }

  /** Every log the acceptor takes to `Done` is `agent_start turn+ agent_end`. */
  lemma DoneIsCompleteRun(strict: bool, log: seq<Event>)
    requires WatchAll(strict, Fresh, log) == Done
    ensures IsCompleteRun(log)
  {
    var turns, _ := AcceptedShape(strict, log);
    assert IsCompleteRunOf(log, turns, log[|log|-1].messages);
  }

  // ----- What acceptance means for a host -----

  /** What a host shows as pending and as streaming, told from where the acceptor stands. */
  ghost predicate Agrees(s: AgentView, p: Monitor) {
    && (p.InTurn? ==> forall id :: id in s.pendingToolCalls ==> id in p.open)
    && (!p.InTurn? ==> s.pendingToolCalls == {})
    && (s.streaming.Some? <==> p.InTurn? && p.streaming)
  }

  lemma EventKeepsAgreement(strict: bool, s: AgentView, p: Monitor, e: Event)
    requires Agrees(s, p) && Watch(strict, p, e) != Broken
    ensures Agrees(Reduce(s, e), Watch(strict, p, e))
  {
    match e
    case ToolStart(_) =>
    case ToolEnd(_, _) =>
    case _ =>
  }

  /** The tool calls a host shows as pending are among those the acceptor holds open. */
  lemma {:induction false} HostAgrees(strict: bool, s: AgentView, log: seq<Event>)
    requires s.pendingToolCalls == {} && s.streaming == None
    requires WatchAll(strict, Fresh, log) != Broken
    ensures Agrees(Fold(s, log), WatchAll(strict, Fresh, log))
  {
    if log != [] {
      HostAgrees(strict, s, log[..|log|-1]);
      EventKeepsAgreement(strict, Fold(s, log[..|log|-1]), WatchAll(strict, Fresh, log[..|log|-1]), log[|log|-1]);
    }
  }

  /** No tool call is shown as pending, and no message as streaming, when a turn ends. */
  lemma NothingPendingAtTurnEnd(strict: bool, s: AgentView, log: seq<Event>, k: nat)
    requires s.pendingToolCalls == {} && s.streaming == None
    requires WatchAll(strict, Fresh, log) != Broken
    requires k < |log| && log[k].TurnEnd?
    ensures Fold(s, log[..k]).pendingToolCalls == {}
    ensures Fold(s, log[..k + 1]).pendingToolCalls == {}
    ensures Fold(s, log[..k + 1]).streaming == None
  {
    var before, after := log[..k], log[..k + 1];
    AcceptedPrefix(strict, Fresh, log, k + 1);
    WatchLast(strict, Fresh, after, before, log[k]);
    HostAgrees(strict, s, before);
    HostAgrees(strict, s, after);
    NothingPendingWhenQuiet(strict, Fold(s, before), WatchAll(strict, Fresh, before), log[k]);
  }

  lemma NothingPendingWhenQuiet(strict: bool, s: AgentView, p: Monitor, e: Event)
    requires e.TurnEnd? && Agrees(s, p) && Watch(strict, p, e) != Broken
    ensures s.pendingToolCalls == {} && Watch(strict, p, e) == Between
  {
  }

  // ----- A run that throws -----

  /** The four events `handleRunFailure` emits after a hook or a listener threw. */
  function FailureEvents(m: Message): seq<Event> {
    [MessageStart(m), MessageEnd(m), TurnEnd(m, []), AgentEnd([m])]
  }

  lemma WatchFailure(strict: bool, p: Monitor, m: Message)
    ensures WatchAll(strict, p, FailureEvents(m))
            == Watch(strict, Watch(strict, Watch(strict, Watch(strict, p, MessageStart(m)), MessageEnd(m)), TurnEnd(m, [])), AgentEnd([m]))
  {
    var f := FailureEvents(m);
    WatchTwo(strict, p, f[0], f[1]);
    assert f[..2] == [f[0], f[1]];
    WatchTwo(strict, WatchAll(strict, p, f[..2]), f[2], f[3]);
    WatchAllConcat(strict, p, f[..2], [f[2], f[3]]);
    assert f == f[..2] + [f[2], f[3]];
  }

  /**
    The events emitted after a failure complete the run exactly when the failure
    struck inside a turn with no tool call open, and, for the strict acceptor, no
    message being streamed.
  */
  lemma FailureCompletesRun(strict: bool, log: seq<Event>, m: Message)
    ensures WatchAll(strict, Fresh, log + FailureEvents(m)) == Done
            <==> var p := WatchAll(strict, Fresh, log); p.InTurn? && p.open == multiset{} && !(strict && p.streaming)
  {
    WatchAllConcat(strict, Fresh, log, FailureEvents(m));
    WatchFailure(strict, WatchAll(strict, Fresh, log), m);
  }

  /** A `prepareNextTurn` that throws between two turns leaves a turn_end without a turn_start. */
  lemma FailureBetweenTurns(m: Message)
    ensures var log := [AgentStart, TurnStart, TurnEnd(m, [])];
            WatchAll(false, Fresh, log) == Between && WatchAll(false, Fresh, log + FailureEvents(m)) == Broken
  {
    var log := [AgentStart, TurnStart, TurnEnd(m, [])];
    WatchTwo(false, Fresh, AgentStart, TurnStart);
    assert log[..2] == [AgentStart, TurnStart];
    WatchAllConcat(false, Fresh, log, FailureEvents(m));
    WatchFailure(false, Between, m);
  }

  // ----- What a host sees, told without the reducer -----

  /** The messages that ended, in order. */
  function EndedMessages(log: seq<Event>): seq<Message> {
    if log == [] then []
    else EndedMessages(log[..|log|-1]) + (if log[|log|-1].MessageEnd? then [log[|log|-1].message] else [])
  }

  /** The event says what is being streamed, or that nothing is. */
  predicate TellsStreaming(e: Event) { e.MessageStart? || e.MessageUpdate? || e.MessageEnd? || e.AgentEnd? }

  predicate TellsPending(e: Event, id: string) { (e.ToolStart? || e.ToolEnd?) && e.callId == id }

  predicate TellsError(e: Event) {
    && e.TurnEnd? && e.message.Assistant?
    && e.message.assistant.errorMessage.Some? && e.message.assistant.errorMessage.value != ""
  }

  ghost predicate IsLastStreaming(log: seq<Event>, k: nat) {
    k < |log| && TellsStreaming(log[k]) && forall j :: k < j < |log| ==> !TellsStreaming(log[j])
  }

  ghost predicate IsLastPending(log: seq<Event>, k: nat, id: string) {
    k < |log| && TellsPending(log[k], id) && forall j :: k < j < |log| ==> !TellsPending(log[j], id)
  }

  ghost predicate IsLastError(log: seq<Event>, k: nat) {
    k < |log| && TellsError(log[k]) && forall j :: k < j < |log| ==> !TellsError(log[j])
  }

  /**
    After any events a host sees: what it saw before and then all messages that ended; the
    message that last started or changed, unless it ended or the run did; a tool call as pending
    when it last started; and the error of the last turn that ended with one.
  */
  lemma {:induction false} HostShows(s: AgentView, log: seq<Event>, id: string)
    ensures Fold(s, log).messages == s.messages + EndedMessages(log)
    ensures forall k: nat :: IsLastStreaming(log, k) ==>
              Fold(s, log).streaming == if log[k].MessageStart? || log[k].MessageUpdate? then Some(log[k].message) else None
    ensures forall k: nat :: IsLastPending(log, k, id) ==> (id in Fold(s, log).pendingToolCalls <==> log[k].ToolStart?)
    ensures forall k: nat :: IsLastError(log, k) ==> Fold(s, log).errorMessage == log[k].message.assistant.errorMessage
  {
    if log != [] {
      var before, last := log[..|log|-1], |log| - 1;
      HostShows(s, before, id);
      LastBefore(log, before, id);
      if log[last].MessageEnd? {
        Associative(s.messages, EndedMessages(before), [log[last].message]);
      }
    }
  }

  /** Where the last telling event is, seen from one event before. */
  lemma LastBefore(log: seq<Event>, before: seq<Event>, id: string)
    requires log != [] && before == log[..|log|-1]
    ensures forall k: nat :: IsLastStreaming(log, k) ==> k == |log| - 1 || (IsLastStreaming(before, k) && log[k] == before[k] && !TellsStreaming(log[|log|-1]))
    ensures forall k: nat :: IsLastPending(log, k, id) ==> k == |log| - 1 || (IsLastPending(before, k, id) && log[k] == before[k] && !TellsPending(log[|log|-1], id))
    ensures forall k: nat :: IsLastError(log, k) ==> k == |log| - 1 || (IsLastError(before, k) && log[k] == before[k] && !TellsError(log[|log|-1]))
  {
    assert forall j :: 0 <= j < |before| ==> before[j] == log[j];
  }
}
