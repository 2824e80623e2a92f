/**
  The tool batches of one assistant message: truncated, sequential and parallel. The
  parallel batch is executed under an arbitrary scheduler and is shown to be a run of
  the protocol in `ParallelBatch`.
*/
module ToolBatches {
  import opened AgentEvents
  import opened Agents
  import opened PendingQueue
  import opened Sequences
  import opened ToolCalls
  import opened Wrappers
  import PB = ParallelBatch

  type CallScripts = nat -> CallScript

  ghost predicate StoppedBefore(outcomes: seq<Outcome>, i: nat) {
    exists j :: 0 <= j < i && j < |outcomes| && outcomes[j].stopTurn
  }

  /** One message for each call, in source order. */
  function Results(calls: seq<ToolCall>, outcomes: seq<Outcome>): seq<Message>
    requires |outcomes| <= |calls|
  {
    seq(|outcomes|, i requires 0 <= i < |outcomes| => ResultMessage(calls[i].id, outcomes[i]))
  }

  lemma ResultsAt(calls: seq<ToolCall>, outcomes: seq<Outcome>, i: nat)
    requires i < |outcomes| <= |calls|
    ensures |Results(calls, outcomes)| == |outcomes|
    ensures Results(calls, outcomes)[i] == ToolResult(calls[i].id, outcomes[i].isError, outcomes[i].content)
  {
  }

  lemma ResultsExtend(calls: seq<ToolCall>, outcomes: seq<Outcome>, o: Outcome)
    requires |outcomes| < |calls|
    ensures Results(calls, outcomes + [o]) == Results(calls, outcomes) + [ResultMessage(calls[|outcomes|].id, o)]
  {
  }

  /** A batch handles every call up to the first after which it saw an abort. */
  ghost predicate HandledUntilAbort(calls: seq<ToolCall>, scripts: CallScripts, handled: nat) {
    && handled <= |calls| && (calls != [] ==> handled > 0)
    && (forall i :: 0 <= i < handled - 1 ==> !scripts(i).abortedAfter)
    && (handled < |calls| ==> scripts(handled - 1).abortedAfter)
  }

  ghost predicate HandledSoFar(scripts: CallScripts, handled: nat, aborted: bool) {
    && aborted == (handled > 0 && scripts(handled - 1).abortedAfter)
    && forall i :: 0 <= i < handled - 1 ==> !scripts(i).abortedAfter
  }

  ghost predicate SequentialOutcomes(scripts: CallScripts, outcomes: seq<Outcome>) {
    forall i :: 0 <= i < |outcomes| ==>
      outcomes[i] == if StoppedBefore(outcomes, i) then Refuse(scripts(i)) else Settle(scripts(i))
  }

  // ----- The events of calls that are handled one after the other -----

  ghost function Updates(callId: string, frames: seq<nat>): seq<Event> {
    seq(|frames|, i requires 0 <= i < |frames| => ToolUpdate(callId, frames[i]))
  }

  /** The events of one call: its start, its frames if it ran, its end, and its result message. */
  ghost function CallEvents(call: ToolCall, c: CallScript, o: Outcome, ran: bool): seq<Event> {
    var m := ResultMessage(call.id, o);
    [ToolStart(call.id)] + Updates(call.id, if ran then c.frames else []) + [ToolEnd(call.id, o.isError), MessageStart(m), MessageEnd(m)]
  }

  /** The events of the first n calls, each handled before the next one starts. */
  ghost function OneByOne(calls: seq<ToolCall>, scripts: CallScripts, outcomes: seq<Outcome>, executed: seq<nat>, n: nat): seq<Event>
    requires n <= |outcomes| <= |calls|
  {
    if n == 0 then []
    else
      var k := n - 1;
      OneByOne(calls, scripts, outcomes, executed, k) + CallEvents(calls[k], scripts(k), outcomes[k], k in executed)
  }

  /** The calls that ran, after one more call. */
  ghost function Noted(executed: seq<nat>, k: nat, ran: bool): seq<nat> {
    if ran then executed + [k] else executed
  }

  lemma {:induction false} OneByOneKeeps(calls: seq<ToolCall>, scripts: CallScripts, outcomes: seq<Outcome>, executed: seq<nat>,
                                         o: Outcome, ran: bool, n: nat)
    requires n <= |outcomes| < |calls|
    ensures OneByOne(calls, scripts, outcomes + [o], Noted(executed, |outcomes|, ran), n)
            == OneByOne(calls, scripts, outcomes, executed, n)
  {
    if n > 0 {
      OneByOneKeeps(calls, scripts, outcomes, executed, o, ran, n - 1);
      assert n - 1 in Noted(executed, |outcomes|, ran) <==> n - 1 in executed;
    }
  }

  /** The log of a batch, after one more call. */
  lemma OneByOneExtends(calls: seq<ToolCall>, scripts: CallScripts, outcomes: seq<Outcome>, executed: seq<nat>,
                        o: Outcome, ran: bool, log: seq<Event>)
    requires |outcomes| < |calls| && forall k :: k in executed ==> k < |outcomes|
    ensures var k := |outcomes|;
            log + OneByOne(calls, scripts, outcomes + [o], Noted(executed, k, ran), k + 1)
            == log + OneByOne(calls, scripts, outcomes, executed, k) + CallEvents(calls[k], scripts(k), o, ran)
  {
    var k := |outcomes|;
    OneByOneKeeps(calls, scripts, outcomes, executed, o, ran, k);
    assert k in Noted(executed, k, ran) <==> ran;
    Associative(log, OneByOne(calls, scripts, outcomes, executed, k), CallEvents(calls[k], scripts(k), o, ran));
  }

  method FailToolCallsFromTruncatedMessage(state: MutableAgentState, calls: seq<ToolCall>, scripts: CallScripts)
    returns (outcomes: seq<Outcome>, results: seq<Message>, ghost executed: seq<nat>)
    requires state.Phase() == QUIET
    modifies state
    ensures state.Phase() == QUIET && state.Nested() == old(state.Nested()) && state.initial == old(state.initial)
    ensures executed == []   // no call ran
    ensures |outcomes| == |calls| && results == Results(calls, outcomes)
    ensures forall i :: 0 <= i < |calls| ==> outcomes[i] == Refuse(scripts(i))
    ensures state.log == old(state.log) + OneByOne(calls, scripts, outcomes, executed, |outcomes|)
    ensures state.messages == old(state.messages) + results
  {
    ghost var initial, nested, log, messages := state.initial, state.Nested(), state.log, state.messages;
    outcomes, results, executed := [], [], [];
    assert log + OneByOne(calls, scripts, outcomes, executed, 0) == log;
    for i := 0 to |calls|
      invariant executed == []
      invariant |outcomes| == i && results == Results(calls, outcomes)
      invariant forall j :: 0 <= j < i ==> outcomes[j] == Refuse(scripts(j))
      invariant state.Quiet(initial, nested, log + OneByOne(calls, scripts, outcomes, executed, i), messages + results)
    {
      var o, ran := ExecuteNext(state, calls, scripts, outcomes, results, executed, true, initial, nested, log, messages);
      ResultsExtend(calls, outcomes, o);
      executed := Noted(executed, i, ran);
      outcomes, results := outcomes + [o], results + [ResultMessage(calls[i].id, o)];
    }
    assert Unfold(true);
  }

  method EmitUpdates(state: MutableAgentState, callId: string, frames: seq<nat>)
    requires state.Phase() == InTurn(false, multiset{callId})
    modifies state
    ensures state.Phase() == old(state.Phase()) && state.Nested() == old(state.Nested())
    ensures state.log == old(state.log) + Updates(callId, frames) && state.initial == old(state.initial)
    ensures state.messages == old(state.messages)
  {
    for i := 0 to |frames|
      invariant state.Phase() == old(state.Phase()) && state.Nested() == old(state.Nested())
      invariant state.log == old(state.log) + Updates(callId, frames[..i]) && state.initial == old(state.initial)
      invariant state.messages == old(state.messages)
    {
      state.ProcessEvents(ToolUpdate(callId, frames[i]));
      assert Updates(callId, frames[..i + 1]) == Updates(callId, frames[..i]) + [ToolUpdate(callId, frames[i])];
    }
    assert frames[..|frames|] == frames;
  }

  /** Announce one call, run it unless it is skipped or refused, and report its result. */
  method ExecuteOne(state: MutableAgentState, call: ToolCall, c: CallScript, skip: bool) returns (o: Outcome, ran: bool)
    requires state.Phase() == QUIET
    modifies state
    ensures state.Phase() == QUIET && state.Nested() == old(state.Nested()) && state.initial == old(state.initial)
    ensures o == (if skip then Refuse(c) else Settle(c)) && ran == (!skip && Runs(c))
    ensures var m := ToolResult(call.id, o.isError, o.content);
            && CallEvents(call, c, o, ran) ==
                 [ToolStart(call.id)] + Updates(call.id, if ran then c.frames else [])
                 + [ToolEnd(call.id, o.isError), MessageStart(m), MessageEnd(m)]
            && state.log == old(state.log) + CallEvents(call, c, o, ran)
            && state.messages == old(state.messages) + [m]
  {
    state.ProcessEvents(ToolStart(call.id));
    o, ran := Refuse(c), false;
    if !skip {
      if Runs(c) {
        EmitUpdates(state, call.id, c.frames);
        ran := true;
      }
      o := Settle(c);
    }
    state.ProcessEvents(ToolEnd(call.id, o.isError));
    state.EmitMessage(ResultMessage(call.id, o));
    CallLog(old(state.log), [ToolStart(call.id)], Updates(call.id, if ran then c.frames else []), [ToolEnd(call.id, o.isError)],
            [MessageStart(ResultMessage(call.id, o)), MessageEnd(ResultMessage(call.id, o))]);
  }

  lemma CallLog(log: seq<Event>, start: seq<Event>, updates: seq<Event>, end: seq<Event>, report: seq<Event>)
    ensures log + start + updates + end + report == log + (start + updates + (end + report))
  {
  }

  /** The next call of a batch that handles one call after the other. */
  method ExecuteNext(state: MutableAgentState, calls: seq<ToolCall>, scripts: CallScripts, outcomes: seq<Outcome>,
                     ghost results: seq<Message>, ghost executed: seq<nat>, skip: bool,
                     ghost initial: AgentView, ghost nested: bool, ghost log: seq<Event>, ghost messages: seq<Message>)
    returns (o: Outcome, ran: bool)
    requires |outcomes| < |calls| && forall k :: k in executed ==> k < |outcomes|
    requires state.Quiet(initial, nested, log + OneByOne(calls, scripts, outcomes, executed, |outcomes|), messages + results)
    modifies state
    ensures o == (if skip then Refuse(scripts(|outcomes|)) else Settle(scripts(|outcomes|)))
    ensures ran == (!skip && Runs(scripts(|outcomes|)))
    ensures state.Quiet(initial, nested,
                        log + OneByOne(calls, scripts, outcomes + [o], Noted(executed, |outcomes|, ran), |outcomes| + 1),
                        messages + (results + [ResultMessage(calls[|outcomes|].id, o)]))
  {
    assert Unfold(true);
    var k := |outcomes|;
    o, ran := ExecuteOne(state, calls[k], scripts(k), skip);
    OneByOneExtends(calls, scripts, outcomes, executed, o, ran, log);
    Associative(messages, results, [ResultMessage(calls[k].id, o)]);
  }

  /** The calls of a sequential batch that ran, given its outcomes. */
  ghost predicate ExecutedIn(scripts: CallScripts, outcomes: seq<Outcome>, executed: seq<nat>) {
    && Increasing(executed)
    && (forall k :: k in executed ==> k < |outcomes|)
    && forall k :: 0 <= k < |outcomes| ==> (k in executed <==> Runs(scripts(k)) && !StoppedBefore(outcomes, k))
  }

  /** A sequential batch so far: what its calls came to, and which of them ran. */
  ghost predicate SequentialSoFar(calls: seq<ToolCall>, scripts: CallScripts, outcomes: seq<Outcome>,
                                  results: seq<Message>, stopTurn: bool, executed: seq<nat>)
  {
    && |outcomes| <= |calls| && results == Results(calls, outcomes)
    && SequentialOutcomes(scripts, outcomes) && stopTurn == AnyStop(outcomes)
    && ExecutedIn(scripts, outcomes, executed)
  }

  /** Each call is prepared, executed and finalized before the next one starts. */
  method ExecuteToolCallsSequential(state: MutableAgentState, calls: seq<ToolCall>, scripts: CallScripts)
    returns (outcomes: seq<Outcome>, results: seq<Message>, stopTurn: bool, ghost executed: seq<nat>)
    requires state.Phase() == QUIET
    modifies state
    ensures state.Phase() == QUIET && state.Nested() == old(state.Nested()) && state.initial == old(state.initial)
    ensures HandledUntilAbort(calls, scripts, |outcomes|)
    ensures SequentialSoFar(calls, scripts, outcomes, results, stopTurn, executed)
    ensures state.log == old(state.log) + OneByOne(calls, scripts, outcomes, executed, |outcomes|)
    ensures state.messages == old(state.messages) + results
  {
    ghost var initial, nested, log, messages := state.initial, state.Nested(), state.log, state.messages;
    outcomes, results, stopTurn, executed := [], [], false, [];
    assert log + OneByOne(calls, scripts, outcomes, executed, 0) == log;
    var aborted := false;
    while |outcomes| < |calls| && !aborted
      invariant SequentialSoFar(calls, scripts, outcomes, results, stopTurn, executed)
      invariant HandledSoFar(scripts, |outcomes|, aborted)
      invariant state.Quiet(initial, nested, log + OneByOne(calls, scripts, outcomes, executed, |outcomes|), messages + results)
      decreases |calls| - |outcomes|
    {
      var k := |outcomes|;
      var o, ran := ExecuteNext(state, calls, scripts, outcomes, results, executed, stopTurn, initial, nested, log, messages);
      SoFarExtends(calls, scripts, outcomes, results, stopTurn, executed, o, ran);
      executed := Noted(executed, k, ran);
      outcomes, results := outcomes + [o], results + [ResultMessage(calls[k].id, o)];
      stopTurn := stopTurn || o.stopTurn;
      aborted := scripts(k).abortedAfter;
    }
    assert Unfold(true);
  }

  lemma SoFarExtends(calls: seq<ToolCall>, scripts: CallScripts, outcomes: seq<Outcome>,
                     results: seq<Message>, stopTurn: bool, executed: seq<nat>, o: Outcome, ran: bool)
    requires SequentialSoFar(calls, scripts, outcomes, results, stopTurn, executed) && |outcomes| < |calls|
    requires var c := scripts(|outcomes|); o == (if stopTurn then Refuse(c) else Settle(c)) && ran == (!stopTurn && Runs(c))
    ensures SequentialSoFar(calls, scripts, outcomes + [o], results + [ResultMessage(calls[|outcomes|].id, o)],
                            stopTurn || o.stopTurn, Noted(executed, |outcomes|, ran))
  {
    SequentialExtends(scripts, outcomes, o);
    ExecutedExtends(scripts, outcomes, executed, o);
    ResultsExtend(calls, outcomes, o);
  }

  lemma SequentialExtends(scripts: CallScripts, outcomes: seq<Outcome>, o: Outcome)
    requires SequentialOutcomes(scripts, outcomes)
    requires o == if AnyStop(outcomes) then Refuse(scripts(|outcomes|)) else Settle(scripts(|outcomes|))
    ensures SequentialOutcomes(scripts, outcomes + [o])
    ensures AnyStop(outcomes + [o]) <==> AnyStop(outcomes) || o.stopTurn
  {
    StoppedBeforeExtends(outcomes, o);
    assert AnyStop(outcomes) <==> StoppedBefore(outcomes, |outcomes|);
    var all := outcomes + [o];
    forall i | 0 <= i < |all|
      ensures all[i] == if StoppedBefore(all, i) then Refuse(scripts(i)) else Settle(scripts(i))
    {
      assert StoppedBefore(all, i) <==> StoppedBefore(outcomes, i);
      assert i < |outcomes| ==> all[i] == outcomes[i];
    }
  }

  lemma ExecutedExtends(scripts: CallScripts, outcomes: seq<Outcome>, executed: seq<nat>, o: Outcome)
    requires ExecutedIn(scripts, outcomes, executed)
    ensures ExecutedIn(scripts, outcomes + [o],
                       if !AnyStop(outcomes) && Runs(scripts(|outcomes|)) then executed + [|outcomes|] else executed)
  {
    StoppedBeforeExtends(outcomes, o);
    assert AnyStop(outcomes) <==> StoppedBefore(outcomes, |outcomes|);
    assert forall i :: 0 <= i < |executed| ==> executed[i] in executed;
  }

  lemma StoppedBeforeExtends(outcomes: seq<Outcome>, o: Outcome)
    ensures forall i :: 0 <= i <= |outcomes| ==> (StoppedBefore(outcomes + [o], i) <==> StoppedBefore(outcomes, i))
    ensures AnyStop(outcomes + [o]) <==> AnyStop(outcomes) || o.stopTurn
  {
    var all := outcomes + [o];
    assert all[|outcomes|] == o;
    forall i | 0 <= i <= |outcomes|
      ensures StoppedBefore(all, i) <==> StoppedBefore(outcomes, i)
    {
      if StoppedBefore(outcomes, i) {
        var j :| 0 <= j < i && j < |outcomes| && outcomes[j].stopTurn;
        assert all[j].stopTurn;
      }
    }
    if AnyStop(outcomes) {
      var i :| 0 <= i < |outcomes| && outcomes[i].stopTurn;
      assert all[i].stopTurn;
    }
  }

  // ----- A parallel batch, step by step along a run of `ParallelBatch` -----

  /** `run` is a run of the batch protocol that stands at `s`, and since `start` the log holds exactly its events. */
  ghost predicate Mirrors(log: seq<Event>, start: seq<Event>, calls: seq<ToolCall>, run: seq<PB.State>, s: PB.State) {
    && PB.IsRun(|calls|, run) && run[|run|-1] == s && |s.status| == |calls|
    && PB.WithinCalls(calls, s.trace)
    && log == start + PB.Project(calls, s.trace)
  }

  lemma MirrorsAction(log: seq<Event>, start: seq<Event>, calls: seq<ToolCall>, run: seq<PB.State>,
                      s: PB.State, s': PB.State, a: PB.Action)
    requires Mirrors(log, start, calls, run, s) && PB.ActionStep(s, s', a)
    ensures Mirrors(log + PB.EventsOf(calls, a), start, calls, run + [s'], s')
  {
    PB.ActionFacts(s, s', a);
    PB.ProjectExtends(calls, s.trace, a);
    PB.RunExtends(|calls|, run, s');
    Associative(start, PB.Project(calls, s.trace), PB.EventsOf(calls, a));
  }

  lemma MirrorsSilently(log: seq<Event>, start: seq<Event>, calls: seq<ToolCall>, run: seq<PB.State>,
                        s: PB.State, s': PB.State)
    requires Mirrors(log, start, calls, run, s) && PB.SilentStep(s, s')
    ensures Mirrors(log, start, calls, run + [s'], s')
  {
    PB.RunExtends(|calls|, run, s');
  }

  /** Emit the one event of a batch action. */
  method Perform(state: MutableAgentState, e: Event, calls: seq<ToolCall>, ghost start: seq<Event>,
                 ghost run: seq<PB.State>, ghost s: PB.State, ghost s': PB.State, ghost a: PB.Action)
    returns (ghost run': seq<PB.State>)
    requires state.Faithful() && Mirrors(state.log, start, calls, run, s) && PB.ActionStep(s, s', a)
    requires PB.EventsOf(calls, a) == [e]
    modifies state
    ensures state.Faithful() && Mirrors(state.log, start, calls, run', s')
    ensures state.View() == Reduce(old(state.View()), e)
    ensures state.initial == old(state.initial)
  {
    MirrorsAction(state.log, start, calls, run, s, s', a);
    run' := run + [s'];
    state.ProcessEvents(e);
  }

  /** Where an entry of `finalizedCalls` stands: settled at once, or prepared and still to run. */
  ghost predicate EntryOf(c: CallScript, entry: Option<Outcome>, status: PB.Status) {
    if entry.Some? then status == PB.Ended(entry.value) && entry.value == Settle(c) && !Runs(c)
    else status.Ready? && Runs(c)
  }

  ghost function Announced(s: PB.State, k: nat): PB.State
    requires k < |s.status|
  {
    PB.Act(s, PB.Announce(k), k, PB.Announced).(started := k + 1)
  }

  ghost function PreparedOrRefused(s: PB.State, k: nat, c: CallScript): PB.State
    requires k < |s.status|
  {
    var s1 := Announced(s, k);
    if Runs(c) then PB.Act(s1, PB.Prepared(k), k, PB.Ready)
    else PB.Act(s1, PB.End(k, Settle(c)), k, PB.Ended(Settle(c)))
  }

  method AnnounceAndPrepare(state: MutableAgentState, calls: seq<ToolCall>, k: nat, c: CallScript,
                            ghost start: seq<Event>, ghost run: seq<PB.State>, ghost s: PB.State)
    returns (entry: Option<Outcome>, ghost run': seq<PB.State>)
    requires k < |calls| && state.Faithful() && Mirrors(state.log, start, calls, run, s)
    requires s.phase.Preparing? && s.started == k
    requires forall j :: 0 <= j < k ==> !s.status[j].Announced?
    modifies state
    ensures state.Faithful() && Mirrors(state.log, start, calls, run', PreparedOrRefused(s, k, c))
    ensures EntryOf(c, entry, PreparedOrRefused(s, k, c).status[k])
    ensures state.messages == old(state.messages) && state.initial == old(state.initial)
  {
    ghost var s1, s2 := Announced(s, k), PreparedOrRefused(s, k, c);
    run' := Perform(state, ToolStart(calls[k].id), calls, start, run, s, s1, PB.Announce(k));
    if Runs(c) {
      MirrorsAction(state.log, start, calls, run', s1, s2, PB.Prepared(k));
      run' := run' + [s2];
      entry := None;
    } else {
      var o := Settle(c);
      run' := Perform(state, ToolEnd(calls[k].id, o.isError), calls, start, run', s1, s2, PB.End(k, o));
      entry := Some(o);
    }
  }

  /** The prefix of calls that was announced and prepared, before any tool runs. */
  ghost predicate Entries(scripts: CallScripts, entries: seq<Option<Outcome>>, s: PB.State) {
    && |entries| == s.started <= |s.status|
    && s.reported == 0 && !s.reporting && PB.SameWork(s.trace, [])
    && forall j :: 0 <= j < |entries| ==> EntryOf(scripts(j), entries[j], s.status[j])
  }

  lemma EntriesExtend(scripts: CallScripts, entries: seq<Option<Outcome>>, s: PB.State, entry: Option<Outcome>)
    requires Entries(scripts, entries, s) && |entries| < |s.status|
    requires forall j :: |entries| <= j < |s.status| ==> s.status[j].Idle?
    requires var k := |entries|; EntryOf(scripts(k), entry, PreparedOrRefused(s, k, scripts(k)).status[k])
    ensures var s' := PreparedOrRefused(s, |entries|, scripts(|entries|));
            && Entries(scripts, entries + [entry], s')
            && s'.phase == s.phase && |s'.status| == |s.status|
            && forall j :: |entries| < j < |s.status| ==> s'.status[j].Idle?
  {
    PreparingRunsNothing(s, |entries|, scripts(|entries|));
  }

  lemma PreparingRunsNothing(s: PB.State, k: nat, c: CallScript)
    requires k < |s.status|
    ensures PB.SameWork(PreparedOrRefused(s, k, c).trace, s.trace)
  {
    var announced := Announced(s, k);
    PB.IdleExtends(s.trace, PB.Announce(k));
    PB.IdleExtends(announced.trace, if Runs(c) then PB.Prepared(k) else PB.End(k, Settle(c)));
  }

  /** What the preparation loop keeps: the entries so far, and untouched calls after them. */
  ghost predicate PreparedSoFar(scripts: CallScripts, entries: seq<Option<Outcome>>, s: PB.State) {
    && s.phase.Preparing? && Entries(scripts, entries, s)
    && forall j :: |entries| <= j < |s.status| ==> s.status[j].Idle?
  }

  method PrepareNext(state: MutableAgentState, calls: seq<ToolCall>, scripts: CallScripts, entries: seq<Option<Outcome>>,
                     ghost start: seq<Event>, ghost run: seq<PB.State>, ghost s: PB.State)
    returns (entry: Option<Outcome>, ghost run': seq<PB.State>, ghost s': PB.State)
    requires |entries| < |calls| && state.Faithful() && Mirrors(state.log, start, calls, run, s)
    requires PreparedSoFar(scripts, entries, s)
    modifies state
    ensures state.Faithful() && Mirrors(state.log, start, calls, run', s')
    ensures PreparedSoFar(scripts, entries + [entry], s')
    ensures state.messages == old(state.messages) && state.initial == old(state.initial)
  {
    var k := |entries|;
    entry, run' := AnnounceAndPrepare(state, calls, k, scripts(k), start, run, s);
    EntriesExtend(scripts, entries, s, entry);
    s' := PreparedOrRefused(s, k, scripts(k));
  }

  method PrepareAll(state: MutableAgentState, calls: seq<ToolCall>, scripts: CallScripts)
    returns (entries: seq<Option<Outcome>>, ghost run: seq<PB.State>, ghost s: PB.State)
    requires state.Faithful()
    modifies state
    ensures HandledUntilAbort(calls, scripts, |entries|)
    ensures state.Faithful() && Mirrors(state.log, old(state.log), calls, run, s) && s.phase.Executing?
    ensures Entries(scripts, entries, s)
    ensures state.messages == old(state.messages) && state.initial == old(state.initial)
  {
    entries := [];
    s := PB.Init(|calls|);
    run := [s];
    assert state.log == state.log + PB.Project(calls, s.trace);
    var aborted := false;
    while |entries| < |calls| && !aborted
      invariant |entries| <= |calls|
      invariant state.Faithful() && Mirrors(state.log, old(state.log), calls, run, s)
      invariant PreparedSoFar(scripts, entries, s)
      invariant HandledSoFar(scripts, |entries|, aborted)
      invariant state.messages == old(state.messages) && state.initial == old(state.initial)
      decreases |calls| - |entries|
    {
      var entry;
      aborted := scripts(|entries|).abortedAfter;
      entry, run, s := PrepareNext(state, calls, scripts, entries, old(state.log), run, s);
      entries := entries + [entry];
    }
    run, s := StartExecuting(state.log, old(state.log), calls, scripts, entries, run, s, aborted);
  }

  lemma StartExecuting(log: seq<Event>, start: seq<Event>, calls: seq<ToolCall>, scripts: CallScripts,
                       entries: seq<Option<Outcome>>, run: seq<PB.State>, s: PB.State, aborted: bool)
    returns (run': seq<PB.State>, s': PB.State)
    requires Mirrors(log, start, calls, run, s) && s.phase.Preparing? && Entries(scripts, entries, s)
    requires forall j :: |entries| <= j < |calls| ==> s.status[j].Idle?
    requires |entries| == |calls| || (aborted && entries != [])
    ensures Mirrors(log, start, calls, run', s') && s'.phase.Executing? && Entries(scripts, entries, s')
  {
    run', s' := run, s;
    if aborted {
      MirrorsSilently(log, start, calls, run, s, s.(aborted := true));
      s' := s.(aborted := true);
      run' := run + [s'];
    }
    MirrorsSilently(log, start, calls, run', s', s'.(phase := PB.Executing));
    s' := s'.(phase := PB.Executing);
    run' := run' + [s'];
  }

  /** The first n calls that are prepared and still to run. */
  ghost function ToRun(entries: seq<Option<Outcome>>, n: nat): set<nat>
    requires n <= |entries|
  {
    set j: nat | j < n && entries[j].None?
  }

  /** An executing batch whose first k calls have been started where they were prepared. */
  ghost predicate Launched(entries: seq<Option<Outcome>>, k: nat, s: PB.State) {
    && s.phase.Executing? && s.started == |entries| <= |s.status| && s.reported == 0 && !s.reporting
    && forall j :: 0 <= j < |entries| ==>
         s.status[j] == if entries[j].Some? then PB.Ended(entries[j].value)
                        else if j < k then PB.Running else PB.Ready
  }

  lemma LaunchOne(log: seq<Event>, start: seq<Event>, calls: seq<ToolCall>, entries: seq<Option<Outcome>>,
                  run: seq<PB.State>, s: PB.State, k: nat) returns (next: PB.State)
    requires Mirrors(log, start, calls, run, s) && Launched(entries, k, s) && k < |entries| && entries[k].None?
    ensures Mirrors(log, start, calls, run + [next], next) && Launched(entries, k + 1, next)
    ensures PB.Ran(next.trace) == PB.Ran(s.trace) + {k}
    ensures forall j: nat :: PB.Frames(next.trace, j) == PB.Frames(s.trace, j)
  {
    next := PB.Act(s, PB.Run(k), k, PB.Running);
    MirrorsAction(log, start, calls, run, s, next, PB.Run(k));
    PB.RanExtends(s.trace, PB.Run(k));
    PB.FramesExtend(s.trace, PB.Run(k));
    assert log + PB.EventsOf(calls, PB.Run(k)) == log;
  }

  /** Every prepared tool starts before the loop waits for any of them. */
  lemma LaunchAll(log: seq<Event>, start: seq<Event>, calls: seq<ToolCall>, scripts: CallScripts,
                  entries: seq<Option<Outcome>>, run: seq<PB.State>, s: PB.State)
    returns (run': seq<PB.State>, s': PB.State)
    requires Mirrors(log, start, calls, run, s) && s.phase.Executing? && Entries(scripts, entries, s)
    ensures Mirrors(log, start, calls, run', s') && Launched(entries, |entries|, s')
    ensures PB.Ran(s'.trace) == ToRun(entries, |entries|)
    ensures forall j: nat :: PB.Frames(s'.trace, j) == []
  {
    run', s' := run, s;
    for k := 0 to |entries|
      invariant Mirrors(log, start, calls, run', s') && Launched(entries, k, s')
      invariant forall j: nat :: PB.Frames(s'.trace, j) == []
      invariant PB.Ran(s'.trace) == ToRun(entries, k)
    {
      if entries[k].None? {
        s' := LaunchOne(log, start, calls, entries, run', s', k);
        run' := run' + [s'];
      }
    }
  }

  function Total(frames: seq<seq<nat>>): nat {
    if frames == [] then 0 else Total(frames[..|frames|-1]) + |frames[|frames|-1]|
  }

  lemma {:induction false} TotalDrops(frames: seq<seq<nat>>, k: nat)
    requires k < |frames| && frames[k] != []
    ensures Total(frames[k := frames[k][1..]]) == Total(frames) - 1
  {
    var n := |frames| - 1;
    if k == n {
      assert frames[k := frames[k][1..]][..n] == frames[..n];
    } else {
      TotalDrops(frames[..n], k);
      assert frames[k := frames[k][1..]][..n] == frames[..n][k := frames[..n][k][1..]];
    }
  }

  /** The state of an executing batch whose calls in `running` have not settled. */
  ghost predicate RunningIn(scripts: CallScripts, n: nat, running: set<nat>, s: PB.State) {
    && s.phase.Executing? && n == s.started <= |s.status| && s.reported == 0 && !s.reporting
    && forall j :: 0 <= j < n ==> s.status[j] == if j in running then PB.Running else PB.Ended(Settle(scripts(j)))
  }

  /** Call `k` delivers its next progress frame, or settles when it has none left. */
  ghost function Advanced(s: PB.State, k: nat, frames: seq<nat>, o: Outcome): PB.State
    requires k < |s.status|
  {
    if frames != [] then PB.Act(s, PB.Update(k, frames[0]), k, PB.Running)
    else PB.Act(s, PB.End(k, o), k, PB.Ended(o))
  }

  lemma AdvancedIsRunning(scripts: CallScripts, n: nat, running: set<nat>, s: PB.State, k: nat, frames: seq<nat>)
    requires RunningIn(scripts, n, running, s) && k in running && k < n
    ensures RunningIn(scripts, n, if frames != [] then running else running - {k},
                      Advanced(s, k, frames, Settle(scripts(k))))
  {
  }

  lemma AdvancingRunsNothing(s: PB.State, k: nat, frames: seq<nat>, o: Outcome)
    requires k < |s.status|
    ensures PB.Ran(Advanced(s, k, frames, o).trace) == PB.Ran(s.trace)
    ensures FramesGrow(s.trace, Advanced(s, k, frames, o).trace, k, frames)
  {
    var a := if frames != [] then PB.Update(k, frames[0]) else PB.End(k, o);
    PB.RanExtends(s.trace, a);
    PB.FramesExtend(s.trace, a);
  }

  /** Call k delivered the first of `frames`, if there is one, and no other call delivered any. */
  ghost predicate FramesGrow(trace: seq<PB.Action>, trace': seq<PB.Action>, k: nat, frames: seq<nat>) {
    forall j: nat ::
      PB.Frames(trace', j) == PB.Frames(trace, j) + if j == k && frames != [] then [frames[0]] else []
  }

  method Advance(state: MutableAgentState, calls: seq<ToolCall>, scripts: CallScripts, k: nat, frames: seq<nat>,
                 ghost start: seq<Event>, ghost run: seq<PB.State>, ghost s: PB.State, ghost n: nat, ghost running: set<nat>)
    returns (ghost run': seq<PB.State>)
    requires state.Faithful() && Mirrors(state.log, start, calls, run, s) && RunningIn(scripts, n, running, s)
    requires k in running && k < n
    modifies state
    ensures state.Faithful() && Mirrors(state.log, start, calls, run', Advanced(s, k, frames, Settle(scripts(k))))
    ensures RunningIn(scripts, n, if frames != [] then running else running - {k},
                      Advanced(s, k, frames, Settle(scripts(k))))
    ensures PB.Ran(Advanced(s, k, frames, Settle(scripts(k))).trace) == PB.Ran(s.trace)
    ensures FramesGrow(s.trace, Advanced(s, k, frames, Settle(scripts(k))).trace, k, frames)
    ensures state.messages == old(state.messages) && state.initial == old(state.initial)
  {
    var o := Settle(scripts(k));
    ghost var s' := Advanced(s, k, frames, o);
    AdvancedIsRunning(scripts, n, running, s, k, frames);
    AdvancingRunsNothing(s, k, frames, o);
    if frames != [] {
      var frame := frames[0];
      run' := Perform(state, ToolUpdate(calls[k].id, frame), calls, start, run, s, s', PB.Update(k, frame));
    } else {
      run' := Perform(state, ToolEnd(calls[k].id, o.isError), calls, start, run, s, s', PB.End(k, o));
    }
  }

  /** The frames a call delivers: all of them if it runs. */
  function Planned(c: CallScript): seq<nat> {
    if Runs(c) then c.frames else []
  }

  /** What the calls delivered, and what they still have to deliver, are their frames; only running calls have any left. */
  ghost predicate FramesSoFar(scripts: CallScripts, frames: seq<seq<nat>>, running: set<nat>, trace: seq<PB.Action>) {
    forall j :: 0 <= j < |frames| ==>
      PB.Frames(trace, j) + frames[j] == Planned(scripts(j)) && (j !in running ==> frames[j] == [])
  }

  lemma FramesAdvance(scripts: CallScripts, frames: seq<seq<nat>>, running: set<nat>, trace: seq<PB.Action>,
                      trace': seq<PB.Action>, k: nat)
    requires FramesSoFar(scripts, frames, running, trace) && k < |frames| && k in running
    requires FramesGrow(trace, trace', k, frames[k])
    ensures if frames[k] == [] then FramesSoFar(scripts, frames, running - {k}, trace')
            else FramesSoFar(scripts, frames[k := frames[k][1..]], running, trace')
  {
    forall j | 0 <= j < |frames|
      ensures PB.Frames(trace', j) + (if j == k && frames[k] != [] then frames[k][1..] else frames[j]) == Planned(scripts(j))
    {
      if j == k && frames[k] != [] {
        Associative(PB.Frames(trace, k), [frames[k][0]], frames[k][1..]);
        assert [frames[k][0]] + frames[k][1..] == frames[k];
      } else {
        assert PB.Frames(trace, j) + [] == PB.Frames(trace, j);
      }
    }
  }

  /** When no call is running, all frames were delivered. */
  lemma FramesDelivered(scripts: CallScripts, frames: seq<seq<nat>>, trace: seq<PB.Action>)
    requires FramesSoFar(scripts, frames, {}, trace)
    ensures forall j :: 0 <= j < |frames| ==> PB.Frames(trace, j) == Planned(scripts(j))
  {
    forall j | 0 <= j < |frames| ensures PB.Frames(trace, j) == Planned(scripts(j)) {
      assert frames[j] == [] && PB.Frames(trace, j) + [] == PB.Frames(trace, j);
    }
  }

  /** The tools run concurrently: which one moves next is an arbitrary choice. */
  method SettleAll(state: MutableAgentState, calls: seq<ToolCall>, scripts: CallScripts, n: nat,
                   frames: seq<seq<nat>>, running: set<nat>,
                   ghost start: seq<Event>, ghost run: seq<PB.State>, ghost s: PB.State)
    returns (ghost run': seq<PB.State>, ghost s': PB.State)
    requires state.Faithful() && Mirrors(state.log, start, calls, run, s) && RunningIn(scripts, n, running, s)
    requires (forall j :: j in running ==> j < n) && |frames| == n && FramesSoFar(scripts, frames, running, s.trace)
    modifies state
    ensures state.Faithful() && Mirrors(state.log, start, calls, run', s') && RunningIn(scripts, n, {}, s')
    ensures PB.Ran(s'.trace) == PB.Ran(s.trace)
    ensures forall j :: 0 <= j < n ==> PB.Frames(s'.trace, j) == Planned(scripts(j))
    ensures state.messages == old(state.messages) && state.initial == old(state.initial)
  {
    run', s' := run, s;
    var waiting, left := running, frames;
    while waiting != {}
      invariant forall j :: j in waiting ==> j < n
      invariant PB.Ran(s'.trace) == PB.Ran(s.trace)
      invariant |left| == n && FramesSoFar(scripts, left, waiting, s'.trace)
      invariant RunningIn(scripts, n, waiting, s')
      invariant state.Faithful() && Mirrors(state.log, start, calls, run', s')
      invariant state.messages == old(state.messages) && state.initial == old(state.initial)
      decreases waiting, Total(left)
    {
      var k :| k in waiting;
      run' := Advance(state, calls, scripts, k, left[k], start, run', s', n, waiting);
      FramesAdvance(scripts, left, waiting, s'.trace, Advanced(s', k, left[k], Settle(scripts(k))).trace, k);
      s' := Advanced(s', k, left[k], Settle(scripts(k)));
      if left[k] != [] {
        TotalDrops(left, k);
        left := left[k := left[k][1..]];
      } else {
        waiting := waiting - {k};
      }
    }
    FramesDelivered(scripts, left, s'.trace);
  }

  /** All prepared tools are launched, and then the loop waits until they have settled. */
  method RunAll(state: MutableAgentState, calls: seq<ToolCall>, scripts: CallScripts, entries: seq<Option<Outcome>>,
                ghost start: seq<Event>, ghost run: seq<PB.State>, ghost s: PB.State)
    returns (outcomes: seq<Outcome>, ghost run': seq<PB.State>, ghost s': PB.State)
    requires state.Faithful() && Mirrors(state.log, start, calls, run, s) && s.phase.Executing? && Entries(scripts, entries, s)
    modifies state
    ensures state.Faithful() && Mirrors(state.log, start, calls, run', s') && s'.phase.Reporting?
    ensures |outcomes| == |entries| == s'.started && s'.reported == 0 && !s'.reporting
    ensures PB.Ran(s'.trace) == ToRun(entries, |entries|)
    ensures forall j :: 0 <= j < |entries| ==> PB.Frames(s'.trace, j) == Planned(scripts(j))
    ensures forall j :: 0 <= j < |entries| ==> outcomes[j] == Settle(scripts(j)) && s'.status[j] == PB.Ended(outcomes[j])
    ensures state.messages == old(state.messages) && state.initial == old(state.initial)
  {
    var running := set j: nat | j < |entries| && entries[j].None?;
    var frames := seq(|entries|, j requires 0 <= j < |entries| => Planned(scripts(j)));
    run', s' := Launch(state.log, start, calls, scripts, entries, run, s, frames, running);
    run', s' := SettleAll(state, calls, scripts, |entries|, frames, running, start, run', s');
    outcomes := seq(|entries|, j requires 0 <= j < |entries| => Settle(scripts(j)));
    MirrorsSilently(state.log, start, calls, run', s', s'.(phase := PB.Reporting));
    s' := s'.(phase := PB.Reporting);
    run' := run' + [s'];
  }

  lemma Launch(log: seq<Event>, start: seq<Event>, calls: seq<ToolCall>, scripts: CallScripts,
               entries: seq<Option<Outcome>>, run: seq<PB.State>, s: PB.State, frames: seq<seq<nat>>, running: set<nat>)
    returns (run': seq<PB.State>, s': PB.State)
    requires Mirrors(log, start, calls, run, s) && s.phase.Executing? && Entries(scripts, entries, s)
    requires |frames| == |entries| && forall j :: 0 <= j < |frames| ==> frames[j] == Planned(scripts(j))
    requires forall j: nat :: j in running <==> j < |entries| && entries[j].None?
    ensures Mirrors(log, start, calls, run', s') && PB.Ran(s'.trace) == ToRun(entries, |entries|)
    ensures RunningIn(scripts, |entries|, running, s') && FramesSoFar(scripts, frames, running, s'.trace)
  {
    run', s' := LaunchAll(log, start, calls, scripts, entries, run, s);
    FramesPlanned(scripts, entries, s, frames, running, s'.trace);
    LaunchedIsRunning(scripts, entries, s, s', running);
  }

  lemma LaunchedIsRunning(scripts: CallScripts, entries: seq<Option<Outcome>>, s: PB.State, s': PB.State, running: set<nat>)
    requires Entries(scripts, entries, s) && Launched(entries, |entries|, s')
    requires forall j: nat :: j in running <==> j < |entries| && entries[j].None?
    ensures RunningIn(scripts, |entries|, running, s')
  {
    forall j | 0 <= j < |entries|
      ensures s'.status[j] == if j in running then PB.Running else PB.Ended(Settle(scripts(j)))
    {
      assert EntryOf(scripts(j), entries[j], s.status[j]);
    }
  }

  /** Before any tool runs, every frame is still to be delivered. */
  lemma FramesPlanned(scripts: CallScripts, entries: seq<Option<Outcome>>, s: PB.State, frames: seq<seq<nat>>,
                      running: set<nat>, trace: seq<PB.Action>)
    requires Entries(scripts, entries, s) && forall j: nat :: PB.Frames(trace, j) == []
    requires |frames| == |entries| && forall j :: 0 <= j < |frames| ==> frames[j] == Planned(scripts(j))
    requires forall j: nat :: j in running <==> j < |entries| && entries[j].None?
    ensures FramesSoFar(scripts, frames, running, trace)
  {
    forall j | 0 <= j < |frames|
      ensures PB.Frames(trace, j) + frames[j] == Planned(scripts(j)) && (j !in running ==> frames[j] == [])
    {
      assert EntryOf(scripts(j), entries[j], s.status[j]);
      assert [] + frames[j] == frames[j];
    }
  }

  ghost function ReportingState(s: PB.State, k: nat, o: Outcome): PB.State
    requires k < |s.status|
  {
    PB.Act(s, PB.ReportStart(k, o), k, PB.Ended(o)).(reporting := true)
  }

  ghost function Reported(s: PB.State, k: nat, o: Outcome): PB.State
    requires k < |s.status|
  {
    PB.Act(ReportingState(s, k, o), PB.ReportEnd(k, o), k, PB.Ended(o)).(reporting := false, reported := k + 1)
  }

  method ReportOne(state: MutableAgentState, calls: seq<ToolCall>, k: nat, o: Outcome,
                   ghost start: seq<Event>, ghost run: seq<PB.State>, ghost s: PB.State)
    returns (ghost run': seq<PB.State>)
    requires state.Faithful() && Mirrors(state.log, start, calls, run, s) && s.phase.Reporting?
    requires k == s.reported < s.started <= |calls| && !s.reporting && s.status[k] == PB.Ended(o)
    modifies state
    ensures state.Faithful() && Mirrors(state.log, start, calls, run', Reported(s, k, o))
    ensures state.messages == old(state.messages) + [ResultMessage(calls[k].id, o)]
    ensures state.initial == old(state.initial)
  {
    var m := ResultMessage(calls[k].id, o);
    ghost var s1, s2 := ReportingState(s, k, o), Reported(s, k, o);
    run' := Perform(state, MessageStart(m), calls, start, run, s, s1, PB.ReportStart(k, o));
    run' := Perform(state, MessageEnd(m), calls, start, run', s1, s2, PB.ReportEnd(k, o));
  }

  /** All calls have settled with these outcomes, and the first k of them are reported. */
  ghost predicate ReportedUpTo(s: PB.State, outcomes: seq<Outcome>, k: nat) {
    && s.phase.Reporting? && s.started == |outcomes| <= |s.status| && s.reported == k && !s.reporting
    && forall j :: 0 <= j < |outcomes| ==> s.status[j] == PB.Ended(outcomes[j])
  }

  lemma ReportedNext(s: PB.State, outcomes: seq<Outcome>, k: nat)
    requires ReportedUpTo(s, outcomes, k) && k < |outcomes|
    ensures ReportedUpTo(Reported(s, k, outcomes[k]), outcomes, k + 1)
    ensures PB.SameWork(Reported(s, k, outcomes[k]).trace, s.trace)
  {
    PB.IdleExtends(s.trace, PB.ReportStart(k, outcomes[k]));
    PB.IdleExtends(ReportingState(s, k, outcomes[k]).trace, PB.ReportEnd(k, outcomes[k]));
  }

  lemma ReportedResults(calls: seq<ToolCall>, outcomes: seq<Outcome>, k: nat)
    requires k < |outcomes| <= |calls|
    ensures Results(calls, outcomes[..k + 1]) == Results(calls, outcomes[..k]) + [ResultMessage(calls[k].id, outcomes[k])]
  {
    ResultsExtend(calls, outcomes[..k], outcomes[k]);
    assert outcomes[..k] + [outcomes[k]] == outcomes[..k + 1];
  }

  method ReportNext(state: MutableAgentState, calls: seq<ToolCall>, outcomes: seq<Outcome>, k: nat,
                    ghost start: seq<Event>, ghost run: seq<PB.State>, ghost s: PB.State)
    returns (ghost run': seq<PB.State>, ghost s': PB.State)
    requires state.Faithful() && Mirrors(state.log, start, calls, run, s) && ReportedUpTo(s, outcomes, k)
    requires k < |outcomes| <= |calls|
    modifies state
    ensures state.Faithful() && Mirrors(state.log, start, calls, run', s') && ReportedUpTo(s', outcomes, k + 1)
    ensures PB.SameWork(s'.trace, s.trace)
    ensures state.messages == old(state.messages) + [ResultMessage(calls[k].id, outcomes[k])]
    ensures state.initial == old(state.initial)
  {
    run' := ReportOne(state, calls, k, outcomes[k], start, run, s);
    ReportedNext(s, outcomes, k);
    s' := Reported(s, k, outcomes[k]);
  }

  /** The result messages, in source order. */
  method ReportAll(state: MutableAgentState, calls: seq<ToolCall>, outcomes: seq<Outcome>,
                   ghost start: seq<Event>, ghost run: seq<PB.State>, ghost s: PB.State)
    returns (results: seq<Message>, ghost run': seq<PB.State>, ghost s': PB.State)
    requires state.Faithful() && Mirrors(state.log, start, calls, run, s) && s.phase.Reporting?
    requires |outcomes| == s.started <= |calls| && s.reported == 0 && !s.reporting
    requires forall j :: 0 <= j < |outcomes| ==> s.status[j] == PB.Ended(outcomes[j])
    modifies state
    ensures results == Results(calls, outcomes) && state.messages == old(state.messages) + results
    ensures state.Faithful() && Mirrors(state.log, start, calls, run', s') && s'.phase.Finished?
    ensures s'.started == |outcomes| && forall j :: 0 <= j < |outcomes| ==> s'.status[j] == PB.Ended(outcomes[j])
    ensures PB.SameWork(s'.trace, s.trace)
    ensures state.initial == old(state.initial)
  {
    results, run', s' := [], run, s;
    for k := 0 to |outcomes|
      invariant state.Faithful() && Mirrors(state.log, start, calls, run', s') && ReportedUpTo(s', outcomes, k)
      invariant PB.SameWork(s'.trace, s.trace)
      invariant results == Results(calls, outcomes[..k])
      invariant state.messages == old(state.messages) + results
      invariant state.initial == old(state.initial)
    {
      run', s' := ReportNext(state, calls, outcomes, k, start, run', s');
      ReportedResults(calls, outcomes, k);
      Associative(old(state.messages), results, [ResultMessage(calls[k].id, outcomes[k])]);
      results := results + [ResultMessage(calls[k].id, outcomes[k])];
    }
    assert outcomes[..|outcomes|] == outcomes;
    MirrorsSilently(state.log, start, calls, run', s', s'.(phase := PB.Finished));
    s' := s'.(phase := PB.Finished);
    run' := run' + [s'];
  }

  /** The positions below n that are in `ran`, in order. */
  ghost function Positions(n: nat, ran: set<nat>): (positions: seq<nat>)
    ensures Increasing(positions) && forall k :: k in positions <==> k < n && k in ran
  {
    if n == 0 then []
    else
      var before := Positions(n - 1, ran);
      assert forall i :: 0 <= i < |before| ==> before[i] in before;
      if n - 1 in ran then before + [n - 1] else before
  }

  lemma ExecutedAreRunnable(scripts: CallScripts, entries: seq<Option<Outcome>>, s: PB.State, trace: seq<PB.Action>)
    requires Entries(scripts, entries, s) && PB.Ran(trace) == ToRun(entries, |entries|)
    ensures forall k: nat :: k in Positions(|entries|, PB.Ran(trace)) <==> PB.Run(k) in trace
    ensures forall k: nat :: PB.Run(k) in trace <==> k < |entries| && Runs(scripts(k))
  {
    forall k: nat ensures k in PB.Ran(trace) <==> PB.Run(k) in trace {
      PB.RanInTrace(trace, k);
    }
    forall k | 0 <= k < |entries| ensures entries[k].None? <==> Runs(scripts(k)) {
      assert EntryOf(scripts(k), entries[k], s.status[k]);
    }
  }

  /** A finished run of the protocol in which each handled call ran, delivered and came to what its script says. */
  ghost predicate IsConcurrentRun(calls: seq<ToolCall>, scripts: CallScripts, outcomes: seq<Outcome>, run: seq<PB.State>) {
    && PB.IsRun(|calls|, run)
    && var s := run[|run|-1];
       && s.phase.Finished? && s.started == |outcomes| <= |s.status| && PB.WithinCalls(calls, s.trace)
       && forall k :: 0 <= k < |outcomes| ==>
            && s.status[k] == PB.Ended(outcomes[k])
            && (PB.Run(k) in s.trace <==> Runs(scripts(k)))
            && PB.Frames(s.trace, k) == Planned(scripts(k))
  }

  /** The events of a batch whose calls run at the same time, under some scheduler. */
  ghost predicate IsConcurrent(calls: seq<ToolCall>, scripts: CallScripts, outcomes: seq<Outcome>, events: seq<Event>) {
    exists run: seq<PB.State> :: IsConcurrentRun(calls, scripts, outcomes, run) && events == PB.Project(calls, run[|run|-1].trace)
  }

  /** All calls are prepared, then run concurrently, then reported; `executed` lists those that the protocol's run has run. */
  method ExecuteToolCallsParallel(state: MutableAgentState, calls: seq<ToolCall>, scripts: CallScripts)
    returns (outcomes: seq<Outcome>, results: seq<Message>, ghost run: seq<PB.State>, ghost executed: seq<nat>)
    requires state.Phase() == QUIET
    modifies state
    ensures state.Phase() == QUIET && state.Nested() == old(state.Nested()) && state.initial == old(state.initial)
    ensures HandledUntilAbort(calls, scripts, |outcomes|) && results == Results(calls, outcomes)
    ensures forall j :: 0 <= j < |outcomes| ==> outcomes[j] == Settle(scripts(j))
    ensures state.messages == old(state.messages) + results
    ensures IsConcurrentRun(calls, scripts, outcomes, run)
    ensures state.log == old(state.log) + PB.Project(calls, run[|run|-1].trace)
    ensures Increasing(executed) && forall k: nat :: k in executed <==> PB.Run(k) in run[|run|-1].trace
    ensures forall k: nat :: k in executed <==> k < |outcomes| && Runs(scripts(k))
  {
    ghost var s, prepared;
    var entries;
    entries, run, prepared := PrepareAll(state, calls, scripts);
    outcomes, run, s := RunAll(state, calls, scripts, entries, old(state.log), run, prepared);
    results, run, s := ReportAll(state, calls, outcomes, old(state.log), run, s);
    executed := Positions(|entries|, PB.Ran(run[|run|-1].trace));
    ExecutedAreRunnable(scripts, entries, prepared, run[|run|-1].trace);
    BatchKeepsPlace(calls, run, old(state.log), state.log);
  }

  /** A finished batch leaves the log as quiet, and as well nested, as it was. */
  lemma BatchKeepsPlace(calls: seq<ToolCall>, run: seq<PB.State>, before: seq<Event>, after: seq<Event>)
    requires PB.IsRun(|calls|, run) && run[|run|-1].phase.Finished? && PB.WithinCalls(calls, run[|run|-1].trace)
    requires WatchAll(false, Fresh, before) == QUIET && after == before + PB.Project(calls, run[|run|-1].trace)
    ensures WatchAll(false, Fresh, after) == QUIET
    ensures WatchAll(true, Fresh, after) != Broken <==> WatchAll(true, Fresh, before) != Broken
  {
    var events := PB.Project(calls, run[|run|-1].trace);
    forall strict: bool ensures WatchAll(strict, Fresh, after) == WatchAll(strict, WatchAll(strict, Fresh, before), events) {
      WatchAllConcat(strict, Fresh, before, events);
    }
    PB.FinishedBatchIsQuiet(false, calls, run);
    if WatchAll(true, Fresh, before) != Broken {
      StrictIsLoose(before);
      PB.FinishedBatchIsQuiet(true, calls, run);
    } else {
      BrokenStays(true, events);
    }
  }
}
