/**
  A parallel tool batch as a step relation. Calls are announced and prepared one
  after another; then the prepared tools run concurrently and settle in any order;
  then their results are reported in source order. Every interleaving of tools,
  progress frames and aborts is a run of `Next`.
*/
module ParallelBatch {
  import opened AgentEvents
  import opened ToolCalls
  import opened Wrappers

  datatype Phase = Preparing | Executing | Reporting | Finished

  datatype Status = Idle | Announced | Ready | Running | Ended(outcome: Outcome)

  /** What the batch does, by position of the call in the assistant message. */
  datatype Action =
    | Announce(k: nat)
    | Prepared(k: nat)
    | Run(k: nat)
    | Update(k: nat, frame: nat)
    | End(k: nat, outcome: Outcome)
    | ReportStart(k: nat, outcome: Outcome)
    | ReportEnd(k: nat, outcome: Outcome)

  datatype State = State(
    phase: Phase,
    status: seq<Status>,
    started: nat,
    reported: nat,
    reporting: bool,
    aborted: bool,
    trace: seq<Action>)

  function Init(n: nat): State {
    State(Preparing, seq(n, _ => Idle), 0, 0, false, false, [])
  }

  predicate Settled(s: State, k: nat) {
    k < |s.status| && s.status[k].Ended?
  }

  function Act(s: State, a: Action, k: nat, status: Status): State
    requires k < |s.status|
  {
    s.(status := s.status[k := status], trace := s.trace + [a])
  }

  /** The steps that leave a mark in the trace. */
  ghost predicate ActionStep(s: State, s': State, a: Action) {
    && a.k < |s.status|
    && match a
       case Announce(k) =>
         && s.phase.Preparing? && k == s.started
         && (forall j :: 0 <= j < k ==> !s.status[j].Announced?)
         && s' == Act(s, a, k, Announced).(started := k + 1)
       case Prepared(k) =>
         s.phase.Preparing? && s.status[k].Announced? && s' == Act(s, a, k, Ready)
       case Run(k) =>
         s.phase.Executing? && s.status[k].Ready? && s' == Act(s, a, k, Running)
       case Update(k, _) =>
         s.phase.Executing? && s.status[k].Running? && s' == Act(s, a, k, Running)
       case End(k, o) =>
         && (if s.phase.Preparing? then s.status[k].Announced? else s.phase.Executing? && s.status[k].Running?)
         && s' == Act(s, a, k, Ended(o))
       case ReportStart(k, o) =>
         && s.phase.Reporting? && k == s.reported < s.started && !s.reporting
         && s.status[k] == Ended(o)
         && s' == Act(s, a, k, Ended(o)).(reporting := true)
       case ReportEnd(k, o) =>
         && s.phase.Reporting? && k == s.reported < s.started && s.reporting
         && s.status[k] == Ended(o)
         && s' == Act(s, a, k, Ended(o)).(reporting := false, reported := k + 1)
  }

  /** The silent steps: an abort arrives, the preparation loop ends, all tools are in, all is reported. */
  ghost predicate SilentStep(s: State, s': State) {
    || s' == s.(aborted := true)
    || (&& s.phase.Preparing? && (s.started == |s.status| || (s.aborted && s.started > 0))
        && (forall j :: 0 <= j < |s.status| ==> !s.status[j].Announced?)
        && s' == s.(phase := Executing))
    || (&& s.phase.Executing?
        && (forall j :: 0 <= j < s.started && j < |s.status| ==> s.status[j].Ended?)
        && s' == s.(phase := Reporting))
    || (s.phase.Reporting? && s.reported == s.started && s' == s.(phase := Finished))
  }

  ghost predicate Next(s: State, s': State) {
    SilentStep(s, s') || exists a :: ActionStep(s, s', a)
  }

  ghost predicate IsRun(n: nat, run: seq<State>) {
    && run != [] && run[0] == Init(n)
    && forall i :: 0 < i < |run| ==> Next(run[i - 1], run[i])
  }

  lemma RunExtends(n: nat, run: seq<State>, s': State)
    requires IsRun(n, run) && Next(run[|run| - 1], s')
    ensures IsRun(n, run + [s'])
  {
    var longer := run + [s'];
    forall i | 0 < i < |longer| ensures Next(longer[i - 1], longer[i]) {
      if i < |run| {
        assert longer[i - 1] == run[i - 1] && longer[i] == run[i];
      }
    }
  }

  // ----- Reading a trace -----

  function Announcements(trace: seq<Action>, k: nat): nat {
    if trace == [] then 0
    else Announcements(trace[..|trace|-1], k) + if trace[|trace|-1] == Announce(k) then 1 else 0
  }

  /** The calls whose tool ran. */
  function Ran(trace: seq<Action>): set<nat> {
    if trace == [] then {}
    else Ran(trace[..|trace|-1]) + if trace[|trace|-1].Run? then {trace[|trace|-1].k} else {}
  }

  lemma RanExtends(trace: seq<Action>, a: Action)
    ensures Ran(trace + [a]) == Ran(trace) + if a.Run? then {a.k} else {}
  {
    assert (trace + [a])[..|trace|] == trace;
  }

  lemma {:induction false} RanInTrace(trace: seq<Action>, k: nat)
    ensures k in Ran(trace) <==> Run(k) in trace
  {
    if trace != [] {
      RanInTrace(trace[..|trace|-1], k);
      assert trace == trace[..|trace|-1] + [trace[|trace|-1]];
    }
  }

  /** The progress frames a call delivered, in order. */
  function Frames(trace: seq<Action>, k: nat): seq<nat> {
    if trace == [] then []
    else
      var a := trace[|trace|-1];
      Frames(trace[..|trace|-1], k) + if a.Update? && a.k == k then [a.frame] else []
  }

  lemma FramesExtend(trace: seq<Action>, a: Action)
    ensures forall k: nat :: Frames(trace + [a], k) == Frames(trace, k) + if a.Update? && a.k == k then [a.frame] else []
  {
    assert (trace + [a])[..|trace|] == trace;
  }

  /** The same calls ran in both traces, with the same frames. */
  ghost predicate SameWork(trace: seq<Action>, trace': seq<Action>) {
    Ran(trace) == Ran(trace') && forall k: nat :: Frames(trace, k) == Frames(trace', k)
  }

  lemma IdleExtends(trace: seq<Action>, a: Action)
    requires !a.Run? && !a.Update?
    ensures SameWork(trace + [a], trace)
  {
    RanExtends(trace, a);
    FramesExtend(trace, a);
  }

  function Ends(trace: seq<Action>, k: nat): nat {
    if trace == [] then 0
    else Ends(trace[..|trace|-1], k) + if trace[|trace|-1].End? && trace[|trace|-1].k == k then 1 else 0
  }

  /** The positions whose result message was reported, in order of reporting. */
  function Reports(trace: seq<Action>): seq<nat> {
    if trace == [] then []
    else Reports(trace[..|trace|-1]) + if trace[|trace|-1].ReportEnd? then [trace[|trace|-1].k] else []
  }

  function EventsOf(calls: seq<ToolCall>, a: Action): seq<Event>
    requires a.k < |calls|
  {
    var id := calls[a.k].id;
    match a
    case Announce(_) => [ToolStart(id)]
    case Prepared(_) => []
    case Run(_) => []
    case Update(_, frame) => [ToolUpdate(id, frame)]
    case End(_, o) => [ToolEnd(id, o.isError)]
    case ReportStart(_, o) => [MessageStart(ResultMessage(id, o))]
    case ReportEnd(_, o) => [MessageEnd(ResultMessage(id, o))]
  }

  ghost predicate WithinCalls(calls: seq<ToolCall>, trace: seq<Action>) {
    forall i :: 0 <= i < |trace| ==> trace[i].k < |calls|
  }

  /** The events a host sees. */
  function Project(calls: seq<ToolCall>, trace: seq<Action>): seq<Event>
    requires WithinCalls(calls, trace)
  {
    if trace == [] then []
    else Project(calls, trace[..|trace|-1]) + EventsOf(calls, trace[|trace|-1])
  }

  /** The event of each start, frame, end and report; the other actions are silent. */
  ghost predicate IsEventsOf(calls: seq<ToolCall>, a: Action, events: seq<Event>)
    requires a.k < |calls|
  {
    var id := calls[a.k].id;
    if a.Prepared? || a.Run? then events == []
    else
      && |events| == 1
      && (a.Announce? ==> events[0] == ToolStart(id))
      && (a.Update? ==> events[0] == ToolUpdate(id, a.frame))
      && (a.End? ==> events[0] == ToolEnd(id, a.outcome.isError))
      && (a.ReportStart? ==> events[0] == MessageStart(ToolResult(id, a.outcome.isError, a.outcome.content)))
      && (a.ReportEnd? ==> events[0] == MessageEnd(ToolResult(id, a.outcome.isError, a.outcome.content)))
  }

  lemma EventOf(calls: seq<ToolCall>, a: Action)
    requires a.k < |calls|
    ensures IsEventsOf(calls, a, EventsOf(calls, a))
  {
  }

  /** What a host sees of a batch is the events of its actions, in the order of the trace. */
  lemma EventAt(calls: seq<ToolCall>, trace: seq<Action>, i: nat)
    requires WithinCalls(calls, trace) && i < |trace|
    ensures var before, after := Project(calls, trace[..i]), Project(calls, trace[..i + 1]);
            && before <= after <= Project(calls, trace)
            && IsEventsOf(calls, trace[i], after[|before|..])
  {
    ProjectPrefix(calls, trace, i + 1);
    assert trace[..i + 1] == trace[..i] + [trace[i]];
    ProjectExtends(calls, trace[..i], trace[i]);
    EventOf(calls, trace[i]);
  }

  lemma {:induction false} ProjectPrefix(calls: seq<ToolCall>, trace: seq<Action>, n: nat)
    requires WithinCalls(calls, trace) && n <= |trace|
    ensures Project(calls, trace[..n]) <= Project(calls, trace)
  {
    if n < |trace| {
      ProjectPrefix(calls, trace[..|trace|-1], n);
      assert trace[..|trace|-1][..n] == trace[..n];
    } else {
      assert trace[..n] == trace;
    }
  }

  predicate IsPreparation(a: Action) { a.Announce? || a.Prepared? }

  predicate IsReport(a: Action) { a.ReportStart? || a.ReportEnd? }

  // ----- The invariant -----

  ghost predicate Inv(s: State) {
    && s.reported <= s.started <= |s.status|
    && (forall k :: 0 <= k < |s.status| ==>
          && (s.status[k].Idle? <==> k >= s.started)
          && Announcements(s.trace, k) == (if s.status[k].Idle? then 0 else 1)
          && Ends(s.trace, k) == (if s.status[k].Ended? then 1 else 0))
    && (forall k :: 0 <= k < |s.status| && s.status[k].Announced? ==> s.phase.Preparing? && k == s.started - 1)
    && (s.phase.Reporting? || s.phase.Finished? ==> forall k :: 0 <= k < s.started ==> s.status[k].Ended?)
    && (s.reporting ==> s.phase.Reporting? && s.reported < s.started)
    && (s.phase.Finished? ==> s.reported == s.started)
    && (!s.phase.Preparing? ==> s.started == |s.status| || s.aborted)
    && (s.phase.Preparing? || s.phase.Executing? ==> s.reported == 0)
  }

  ghost predicate Kinds(s: State) {
    && (forall i :: 0 <= i < |s.trace| ==> s.trace[i].k < |s.status|)
    && (s.phase.Preparing? ==> forall i :: 0 <= i < |s.trace| ==> !s.trace[i].Run? && !s.trace[i].Update?)
    && (s.phase.Preparing? || s.phase.Executing? ==> forall i :: 0 <= i < |s.trace| ==> !IsReport(s.trace[i]))
  }

  ghost predicate Ordered(trace: seq<Action>) {
    && (forall i, j :: 0 <= i < j < |trace| && trace[i].Run? ==> !IsPreparation(trace[j]))
    && (forall i, j :: 0 <= i < j < |trace| && IsReport(trace[i]) ==> !trace[j].End?)
  }

  ghost predicate TraceInv(s: State) {
    Kinds(s) && Ordered(s.trace) && Reports(s.trace) == seq(s.reported, i => i)
  }

  lemma CountsExtend(trace: seq<Action>, a: Action, k: nat)
    ensures Announcements(trace + [a], k) == Announcements(trace, k) + (if a == Announce(k) then 1 else 0)
    ensures Ends(trace + [a], k) == Ends(trace, k) + (if a.End? && a.k == k then 1 else 0)
  {
    assert (trace + [a])[..|trace|] == trace;
  }

  lemma ActionKeepsInv(s: State, s': State, a: Action)
    requires Inv(s) && ActionStep(s, s', a)
    ensures Inv(s')
  {
    ActionFacts(s, s', a);
    forall k | 0 <= k < |s.status|
      ensures Announcements(s'.trace, k) == Announcements(s.trace, k) + (if a == Announce(k) then 1 else 0)
      ensures Ends(s'.trace, k) == Ends(s.trace, k) + (if a.End? && a.k == k then 1 else 0)
    {
      CountsExtend(s.trace, a, k);
    }
  }

  lemma OrderedExtends(trace: seq<Action>, a: Action)
    requires Ordered(trace)
    requires IsPreparation(a) ==> forall i :: 0 <= i < |trace| ==> !trace[i].Run?
    requires a.End? ==> forall i :: 0 <= i < |trace| ==> !IsReport(trace[i])
    ensures Ordered(trace + [a])
  {
  }

  /** What an action leaves alone, and in which phase which actions happen. */
  lemma ActionFacts(s: State, s': State, a: Action)
    requires ActionStep(s, s', a)
    ensures s'.phase == s.phase && |s'.status| == |s.status| && s'.trace == s.trace + [a]
    ensures s.phase.Preparing? ==> a.Announce? || a.Prepared? || a.End?
    ensures s.phase.Executing? ==> a.Run? || a.Update? || a.End?
    ensures IsReport(a) <==> s.phase.Reporting?
    ensures IsPreparation(a) ==> s.phase.Preparing?
    ensures !s.phase.Finished?
    ensures if a.ReportEnd? then a.k == s.reported && s'.reported == s.reported + 1 else s'.reported == s.reported
  {
  }

  lemma KindsExtend(s: State, s': State, a: Action)
    requires Kinds(s) && a.k < |s.status| && s'.trace == s.trace + [a]
    requires s'.phase == s.phase && |s'.status| == |s.status|
    requires s.phase.Preparing? ==> a.Announce? || a.Prepared? || a.End?
    requires s.phase.Executing? ==> a.Run? || a.Update? || a.End?
    ensures Kinds(s')
  {
  }

  lemma ReportsExtend(trace: seq<Action>, a: Action, n: nat)
    requires Reports(trace) == seq(n, i => i) && (a.ReportEnd? ==> a.k == n)
    ensures Reports(trace + [a]) == seq(if a.ReportEnd? then n + 1 else n, i => i)
  {
    assert (trace + [a])[..|trace|] == trace;
    assert seq(n + 1, i => i) == seq(n, i => i) + [n];
  }

  lemma ActionKeepsTraceInv(s: State, s': State, a: Action)
    requires TraceInv(s) && ActionStep(s, s', a)
    ensures TraceInv(s')
  {
    ActionFacts(s, s', a);
    KindsExtend(s, s', a);
    OrderedExtends(s.trace, a);
    ReportsExtend(s.trace, a, s.reported);
  }

  lemma SilentKeepsInv(s: State, s': State)
    requires Inv(s) && SilentStep(s, s')
    ensures Inv(s') && |s'.status| == |s.status| && s'.trace == s.trace && s'.reported == s.reported
    ensures s'.phase.Preparing? ==> s.phase.Preparing?
    ensures s'.phase.Executing? ==> s.phase.Preparing? || s.phase.Executing?
  {
  }

  lemma SilentKeepsTraceInv(s: State, s': State)
    requires TraceInv(s) && |s'.status| == |s.status| && s'.trace == s.trace && s'.reported == s.reported
    requires s'.phase.Preparing? ==> s.phase.Preparing?
    requires s'.phase.Executing? ==> s.phase.Preparing? || s.phase.Executing?
    ensures TraceInv(s')
  {
  }

  lemma NextKeepsInv(s: State, s': State)
    requires Inv(s) && TraceInv(s) && Next(s, s')
    ensures Inv(s') && TraceInv(s') && |s'.status| == |s.status|
  {
    if SilentStep(s, s') {
      SilentKeepsInv(s, s');
      SilentKeepsTraceInv(s, s');
    } else {
      var a :| ActionStep(s, s', a);
      ActionFacts(s, s', a);
      ActionKeepsInv(s, s', a);
      ActionKeepsTraceInv(s, s', a);
    }
  }

  lemma {:induction false} RunKeepsInv(n: nat, run: seq<State>)
    requires IsRun(n, run)
    ensures Inv(run[|run|-1]) && TraceInv(run[|run|-1]) && |run[|run|-1].status| == n
  {
    if |run| > 1 {
      RunKeepsInv(n, run[..|run|-1]);
      NextKeepsInv(run[|run|-2], run[|run|-1]);
    }
  }

  /** Every end and every report in the trace tells the outcome with which the call settled. */
  ghost predicate TellsOutcomes(s: State) {
    forall i :: 0 <= i < |s.trace| && (s.trace[i].End? || IsReport(s.trace[i])) ==>
      s.trace[i].k < |s.status| && s.status[s.trace[i].k] == Ended(s.trace[i].outcome)
  }

  lemma ActionTellsOutcome(s: State, s': State, a: Action)
    requires Inv(s) && TellsOutcomes(s) && ActionStep(s, s', a)
    ensures TellsOutcomes(s')
  {
  }

  lemma {:induction false} RunTellsOutcomes(n: nat, run: seq<State>)
    requires IsRun(n, run)
    ensures TellsOutcomes(run[|run|-1])
  {
    if |run| > 1 {
      var s, s' := run[|run|-2], run[|run|-1];
      RunTellsOutcomes(n, run[..|run|-1]);
      RunKeepsInv(n, run[..|run|-1]);
      if !SilentStep(s, s') {
        var a :| ActionStep(s, s', a);
        ActionTellsOutcome(s, s', a);
      }
    }
  }

  // ----- The theorems, over every run -----

  /** No tool runs before every announced call is prepared, in every interleaving. */
  lemma NoRunBeforeAllPrepared(n: nat, run: seq<State>, i: nat, j: nat)
    requires IsRun(n, run)
    requires var trace := run[|run|-1].trace; i < j < |trace| && IsPreparation(trace[j])
    ensures !run[|run|-1].trace[i].Run?
  {
    RunKeepsInv(n, run);
  }

  /** At any moment a call was announced at most once and ended at most as often as it was announced. */
  lemma NeverEndsTwice(n: nat, run: seq<State>, k: nat)
    requires IsRun(n, run) && k < n
    ensures Ends(run[|run|-1].trace, k) <= Announcements(run[|run|-1].trace, k) <= 1
  {
    RunKeepsInv(n, run);
  }

  /**
    A finished batch: every announced call was announced once and ended once, all
    ends precede the first report, the results were reported in source order and
    with the outcome the call had ended with, and only an abort leaves calls unannounced.
  */
  lemma FinishedBatch(n: nat, run: seq<State>)
    requires IsRun(n, run) && run[|run|-1].phase.Finished?
    ensures var s := run[|run|-1];
            && s.started <= n && (!s.aborted ==> s.started == n)
            && (forall k :: 0 <= k < s.started ==>
                  Announcements(s.trace, k) == 1 && Ends(s.trace, k) == 1 && Settled(s, k))
            && (forall k :: s.started <= k < n ==> Announcements(s.trace, k) == 0 && Ends(s.trace, k) == 0)
            && (forall i, j :: 0 <= i < j < |s.trace| && IsReport(s.trace[i]) ==> !s.trace[j].End?)
            && Reports(s.trace) == seq(s.started, i => i)
            && TellsOutcomes(s)
  {
    RunKeepsInv(n, run);
    RunTellsOutcomes(n, run);
  }

  // ----- The events of a batch belong to the language of a turn -----

  ghost predicate Open(status: Status) {
    status.Announced? || status.Ready? || status.Running?
  }

  /** The ids of the calls that were announced and have not ended. */
  ghost function OpenIds(calls: seq<ToolCall>, status: seq<Status>): multiset<string>
    requires |calls| == |status|
  {
    if status == [] then multiset{}
    else
      OpenIds(calls[..|status|-1], status[..|status|-1])
      + Mark(calls[|status|-1], status[|status|-1])
  }

  ghost function Mark(call: ToolCall, status: Status): multiset<string> {
    if Open(status) then multiset{call.id} else multiset{}
  }

  lemma Exchange(rest: multiset<string>, out: multiset<string>, into: multiset<string>, last: multiset<string>)
    requires out <= rest
    ensures out <= rest + last
    ensures rest - out + into + last == rest + last - out + into
  {
  }

  lemma Replace(rest: multiset<string>, out: multiset<string>, into: multiset<string>)
    ensures out <= rest + out && rest + out - out + into == rest + into
  {
  }

  lemma OpenIdsSplit(calls: seq<ToolCall>, status: seq<Status>, n: nat)
    requires |calls| == |status| == n + 1
    ensures OpenIds(calls, status) == OpenIds(calls[..n], status[..n]) + Mark(calls[n], status[n])
  {
  }

  lemma {:induction false} OpenIdsUpdate(calls: seq<ToolCall>, status: seq<Status>, k: nat, x: Status)
    requires |calls| == |status| && k < |status|
    ensures Mark(calls[k], status[k]) <= OpenIds(calls, status)
    ensures OpenIds(calls, status[k := x])
            == OpenIds(calls, status) - Mark(calls[k], status[k]) + Mark(calls[k], x)
    decreases |status|
  {
    var n := |status| - 1;
    var rest := OpenIds(calls[..n], status[..n]);
    OpenIdsSplit(calls, status, n);
    OpenIdsSplit(calls, status[k := x], n);
    if k == n {
      assert status[k := x][..n] == status[..n];
      Replace(rest, Mark(calls[n], status[n]), Mark(calls[n], x));
    } else {
      assert status[k := x][..n] == status[..n][k := x];
      OpenIdsUpdate(calls[..n], status[..n], k, x);
      Exchange(rest, Mark(calls[k], status[k]), Mark(calls[k], x), Mark(calls[n], status[n]));
    }
  }

  lemma {:induction false} NoneOpen(calls: seq<ToolCall>, status: seq<Status>)
    requires |calls| == |status|
    requires forall k :: 0 <= k < |status| ==> !Open(status[k])
    ensures OpenIds(calls, status) == multiset{}
  {
    if status != [] {
      NoneOpen(calls[..|status|-1], status[..|status|-1]);
    }
  }

  /** The acceptor's state after the events of a trace, read off the batch's state. */
  ghost predicate Watched(strict: bool, calls: seq<ToolCall>, s: State) {
    && |calls| == |s.status| && WithinCalls(calls, s.trace)
    && WatchAll(strict, QUIET, Project(calls, s.trace)) == InTurn(s.reporting, OpenIds(calls, s.status))
  }

  lemma WatchStart(strict: bool, id: string, open: multiset<string>)
    ensures WatchAll(strict, InTurn(false, open), [ToolStart(id)]) == InTurn(false, open - multiset{} + multiset{id})
  {
    WatchOne(strict, InTurn(false, open), ToolStart(id));
    assert open - multiset{} == open;
  }

  lemma WatchUpdate(strict: bool, id: string, frame: nat, open: multiset<string>)
    requires multiset{id} <= open
    ensures WatchAll(strict, InTurn(false, open), [ToolUpdate(id, frame)]) == InTurn(false, open - multiset{id} + multiset{id})
  {
    WatchOne(strict, InTurn(false, open), ToolUpdate(id, frame));
    assert id in multiset{id};
    assert open - multiset{id} + multiset{id} == open;
  }

  lemma WatchEnd(strict: bool, id: string, isError: bool, open: multiset<string>)
    requires multiset{id} <= open
    ensures WatchAll(strict, InTurn(false, open), [ToolEnd(id, isError)]) == InTurn(false, open - multiset{id} + multiset{})
  {
    WatchOne(strict, InTurn(false, open), ToolEnd(id, isError));
    assert id in multiset{id};
    assert open - multiset{id} + multiset{} == open - multiset{id};
  }

  lemma WatchNothing(strict: bool, open: multiset<string>, mark: multiset<string>)
    requires mark <= open
    ensures WatchAll(strict, InTurn(false, open), []) == InTurn(false, open - mark + mark)
  {
    assert open - mark + mark == open;
  }

  lemma WatchReport(strict: bool, s: State, s': State, a: Action, m: Message)
    requires ActionStep(s, s', a) && IsReport(a)
    ensures s'.status == s.status
    ensures WatchAll(strict, InTurn(s.reporting, multiset{}), [if a.ReportStart? then MessageStart(m) else MessageEnd(m)])
            == InTurn(s'.reporting, multiset{})
  {
    WatchOne(strict, InTurn(s.reporting, multiset{}), if a.ReportStart? then MessageStart(m) else MessageEnd(m));
  }

  /** The statuses before and after an action that is not a report. */
  lemma CallStatuses(s: State, s': State, a: Action)
    requires ActionStep(s, s', a) && !IsReport(a) && (a.Announce? ==> s.status[a.k].Idle?)
    ensures a.k < |s'.status| == |s.status| && s'.status == s.status[a.k := s'.status[a.k]]
    ensures Open(s.status[a.k]) <==> !a.Announce?
    ensures Open(s'.status[a.k]) <==> !a.End?
    ensures s'.reporting == s.reporting
  {
  }

  lemma WatchCall(strict: bool, calls: seq<ToolCall>, s: State, s': State, a: Action)
    requires |calls| == |s.status| && ActionStep(s, s', a) && !IsReport(a)
    requires a.Announce? ==> s.status[a.k].Idle?
    requires !s.reporting
    ensures !s'.reporting
    ensures WatchAll(strict, InTurn(false, OpenIds(calls, s.status)), EventsOf(calls, a))
            == InTurn(false, OpenIds(calls, s'.status))
  {
    CallStatuses(s, s', a);
    CallEvents(strict, calls, s.status, a, s'.status[a.k]);
  }

  lemma WatchCallEvents(strict: bool, calls: seq<ToolCall>, a: Action, open: multiset<string>, before: multiset<string>, after: multiset<string>)
    requires a.k < |calls| && !IsReport(a) && before <= open
    requires before == if a.Announce? then multiset{} else multiset{calls[a.k].id}
    requires after == if a.End? then multiset{} else multiset{calls[a.k].id}
    ensures WatchAll(strict, InTurn(false, open), EventsOf(calls, a)) == InTurn(false, open - before + after)
  {
    var id := calls[a.k].id;
    match a
    case Announce(_) => WatchStart(strict, id, open);
    case Update(_, frame) => WatchUpdate(strict, id, frame, open);
    case End(_, o) => WatchEnd(strict, id, o.isError, open);
    case _ => WatchNothing(strict, open, before);
  }

  lemma CallEvents(strict: bool, calls: seq<ToolCall>, status: seq<Status>, a: Action, after: Status)
    requires |calls| == |status| && a.k < |status| && !IsReport(a)
    requires (Open(status[a.k]) <==> !a.Announce?) && (Open(after) <==> !a.End?)
    ensures WatchAll(strict, InTurn(false, OpenIds(calls, status)), EventsOf(calls, a))
            == InTurn(false, OpenIds(calls, status[a.k := after]))
  {
    OpenIdsUpdate(calls, status, a.k, after);
    WatchCallEvents(strict, calls, a, OpenIds(calls, status), Mark(calls[a.k], status[a.k]), Mark(calls[a.k], after));
  }

  lemma WatchAction(strict: bool, calls: seq<ToolCall>, s: State, s': State, a: Action)
    requires |calls| == |s.status| && Inv(s) && ActionStep(s, s', a)
    ensures WatchAll(strict, InTurn(s.reporting, OpenIds(calls, s.status)), EventsOf(calls, a))
            == InTurn(s'.reporting, OpenIds(calls, s'.status))
  {
    if IsReport(a) {
      NoneOpen(calls, s.status);
      WatchReport(strict, s, s', a, ResultMessage(calls[a.k].id, a.outcome));
    } else {
      WatchCall(strict, calls, s, s', a);
    }
  }

  lemma ProjectExtends(calls: seq<ToolCall>, trace: seq<Action>, a: Action)
    requires WithinCalls(calls, trace) && a.k < |calls|
    ensures WithinCalls(calls, trace + [a])
    ensures Project(calls, trace + [a]) == Project(calls, trace) + EventsOf(calls, a)
  {
    assert (trace + [a])[..|trace|] == trace;
  }

  lemma NextKeepsWatched(strict: bool, calls: seq<ToolCall>, s: State, s': State)
    requires Inv(s) && Next(s, s') && Watched(strict, calls, s)
    ensures Watched(strict, calls, s')
  {
    if !SilentStep(s, s') {
      var a :| ActionStep(s, s', a);
      ActionFacts(s, s', a);
      WatchAction(strict, calls, s, s', a);
      WatchExtends(strict, calls, s.trace, a);
    }
  }

  lemma WatchExtends(strict: bool, calls: seq<ToolCall>, trace: seq<Action>, a: Action)
    requires WithinCalls(calls, trace) && a.k < |calls|
    ensures WithinCalls(calls, trace + [a])
    ensures WatchAll(strict, QUIET, Project(calls, trace + [a])) == WatchAll(strict, WatchAll(strict, QUIET, Project(calls, trace)), EventsOf(calls, a))
  {
    ProjectExtends(calls, trace, a);
    WatchAllConcat(strict, QUIET, Project(calls, trace), EventsOf(calls, a));
  }

  lemma {:induction false} RunKeepsWatched(strict: bool, calls: seq<ToolCall>, run: seq<State>)
    requires IsRun(|calls|, run)
    ensures Watched(strict, calls, run[|run|-1])
  {
    if |run| > 1 {
      RunKeepsWatched(strict, calls, run[..|run|-1]);
      RunKeepsInv(|calls|, run[..|run|-1]);
      NextKeepsWatched(strict, calls, run[|run|-2], run[|run|-1]);
    } else {
      NoneOpen(calls, run[0].status);
    }
  }

  /** A finished batch takes a quiet turn back to a quiet turn, whatever the completion order. */
  lemma FinishedBatchIsQuiet(strict: bool, calls: seq<ToolCall>, run: seq<State>)
    requires IsRun(|calls|, run) && run[|run|-1].phase.Finished?
    ensures Watched(strict, calls, run[|run|-1])
    ensures WatchAll(strict, QUIET, Project(calls, run[|run|-1].trace)) == QUIET
  {
    RunKeepsWatched(strict, calls, run);
    RunKeepsInv(|calls|, run);
    NoneOpen(calls, run[|run|-1].status);
  }
}
