/**
  What a script decides: two runs of the same script from the same start agree turn by turn,
  whatever the scheduler of their parallel batches does, and as long as no hook replaces the
  context, every model request sees exactly the transcript.
*/
module RunReplay {
  import opened AgentEvents
  import opened AgentLoop
  import opened AgentRuns
  import opened Agents
  import opened PendingQueue
  import opened ProviderStreams
  import opened Sequences
  import opened ToolBatches
  import opened ToolCalls
  import opened Wrappers

  /** Two turns that differ in nothing but the order in which parallel calls moved. */
  ghost predicate SameTurn(a: Turn, b: Turn) {
    && a.found == b.found && a.early == b.early && a.late == b.late && a.left == b.left
    && a.request == b.request && a.message == b.message
    && a.outcomes == b.outcomes && a.results == b.results && a.executed == b.executed && a.stopAfter == b.stopAfter
  }

  lemma ResponseIsUnique(stream: ProviderStream, m: AssistantMessage, m': AssistantMessage)
    requires IsResponse(stream, m) && IsResponse(stream, m')
    ensures m == m'
  {
    if i: nat, j: nat :| IsFirstFinal(stream.events, i) && stream.events[i] == Final(m)
                         && IsFirstFinal(stream.events, j) && stream.events[j] == Final(m') {
      assert i == j;
    } else {
      assert forall i :: 0 <= i < |stream.events| ==> !stream.events[i].Final?;
      InterruptedResponse(stream, m);
      InterruptedResponse(stream, m');
    }
  }

  lemma HandledIsUnique(calls: seq<ToolCall>, scripts: CallScripts, n: nat, n': nat)
    requires HandledUntilAbort(calls, scripts, n) && HandledUntilAbort(calls, scripts, n')
    ensures n == n'
  {
  }

  lemma {:induction false} OutcomesAreUnique(scripts: CallScripts, a: seq<Outcome>, b: seq<Outcome>, n: nat)
    requires SequentialOutcomes(scripts, a) && SequentialOutcomes(scripts, b) && n <= |a| == |b|
    ensures a[..n] == b[..n]
  {
    if n > 0 {
      OutcomesAreUnique(scripts, a, b, n - 1);
      forall j | 0 <= j < n - 1 ensures a[j] == b[j] {
        assert a[..n - 1][j] == b[..n - 1][j];
      }
      assert StoppedBefore(a, n - 1) <==> StoppedBefore(b, n - 1);
      assert a[n - 1] == b[n - 1];
    }
  }

  lemma BatchIsUnique(ts: TurnScript, m: AssistantMessage, a: Turn, b: Turn)
    requires IsBatch(ts, m, a.outcomes, a.results, a.executed, a.batch)
    requires IsBatch(ts, m, b.outcomes, b.results, b.executed, b.batch)
    ensures a.outcomes == b.outcomes && a.results == b.results && a.executed == b.executed
    ensures AgentLoop.Failed(m) || m.stop.Length? || ts.sequential ==> a.batch == b.batch
  {
    if AgentLoop.Failed(m) {
    } else if m.stop.Length? {
      assert a.outcomes == b.outcomes;
    } else {
      HandledIsUnique(m.calls, ts.calls, |a.outcomes|, |b.outcomes|);
      if ts.sequential {
        OutcomesAreUnique(ts.calls, a.outcomes, b.outcomes, |a.outcomes|);
        assert a.outcomes[..|a.outcomes|] == a.outcomes && b.outcomes[..|a.outcomes|] == b.outcomes;
        SameExecuted(ts.calls, a.outcomes, a.executed, b.executed);
      } else {
        assert a.outcomes == b.outcomes;
        SamePositions(a.executed, b.executed);
      }
    }
  }

  lemma SameExecuted(scripts: CallScripts, outcomes: seq<Outcome>, a: seq<nat>, b: seq<nat>)
    requires ExecutedIn(scripts, outcomes, a) && ExecutedIn(scripts, outcomes, b)
    ensures a == b
  {
    forall k: nat ensures k in a <==> k in b {
      assert k < |outcomes| ==> (k in a <==> k in b);
    }
    SamePositions(a, b);
  }

  lemma TurnIsDetermined(ts: TurnScript, first: bool, context: seq<Message>, a: Turn, b: Turn)
    requires IsTurnOf(ts, first, context, a) && IsTurnOf(ts, first, context, b) && a.found == b.found
    ensures SameTurn(a, b)
    ensures ts.sequential || a.message.stop.Length? || AgentLoop.Failed(a.message) ==> a.batch == b.batch
  {
    ResponseIsUnique(ts.stream, a.message, b.message);
    BatchIsUnique(ts, a.message, a, b);
  }

  /** `IsRunOf`, handled as a whole. */
  ghost predicate RunOf(script: RunScript, turns: seq<Turn>, context: seq<Message>, opening: Waiting) {
    && |turns| <= |script.turns|
    && forall details :: Expand(details) ==> IsRunOf(script, turns, context, opening)
  }

  lemma TurnAt(script: RunScript, turns: seq<Turn>, context: seq<Message>, opening: Waiting, i: nat)
    requires RunOf(script, turns, context, opening) && i < |turns|
    ensures IsTurnOf(script.turns[i], i == 0, ContextBefore(script, turns, context, i), turns[i])
    ensures i == 0 ==> turns[i].found == opening
    ensures i > 0 ==>
              AsksForAnother(script.turns[i - 1], turns[i - 1]) && turns[i].found == Next(script.turns[i - 1], turns[i - 1])
  {
    assert Expand(true);
  }

  /** After turns that agree the loop goes on alike. */
  lemma SameFuture(ts: TurnScript, a: Turn, b: Turn)
    requires SameTurn(a, b)
    ensures AsksForAnother(ts, a) <==> AsksForAnother(ts, b)
    ensures GoesOn(a) <==> GoesOn(b)
    ensures Next(ts, a) == Next(ts, b) && TurnContext(ts, a) == TurnContext(ts, b)
  {
  }

  lemma {:induction false} TurnsAreDetermined(script: RunScript, a: seq<Turn>, b: seq<Turn>,
                                              context: seq<Message>, opening: Waiting, i: nat)
    requires RunOf(script, a, context, opening) && RunOf(script, b, context, opening)
    requires i < |a| && i < |b|
    ensures SameTurn(a[i], b[i])
    ensures script.turns[i].sequential ==> a[i].batch == b[i].batch
  {
    if i > 0 {
      TurnsAreDetermined(script, a, b, context, opening, i - 1);
      SameFuture(script.turns[i - 1], a[i - 1], b[i - 1]);
    }
    TurnAt(script, a, context, opening, i);
    TurnAt(script, b, context, opening, i);
    TurnIsDetermined(script.turns[i], i == 0, ContextBefore(script, a, context, i), a[i], b[i]);
  }

  /** A run that ended within its script, or was observed to the end of it. */
  ghost predicate IsWhole(script: RunScript, turns: seq<Turn>, context: seq<Message>, opening: Waiting, finished: bool, w: Waiting) {
    && RunOf(script, turns, context, opening)
    && IsRest(script, turns, opening, finished, w) && (!finished ==> |turns| == |script.turns|)
  }

  lemma NotShorter(script: RunScript, a: seq<Turn>, b: seq<Turn>, context: seq<Message>, opening: Waiting, finished: bool, w: Waiting)
    requires IsWhole(script, a, context, opening, finished, w) && RunOf(script, b, context, opening)
    ensures |b| <= |a|
  {
    if |a| < |b| {
      var n := |a| - 1;
      TurnsAreDetermined(script, a, b, context, opening, n);
      TurnAt(script, b, context, opening, |a|);
      SameFuture(script.turns[n], a[n], b[n]);
    }
  }

  /**
    A run is determined by its script and by what it starts from: two runs have as many turns,
    agree on what each of them found, delivered, asked the model, got from it and from its
    tools, end or go on together, and leave the same messages waiting.
  */
  lemma RunIsDetermined(script: RunScript, a: seq<Turn>, b: seq<Turn>, context: seq<Message>, opening: Waiting,
                        finished: bool, finished': bool, w: Waiting, w': Waiting)
    requires IsWhole(script, a, context, opening, finished, w) && IsWhole(script, b, context, opening, finished', w')
    ensures |a| == |b| && finished == finished' && w == w'
    ensures forall i :: 0 <= i < |a| ==> SameTurn(a[i], b[i])
    ensures MessagesOf(a) == MessagesOf(b)
    ensures (forall i :: 0 <= i < |a| ==> script.turns[i].sequential) ==> RunLog(script, a) == RunLog(script, b)
  {
    NotShorter(script, a, b, context, opening, finished, w);
    NotShorter(script, b, a, context, opening, finished', w');
    forall i | 0 <= i < |a|
      ensures SameTurn(a[i], b[i]) && (script.turns[i].sequential ==> a[i].batch == b[i].batch)
    {
      TurnsAreDetermined(script, a, b, context, opening, i);
    }
    SameMessages(a, b);
    SameRest(script, a, b, opening, finished, finished', w, w');
    if forall i :: 0 <= i < |a| ==> script.turns[i].sequential {
      SameLog(script, a, b);
    }
  }

  lemma SameRest(script: RunScript, a: seq<Turn>, b: seq<Turn>, opening: Waiting,
                 finished: bool, finished': bool, w: Waiting, w': Waiting)
    requires |a| == |b| <= |script.turns| && (a != [] ==> SameTurn(a[|a|-1], b[|b|-1]))
    requires IsRest(script, a, opening, finished, w) && IsRest(script, b, opening, finished', w')
    ensures finished == finished' && w == w'
  {
    if a != [] {
      SameFuture(script.turns[|a|-1], a[|a|-1], b[|b|-1]);
    }
  }

  lemma {:induction false} SameMessages(a: seq<Turn>, b: seq<Turn>)
    requires |a| == |b| && forall i :: 0 <= i < |a| ==> SameTurn(a[i], b[i])
    ensures MessagesOf(a) == MessagesOf(b)
  {
    if a != [] {
      SameMessages(a[..|a|-1], b[..|b|-1]);
    }
  }

  lemma {:induction false} SameLog(script: RunScript, a: seq<Turn>, b: seq<Turn>)
    requires |a| == |b| <= |script.turns| && forall i :: 0 <= i < |a| ==> SameTurn(a[i], b[i]) && a[i].batch == b[i].batch
    ensures RunLog(script, a) == RunLog(script, b)
  {
    if a != [] {
      SameLog(script, a[..|a|-1], b[..|b|-1]);
    }
  }

  // ----- What the model sees -----

  /** In the first n turns no hook replaced the context, and no response entered it more than once. */
  ghost predicate KeepContext(script: RunScript, n: nat)
    requires n <= |script.turns|
  {
    forall i :: 0 <= i < n ==>
      script.turns[i].preparedContext.None? && script.turns[i].requestContext.None? && OneStart(script.turns[i].stream)
  }

  /** Every model request sees what the run started with, then all that its turns added to the transcript so far. */
  lemma {:induction false} RequestIsTranscript(script: RunScript, turns: seq<Turn>, context: seq<Message>, opening: Waiting, i: nat)
    requires i < |turns| && RunOf(script, turns, context, opening) && KeepContext(script, |turns|)
    ensures turns[i].request == context + MessagesOf(turns[..i]) + turns[i].Injected()
  {
    if i == 0 {
      assert context + [] == context;
    } else {
      RequestIsTranscript(script, turns, context, opening, i - 1);
      assert turns[..i][..i - 1] == turns[..i - 1];
      ContextGrows(script.turns[i - 1], context, MessagesOf(turns[..i - 1]), turns[i - 1]);
    }
    TurnAt(script, turns, context, opening, i);
    Associative(ContextBefore(script, turns, context, i), turns[i].early, turns[i].late);
  }

  lemma ContextGrows(ts: TurnScript, context: seq<Message>, before: seq<Message>, t: Turn)
    requires OneStart(ts.stream) && t.request == context + before + t.Injected()
    ensures TurnContext(ts, t) == context + (before + TurnMessages(t))
  {
    assert ContextEntries(Partials(ts.stream), t.message) == [Assistant(t.message)];
    Associative(context + before, t.Injected(), ResponseMessages(t.message, t.results));
    Associative(context, before, TurnMessages(t));
  }
}
