/**
  What becomes of one tool call: preparation, execution, the `afterToolCall` hook,
  the result transform, and the flags a batch reads from the settled results.
  Hooks and tools are the environment; every failure the loop catches is a value here.
*/
module ToolCalls {
  import opened AgentEvents
  import opened Wrappers

  /** A tool result, as the loop handles it. */
  datatype Outcome = Outcome(isError: bool, terminate: bool, stopTurn: bool, content: seq<Part>)

  /** An error of the loop's own: one diagnostic and no flag. */
  const ERROR := Outcome(true, false, false, [Note])

  // ----- Preparation -----

  datatype BeforeHook = NoHook | HookThrew | Proceed | Block(terminate: bool)

  datatype Preparation = Preparation(toolFound: bool, argumentsValid: bool, before: BeforeHook, aborted: bool)

  /** `None` when the tool may run, otherwise the result that stands in for running it. */
  function Prepare(p: Preparation): Option<Outcome> {
    if !p.toolFound || !p.argumentsValid || p.before.HookThrew? || p.aborted then Some(ERROR)
    else if p.before.Block? then Some(ERROR.(terminate := p.before.terminate))
    else None
  }

  // ----- Execution -----

  /** How the tool itself ended; `ThrewTyped` is a `ToolExecutionError` that carries a result. */
  datatype ToolRun = Returned(result: Outcome) | Threw | ThrewTyped(result: Outcome)

  /** Whether a progress listener failed while the tool ran. */
  datatype ListenerFailure = NoFailure | Failed | FailedTyped(result: Outcome)

  /** An error result: a diagnostic before what was observed, whose flags it keeps. */
  function CreateErrorToolResult(observed: Option<Outcome>): Outcome {
    if observed.Some? then observed.value.(isError := true, content := [Note] + observed.value.content) else ERROR
  }

  function Execute(run: ToolRun, failure: ListenerFailure): Outcome {
    match (run, failure)
    case (Returned(r), NoFailure) => r
    case (Returned(r), Failed) => CreateErrorToolResult(Some(r))
    case (Returned(_), FailedTyped(e)) => e.(isError := true)
    case (ThrewTyped(r), NoFailure) => r.(isError := true)
    case (ThrewTyped(r), _) => CreateErrorToolResult(Some(r))
    case (Threw, _) => CreateErrorToolResult(None)
  }

  // ----- Finalization -----

  datatype AfterHook =
    | NoAfter
    | AfterThrew
    | Override(isError: Option<bool>, terminate: Option<bool>, stopTurn: Option<bool>, content: Option<seq<Part>>)

  function Or<T>(o: Option<T>, otherwise: T): T {
    if o.Some? then o.value else otherwise
  }

  function Finalize(executed: Outcome, after: AfterHook): Outcome {
    match after
    case NoAfter => executed
    case AfterThrew => CreateErrorToolResult(Some(executed))
    case Override(e, t, s, c) =>
      Outcome(Or(e, executed.isError), Or(t, executed.terminate), Or(s, executed.stopTurn), Or(c, executed.content))
  }

  datatype ResultTransform = NoTransform | TransformThrew | Content(content: seq<Part>)

  function Images(content: seq<Part>): seq<Part> {
    if content == [] then []
    else if content[0].Image? then [content[0]] + Images(content[1..])
    else Images(content[1..])
  }

  /** A transform that fails costs the result its text, not its images. */
  function TransformResult(o: Outcome, t: ResultTransform): Outcome {
    match t
    case NoTransform => o
    case TransformThrew => o.(isError := true, content := [Note] + Images(o.content))
    case Content(c) => o.(content := c)
  }

  // ----- One call from start to end -----

  /** Everything the environment decides about one call. */
  datatype CallScript = CallScript(
    preparation: Preparation,
    frames: seq<nat>,
    run: ToolRun,
    listener: ListenerFailure,
    after: AfterHook,
    transform: ResultTransform,
    abortedAfter: bool)

  function Runs(c: CallScript): bool {
    Prepare(c.preparation).None?
  }

  function Settle(c: CallScript): Outcome {
    var o := if Runs(c) then Finalize(Execute(c.run, c.listener), c.after) else Prepare(c.preparation).value;
    TransformResult(o, c.transform)
  }

  /** The result of a call skipped behind a barrier, or cut off by the token limit. */
  function Refuse(c: CallScript): Outcome {
    TransformResult(ERROR, c.transform)
  }

  function ResultMessage(callId: string, o: Outcome): Message {
    ToolResult(callId, o.isError, o.content)
  }

  function ShouldTerminate(outcomes: seq<Outcome>): bool {
    || (exists i :: 0 <= i < |outcomes| && outcomes[i].stopTurn)
    || (outcomes != [] && forall i :: 0 <= i < |outcomes| ==> outcomes[i].terminate)
  }

  predicate AnyStop(outcomes: seq<Outcome>) {
    exists i :: 0 <= i < |outcomes| && outcomes[i].stopTurn
  }

  // ----- What a call comes to, told from what the environment did -----

  /** A tool runs exactly when it is found, its arguments are valid, and neither an abort nor `beforeToolCall` stops it. */
  lemma RunsExactly(c: CallScript)
    ensures Runs(c) <==>
              var p := c.preparation;
              p.toolFound && p.argumentsValid && !p.aborted && (p.before.NoHook? || p.before.Proceed?)
  {
  }

  /** A call that runs, returns, and meets no failure, hook or transform comes to what the tool returned. */
  lemma UndisturbedCall(c: CallScript)
    requires Runs(c) && c.run.Returned? && c.listener.NoFailure? && c.after.NoAfter? && c.transform.NoTransform?
    ensures Settle(c) == c.run.result
  {
  }

  /**
    When a result is reported as an error: always when the tool did not run or a hook or the
    transform threw. Otherwise `afterToolCall` decides if it has an opinion, and if not, any
    result is an error but one that the tool returned as a success while no listener failed.
  */
  lemma ErrorExactly(c: CallScript)
    ensures Settle(c).isError <==>
              || c.transform.TransformThrew? || !Runs(c) || c.after.AfterThrew?
              || if c.after.Override? && c.after.isError.Some? then c.after.isError.value
                 else !(c.run.Returned? && c.listener.NoFailure? && !c.run.result.isError)
  {
  }

  /**
    When a result asks to end the run with its batch: a call that did not run, only when
    `beforeToolCall` blocked it so. Otherwise `afterToolCall` decides if it has an opinion, and
    if not, the result of a listener that failed with its own, or else that of the tool.
  */
  lemma TerminatesExactly(c: CallScript)
    ensures Settle(c).terminate <==>
              if !Runs(c) then
                var p := c.preparation;
                p.toolFound && p.argumentsValid && !p.aborted && p.before == Block(true)
              else if c.after.Override? && c.after.terminate.Some? then c.after.terminate.value
              else if c.run.Returned? && c.listener.FailedTyped? then c.listener.result.terminate
              else !c.run.Threw? && c.run.result.terminate
  {
  }

  /** When a result raises a barrier: only a call that ran can, and the same parties decide. */
  lemma StopsExactly(c: CallScript)
    ensures Settle(c).stopTurn <==>
              && Runs(c)
              && if c.after.Override? && c.after.stopTurn.Some? then c.after.stopTurn.value
                 else if c.run.Returned? && c.listener.FailedTyped? then c.listener.result.stopTurn
                 else !c.run.Threw? && c.run.result.stopTurn
  {
  }

  /** What a result holds when no transform touches it. Each failure puts one diagnostic in front of what was there. */
  lemma ContentExactly(c: CallScript)
    requires c.transform.NoTransform?
    ensures !Runs(c) ==> Settle(c).content == [Note]
    ensures Runs(c) && c.after.Override? && c.after.content.Some? ==> Settle(c).content == c.after.content.value
    ensures Runs(c) && (c.after.Override? ==> c.after.content.None?) ==>
              var failed := if c.after.AfterThrew? then [Note] else [];
              Settle(c).content == failed + if c.run.Threw? then [Note]
                                            else if c.listener.NoFailure? then c.run.result.content
                                            else if c.run.Returned? && c.listener.FailedTyped? then c.listener.result.content
                                            else [Note] + c.run.result.content
  {
    var executed := Execute(c.run, c.listener).content;
    assert [] + executed == executed;
  }

  /** What a transform makes of a result: its content, or after it threw the images that were there. */
  lemma TransformedExactly(c: CallScript)
    ensures c.transform.Content? ==> Settle(c) == Settle(c.(transform := NoTransform)).(content := c.transform.content)
    ensures c.transform.TransformThrew? ==>
              Settle(c) == Settle(c.(transform := NoTransform)).(
                isError := true, content := [Note] + Images(Settle(c.(transform := NoTransform)).content))
  {
  }

  lemma {:induction false} ImagesConcat(a: seq<Part>, b: seq<Part>)
    ensures Images(a + b) == Images(a) + Images(b)
    ensures |a| == 1 ==> Images(a) == if a[0].Image? then a else []
  {
    if a == [] {
      assert a + b == b;
    } else {
      assert (a + b)[1..] == a[1..] + b;
      ImagesConcat(a[1..], b);
    }
  }

  /** A call that is refused reports an error and raises no flag, whatever it would have come to. */
  lemma RefusedExactly(c: CallScript)
    ensures Refuse(c) == Outcome(true, false, false, if c.transform.Content? then c.transform.content else [Note])
  {
  }

  /**
    A barrier the tool asked for survives a plain listener failure, a throwing
    `afterToolCall` and a throwing transform. It is lost exactly when the hook
    overrides it with false, or when a listener failed with an execution error of
    its own that carries no barrier and the hook does not restore one.
  */
  lemma BarrierSurvives(c: CallScript)
    requires Runs(c) && !c.run.Threw? && c.run.result.stopTurn
    ensures !Settle(c).stopTurn <==>
              if c.after.Override? && c.after.stopTurn.Some? then !c.after.stopTurn.value
              else c.run.Returned? && c.listener.FailedTyped? && !c.listener.result.stopTurn
  {
  }
}
