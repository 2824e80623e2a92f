# Verified models of Step Code

Step Code is a coding agent: a loop that alternates model requests and tool batches, a
model catalog that refreshes over the network, a terminal user interface, and adapters.
This project models the parts of it that run protocols, keep state across steps or parse
input that arrives in pieces, and proves what holds of them over every run and every input.
`dafny verify dfyconfig.toml` checks all of it. Nothing here executes the original program.

## What is modelled

**The agent loop and the agent around it.** `AgentEvents` has the vocabulary of messages and
lifecycle events, the reducer that a host sees the run through, and an acceptor for the event
language `agent_start (turn_start ... turn_end)+ agent_end`. `ToolCalls` settles one tool call,
`PendingQueue` is the steering and follow-up queue, `Agents` the stateful agent,
`ProviderStreams` the completion of provider streams, `ToolBatches` the truncated, the
sequential and the parallel batch, `AgentLoop` the nested loops, `AgentRuns` the entry points
`prompt` and `continue`, and `RunReplay` shows that a run is determined by its script. These
are imperative: the loop, the queues and the agent are classes and methods with mutable fields,
and they are proved against ghost logs of the run's events and queue drains. Everything outside
the loop (streams, tools, hooks, aborts, what the host queues while a hook or the model runs)
is a script of arbitrary choices, so a theorem about every script is a theorem about every run.
A script is finite; a run that uses it up is observed no further, and what is proved holds at
that point too. `ParallelBatch` and `Progress` are step relations for the two concurrent
protocols inside the loop: the parallel tool batch, and the coalescing of a tool's progress
frames. The imperative parallel batch, under an arbitrary scheduler, is shown to be a run of
the step relation.

**The model catalog.** `Catalog` interleaves refreshes, supersessions, aborts and the bodies
of queued publications of one provider id. `ModelOverlay` merges the dynamic models over the
static ones.

**Terminal input.** `EscapeSequences` is the incremental splitter, `SequenceFraming` says
what its sequences look like (sections 5.4 and 5.6 of ECMA-48), `PasteProtocol` is one call
of the input buffer as a function, `PasteChunking` and `PasteCuts` say how the result depends
on where the input is cut, and `StdinBuffers` is the class itself.

**The LaTeX renderer.** `LatexText` and `LatexFormat` are the text operations and what they do
to layout markers, and `LatexWriting` says what they write. `LatexMeaning` says what source
means, as functions; `LatexReadings` spells that out construct by construct, and
`LatexExpressions` proves that every formula, written as source, renders as put together from
its parts. `LatexGuards` has conditions on the source and what cutting it into rows and cells
does to them. `LatexParsing` is the recursive parser with its shared list of layout nodes; each
of its methods computes the meaning of what it reads. `LatexLayout` joins laid-out pieces along
their baselines, `LatexRendering` replaces markers by the layouts of their nodes,
`LatexPlacing` says where everything stands then, `LatexCycles` when that ends, `LatexMarkers`
which characters of markers stay in the result, `LatexOutput` is the renderer as a whole, and
`LatexLeaks` runs it on sources that leave some.

**Kitty images, layout, the inbound gate, the proxy stream.** `KittyImages` encodes images and
keeps the registry, `KittyPlacements` finds an encoding again in a line, `KittyCrops` crops
it. `LayoutTrees` and `LayoutComponents` describe laid-out boxes as values, `LayoutBoxes` is
the code that updates boxes in place. `Inbound` is the gate for chat messages. `ProxyLines`
and `ProxyStream` rebuild a message from a proxied event stream.

## Assumptions

- Hooks and event listeners do not throw, except where a member is about just that
  (`ToolCalls`, `Progress`, `AgentEvents.FailureCompletesRun`). Tools, `beforeToolCall`,
  `afterToolCall` and `transformToolResult` may throw.
- Hosts change the transcript only through the loop's events. A host may enqueue, clear,
  change modes and change the delivery filter at every hook and while the model responds.
- Nothing is assumed of providers. The acceptor of the event language comes in two grades: one
  for every run, and a strict one that also forbids a message to start while another is
  streamed, which a run's log meets exactly when each response has at most one start event.
- A store operation of the catalog has no effect after it settled, and waiting for a
  publication may end early but never cancels it.
- The visible width of text is any additive function; symbol tables, Unicode classes, JSON
  parsers, the number of lines a component renders and the allocation of stack sizes are
  arbitrary functions.
- Code units are numbers in the terminal input buffer. The LaTeX renderer steps over
  characters, which agrees with the source for every character of the basic plane. Characters
  beyond it are two units there. The forged marker of `ForgeCycle` has two such characters:
  the source copies their halves one after the other through a group in braces, where no half
  has a meaning of its own, and they stand next to each other again in the numerator, so the
  run is the same. The markers that the renderer itself makes are never parsed.

## Findings

- The events emitted after a failure complete the event language only if the failure struck
  inside a turn with nothing open (`FailureCompletesRun`, `FailureBetweenTurns`).
- A provider that sends several start events gets several `message_start` events and context
  entries, and its messages overlap (`StreamAssistantResponse`, `TwoStartsDoNotNest`); all else
  that is proved of runs still holds.
- A run continued with queued follow-ups receives steering in the same first turn exactly when
  some may be delivered after what the host did before the first poll, so two drains can meet
  there (`Continue`, `FollowUpMeetsSteering`).
- A tool's last progress frame is lost exactly when a delivery failed while it waited
  (`LastFrameDelivered`, `FailureMayLoseTheLastFrame`), and a listener failure that carries its
  own result can lower a stop barrier (`BarrierSurvives`).
- Restoring the cached catalog leaves the models different from what the store holds of that
  provider exactly when a store operation took effect between its reading the store and its
  turn, and wrote other models of that provider (`RestoreMayBeStale`, `RestoreAgreesExactly`);
  network publications never do.
- Cutting the input right after an emitted `ESC ESC` shows when the next unit opens a sequence
  (`ChunkInvariance`), and a paste's start marker can be typed as text when its ESC arrives in
  an earlier chunk; `CutExactly` gives the exact condition for both.
- The second recogniser of mouse reports accepts nothing that the pattern does not
  (`MouseFieldsAgree`).
- A source that contains the renderer's private-use markers can make a fraction's numerator
  refer to that fraction, and then the layout does not end (`ForgeCycle`); it ends exactly when
  no fraction leads to itself (`LayoutEndsExactly`).
- The texts of an operator with its limits above and below are never searched for markers, so
  in display mode `\max_{\begin{matrix}a\\b\end{matrix}}` leaves private-use characters in the
  output (`RenderLimitMatrix`).
- Striking through breaks a marker, so in either mode `\not{\begin{matrix}a\\b\end{matrix}}`
  renders as the struck start of the marker, its index and its end, and the matrix is gone
  (`RenderStruckMatrix`).
- These are the only two ways in which a source without such characters leaves any:
  `RenderLatex` has the exact condition on what was parsed, and no matrix holds one. None is
  left when the source is guarded (`LatexGuards.IsGuarded`): when what follows each `\not` and,
  in display mode, each `_`, `^` and `\operatorname` is a character, a command without
  arguments and limits, or a group of such.
- The gate accepts an id again exactly when an event without objection came after the id's
  window and there is room; that takes a new creation time or a clock that goes back
  (`AcceptedAgainExactly`, `NewCreationTimeIsAcceptedAgain`, `ClockGoingBackIsAcceptedAgain`).
- The last line of a proxied stream is not processed unless a line feed follows it
  (`UnfinishedLineIsKept`, `LastEventIsLost`).

## Model

| member | source | states |
|---|---|---|
| AgentEvents.DoneIsCompleteRun | packages/agent-core/src/agent-loop.ts:103-126 | a log the acceptor takes to its final state is agent_start, one or more turns that hold no lifecycle event inside, agent_end |
| AgentEvents.AcceptedShape | packages/agent-core/src/agent-loop.ts:196-333 | every accepted log, told without the acceptor: whole turns, then at most one open turn |
| AgentEvents.AcceptedPrefix | packages/agent-core/src/agent-loop.ts:196-333 | acceptance is prefix closed: a log rejected once stays rejected |
| AgentEvents.AcceptedExtends | packages/agent-core/src/agent-loop.ts:196-333 | every accepted log can be completed to a whole run, so accepted means prefix of a run |
| AgentEvents.StrictExactly | packages/agent-core/src/agent-loop.ts:339-432 | the strict acceptor accepts a log if and only if the other one does and no message starts while another is being streamed |
| AgentEvents.HostAgrees | packages/agent-core/src/agent.ts:636-674 | folding any accepted log leaves the host showing as streaming and as pending only what the acceptor holds open |
| AgentEvents.NothingPendingAtTurnEnd | packages/agent-core/src/agent.ts:636-674 | no tool call is pending and no message streaming for the host at any turn_end of an accepted log |
| AgentEvents.HostShows | packages/agent-core/src/agent.ts:636-674 | after any events the host sees, told without the reducer: all messages that ended, the one last started or changed, a tool call as pending if it last started, the error of the last turn that had one |
| AgentEvents.FailureCompletesRun | packages/agent-core/src/agent.ts:603-619 | the failure events complete the run if and only if the failure struck inside a turn with no tool call open and, strictly, no message being streamed |
| AgentEvents.FailureBetweenTurns | packages/agent-core/src/agent.ts:603-619 | a failure between two turns leaves a turn_end without a turn_start |
| ToolCalls.BarrierSurvives | packages/agent-core/src/agent-loop.ts:913-961 | a barrier set by the tool is lost if and only if afterToolCall overrides it or a listener's own result lacks it and nothing restores it |
| ToolCalls.RunsExactly | packages/agent-core/src/agent-loop.ts:737-807 | a tool runs if and only if its tool exists, its arguments are valid, nothing aborted before or after the hook, and beforeToolCall neither threw nor blocked it |
| ToolCalls.UndisturbedCall | packages/agent-core/src/agent-loop.ts:913-961 | a call that runs and returns, without listener failure, hook or transform, settles as exactly what the tool returned |
| ToolCalls.ErrorExactly | packages/agent-core/src/agent-loop.ts:821-961 | when the settled outcome is an error, told by preparation, the tool's run, the listener and afterToolCall |
| ToolCalls.TerminatesExactly | packages/agent-core/src/agent-loop.ts:821-961 | when it terminates, in the same terms |
| ToolCalls.StopsExactly | packages/agent-core/src/agent-loop.ts:821-961 | when it stops the turn, in the same terms |
| ToolCalls.ContentExactly | packages/agent-core/src/agent-loop.ts:821-961 | whose content comes out: the tool's, the error's, the refusal's or the hook's |
| ToolCalls.TransformedExactly | packages/agent-core/src/agent-loop.ts:1017-1031 | what transformToolResult makes of the content, and that its failure leaves it as it was |
| ToolCalls.RefusedExactly | packages/agent-core/src/agent-loop.ts:737-807 | what a call that may not run gets instead |
| PendingQueue.PendingMessageQueue.Enqueue | packages/agent-core/src/agent.ts:131-153 | one message at the end of the queue; nothing delivered or cleared changes |
| PendingQueue.PendingMessageQueue.Drain | packages/agent-core/src/agent.ts:154-180 | releases what mode and filter allow, in queue order, keeps the rest in order, and moves the released positions from queued to delivered |
| PendingQueue.PendingMessageQueue.Clear | packages/agent-core/src/agent.ts:181-191 | everything queued, and nothing else, becomes cleared |
| PendingQueue.PendingMessageQueue.HasDeliverable | packages/agent-core/src/agent.ts:131-191 | true if and only if some queued message passes the filter |
| PendingQueue.DrainAccounts | packages/agent-core/src/agent.ts:154-180 | every position ever enqueued stays exactly one of queued, delivered once, cleared |
| PendingQueue.ReleasesWhatMay | packages/agent-core/src/agent.ts:154-180 | a drain releases something if and only if some queued message passes the filter, and otherwise leaves the queue as it is |
| PendingQueue.DrainReleases | packages/agent-core/src/agent.ts:154-180 | what a drain releases and keeps, told by the positions in the queue: those that pass the filter, or the first of them |
| PendingQueue.DrainIsDetermined | packages/agent-core/src/agent.ts:154-180 | there is one such drain only |
| ParallelBatch.NextKeepsInv | packages/agent-core/src/agent-loop.ts:622-688 | every step of a parallel batch keeps the protocol invariant and the order of its trace |
| ParallelBatch.NoRunBeforeAllPrepared | packages/agent-core/src/agent-loop.ts:622-688 | in every interleaving no tool runs before the last announcement and preparation |
| ParallelBatch.NeverEndsTwice | packages/agent-core/src/agent-loop.ts:622-688 | at every moment a call has ended at most as often as it started, and started at most once |
| ParallelBatch.FinishedBatch | packages/agent-core/src/agent-loop.ts:622-688 | a finished batch: one start and one end per handled call, all ends before the first result, results in source order, and only an abort leaves calls out |
| ParallelBatch.RunKeepsWatched | packages/agent-core/src/agent-loop.ts:622-688 | the events of every interleaving are accepted inside a turn, with the open calls exactly those started and not ended |
| ParallelBatch.FinishedBatchIsQuiet | packages/agent-core/src/agent-loop.ts:622-688 | a finished batch takes a quiet turn back to a quiet turn |
| ParallelBatch.EventAt | packages/agent-core/src/agent-loop.ts:622-688 | which lifecycle event each action of a batch shows |
| Agents.MutableAgentState.ProcessEvents | packages/agent-core/src/agent.ts:636-674 | the state after an event is the reducer applied to the state before, and the log grows by that event |
| Agents.Agent.GetSteeringMessages | packages/agent-core/src/agent.ts:567-574 | skips the one initial poll when told to, otherwise drains the steering queue under the delivery filter and records the drain |
| Agents.Agent.GetFollowUpMessages | packages/agent-core/src/agent.ts:567-574 | drains the follow-up queue under the delivery filter and records the drain |
| ProviderStreams.NormalizeProviderStream | packages/agent-core/src/agent-loop.ts:434-460 | a stream is cut after its first final event, or completed by one error event when it closes or throws before |
| ProviderStreams.StreamAssistantResponse | packages/agent-core/src/agent-loop.ts:339-432 | the response is the message of the stream's first final event if there is one, else the last partial marked as failed or aborted; the log is exactly what the events before it show, each start and update with its own message, and the context grows by it |
| ProviderStreams.FinishResponse | packages/agent-core/src/agent-loop.ts:339-432 | the final message replaces the partial one in the context, or is added when there was none |
| ProviderStreams.NormalizedPartials | packages/agent-core/src/agent-loop.ts:434-488 | completing a stream changes nothing of it before its first final event |
| ProviderStreams.NormalizedResponse | packages/agent-core/src/agent-loop.ts:434-488 | the response of a stream, told without completing it |
| ProviderStreams.InterruptedResponse | packages/agent-core/src/agent-loop.ts:462-488 | a stream that closes or throws first gives the last partial, as an error or as aborted with the stream's failure |
| ProviderStreams.OneMessage | packages/agent-core/src/agent-loop.ts:339-432 | one start and any number of updates show one message: started, updated by each, ended |
| ProviderStreams.TwoStartsDoNotNest | packages/agent-core/src/agent-loop.ts:339-432 | a stream with two start events, whose second message starts while the first is streamed |
| ToolBatches.FailToolCallsFromTruncatedMessage | packages/agent-core/src/agent-loop.ts:497-524 | a length-truncated message runs no call; every call gets a refusal, in order, and the log is exactly that |
| ToolBatches.ExecuteToolCallsSequential | packages/agent-core/src/agent-loop.ts:552-620 | results are those of the calls up to the first abort, in order; every call after a stopTurn result is refused, and exactly the earlier runnable ones ran; the log is exactly start, updates, end and result of each call in turn |
| ToolBatches.ExecuteToolCallsParallel | packages/agent-core/src/agent-loop.ts:622-688 | the log is the events of a finished run of the batch protocol, which tells exactly the outcomes and the forwarded updates; the calls that ran are exactly the runnable ones; results come in source order |
| ToolBatches.ResultsAt | packages/agent-core/src/agent-loop.ts:1017-1036 | the k-th result message answers the k-th call with the k-th outcome |
| AgentLoop.RunTurn | packages/agent-core/src/agent-loop.ts:208-318 | one turn, exactly: what it delivered, the request the model saw, the response of its stream, which calls ran and with what outcomes, its log from turn_start to turn_end, both message lists grown by the same messages, and whether tool results or a stop decide what comes next |
| AgentLoop.TurnStep | packages/agent-core/src/agent-loop.ts:208-318 | after a turn the loop stops, or knows whether tool results or steering ask for another; a stopping turn polls no queue |
| AgentLoop.MoreExactly | packages/agent-core/src/agent-loop.ts:264-315 | a turn asks for another by itself if and only if it executed calls, no result stopped, and not all of them terminated |
| AgentLoop.RunTurns | packages/agent-core/src/agent-loop.ts:208-318 | the inner loop ends by a failure or barrier, by the script's end, or with no tool results owed and no steering |
| AgentLoop.PollFollowUps | packages/agent-core/src/agent-loop.ts:317-326 | one follow-up drain when the run would otherwise end |
| AgentLoop.RunLoop | packages/agent-core/src/agent-loop.ts:196-333 | for every script: every turn of the run is such a turn of its script, the log is theirs in order, every drain is what the queues held at its poll and is injected by one turn, and the loop goes on exactly as long as tool results, steering or follow-ups ask for it |
| AgentLoop.FirstPollReleases | packages/agent-core/src/agent-loop.ts:208-212 | the poll before the first turn releases something if and only if it is not skipped and a message may be delivered after what the host did |
| AgentRuns.RunAgentLoop | packages/agent-core/src/agent-loop.ts:103-126 | the same for a run opened with prompts: agent_end carries prompts followed by the messages of the turns |
| AgentRuns.RunPromptMessages | packages/agent-core/src/agent.ts:497-523 | for every script: the log of the whole run from agent_start to agent_end, the transcript, what is still queued and which drains there were; complete when the run finished, strictly accepted exactly when each response had at most one start |
| AgentRuns.Prompt | packages/agent-core/src/agent.ts:410-421 | refused if and only if a run is under way, and then nothing changes; otherwise transcript, log and drains are those of a run of the script |
| AgentRuns.TakeQueued | packages/agent-core/src/agent.ts:432-476 | queued steering first; follow-ups only when no steering may be delivered |
| AgentRuns.Continue | packages/agent-core/src/agent.ts:432-476 | the three refusals and what they imply of transcript and queues; queued steering fills its first turn alone; follow-ups share it with steering exactly when some may be delivered at the first poll; transcript, log and drains are those of a run of the script |
| AgentRuns.FollowUpMeetsSteering | packages/agent-core/src/agent.ts:432-476 | a continued run whose first turn carries a follow-up and a steering message |
| RunReplay.RunIsDetermined | packages/agent-core/src/agent-loop.ts:196-333 | a run is determined by its script and where it starts: two runs agree on every request, response, tool outcome, message and decision, and on what is left in the queues, whatever order a parallel batch ran in |
| RunReplay.TurnIsDetermined | packages/agent-core/src/agent-loop.ts:208-318 | one turn is determined by its script, the context and what was found at its poll |
| RunReplay.RequestIsTranscript | packages/agent-core/src/agent-loop.ts:208-318 | every model request sees what the run started with and then all that its turns added so far, unless a hook replaces the context |
| Progress.NextKeepsInv | packages/agent-core/src/agent-loop.ts:821-911 | every step of tool, listener and awaiting loop keeps the coalescer's invariant |
| Progress.DeliversASubsequence | packages/agent-core/src/agent-loop.ts:821-911 | at most one delivery in flight, and deliveries are a subsequence of the accepted frames |
| Progress.LastFrameDelivered | packages/agent-core/src/agent-loop.ts:821-911 | at return nothing is in flight, and the last accepted frame was delivered if and only if no delivery failed while it waited |
| Progress.NothingAfterReturn | packages/agent-core/src/agent-loop.ts:821-911 | nothing is delivered or accepted after the call returned |
| Progress.FailureMayLoseTheLastFrame | packages/agent-core/src/agent-loop.ts:821-911 | a run in which a listener failure loses the last frame |
| Progress.FailedExactly | packages/agent-core/src/agent-loop.ts:821-911 | a listener failure is recorded if and only if a delivery failed, and frames are accepted until the tool settles |
| Progress.CanReturn | packages/agent-core/src/agent-loop.ts:821-911 | however tool and listener behaved, the call can still return |
| Catalog.NextKeepsInv | packages/providers/src/models.ts:320-365 | every step of refreshes, aborts and publication bodies keeps the chain serial and the store and models consistent with the last touch |
| Catalog.OneBodyAtATime | packages/providers/src/models.ts:338-365 | at most one publication body runs at a time, even when callers gave up waiting |
| Catalog.GenerationsNeverGoBack | packages/providers/src/models.ts:320-365 | store mutations and in-memory updates occur in nondecreasing generation order, and none of generation g after g+1 has begun |
| Catalog.NetworkPublicationAgrees | packages/providers/src/models.ts:345-365 | from a network publication's success to the next mutation or update, store and dynamic models are both what it published, in every interleaving |
| Catalog.RestoreMayBeStale | packages/providers/src/models.ts:801-826 | an interleaving in which a cached restore succeeds and leaves store and models different |
| Catalog.RestoreAgreesExactly | packages/providers/src/models.ts:801-815 | a restore that succeeds leaves the models as what the store holds of its provider if and only if no store operation took effect since it read the store, or the last one wrote the same models of that provider |
| Catalog.RestoreAgrees | packages/providers/src/models.ts:801-815 | so it does whenever no store operation was under way at that read and its generation had nothing queued to persist in front of it |
| Catalog.BodyExactly | packages/providers/src/models.ts:345-365 | each step of a publication body: it checks twice that it was neither aborted nor overtaken, settles false where a check or the store operation fails, and only then leaves the models alone |
| Catalog.GivenUpNeverPublishes | packages/providers/src/models.ts:345-365 | a publication aborted or overtaken before it settled never publishes in any interleaving, and touches nothing if its body had not started |
| Catalog.AllCanSettle | packages/providers/src/models.ts:338-365 | from every state all publications can settle: the chain never blocks |
| Catalog.OwnedExactly | packages/providers/src/models.ts:801-815 | a restore takes over the stored models of its provider, in their order |
| ModelOverlay.CurrentModels | packages/providers/src/models.ts:768-776 | lookups find the last dynamic model of an id, else the baseline one; the baseline keeps its places, and new ids follow once each, in the order in which they first occur |
| ModelOverlay.FindAfterPut | packages/providers/src/models.ts:768-776 | replacing or appending one model changes the lookup of its id and no other |
| EscapeSequences.ExtractCompleteSequences | packages/tui/src/stdin-buffer.ts:194-257 | the two scanning loops compute the recursive extraction |
| EscapeSequences.Conserves | packages/tui/src/stdin-buffer.ts:194-257 | sequences and remainder concatenate to the input |
| EscapeSequences.RemainderIsPending | packages/tui/src/stdin-buffer.ts:194-257 | the remainder is empty or starts with ESC and has no complete prefix |
| EscapeSequences.ChunkInvariance | packages/tui/src/stdin-buffer.ts:194-257 | cutting after a gives the same sequences and remainder if and only if a does not end in an emitted ESC ESC before a unit that opens a sequence |
| SequenceFraming.EmittedAreTokens | packages/tui/src/stdin-buffer.ts:31-80 | every emitted sequence is a minimal complete sequence or a single unit |
| SequenceFraming.TokenComesOutWhole | packages/tui/src/stdin-buffer.ts:31-80 | and every minimal complete sequence is emitted whole |
| SequenceFraming.ControlFraming | packages/tui/src/stdin-buffer.ts:86-128 | minimal complete control sequences are exactly ESC [ up to the first final unit, mouse reports apart |
| SequenceFraming.StringFraming | packages/tui/src/stdin-buffer.ts:134-181 | minimal complete OSC, DCS and APC strings are exactly those that stop at their first terminator |
| SequenceFraming.MetaFraming | packages/tui/src/stdin-buffer.ts:31-80 | ESC and any other unit is complete at once |
| SequenceFraming.SingleShiftFraming | packages/tui/src/stdin-buffer.ts:31-80 | ESC O is complete with exactly one unit more |
| SequenceFraming.TokenExactly | packages/tui/src/stdin-buffer.ts:31-181 | an if-and-only-if for every text: what a minimal complete sequence is, told by its units |
| SequenceFraming.OpensExactly | packages/tui/src/stdin-buffer.ts:31-80 | which units open a longer sequence behind ESC |
| SequenceFraming.MouseFieldsAgree | packages/tui/src/stdin-buffer.ts:86-128 | the field-by-field recogniser of mouse reports accepts exactly what the pattern accepts |
| PasteProtocol.ProcessKeepsInv | packages/tui/src/stdin-buffer.ts:296-397 | between calls paste mode has an empty buffer and no end marker; otherwise the buffer is an incomplete sequence without a start marker |
| PasteProtocol.Accounts | packages/tui/src/stdin-buffer.ts:296-399 | every code unit ends up in a data event, a paste, a suppressed duplicate, a dropped escape or the state, in order |
| PasteProtocol.RunAccounts | packages/tui/src/stdin-buffer.ts:296-435 | over any run of chunks and timer flushes the invariant holds and every code unit is accounted for, in order |
| PasteProtocol.EmissionIsFaithful | packages/tui/src/stdin-buffer.ts:399-408 | emission neither loses nor changes a sequence, whether emitted or suppressed |
| PasteProtocol.PrintableExactly | packages/tui/src/stdin-buffer.ts:186-192 | ESC [ codepoint u is a printable key from the space on |
| PasteProtocol.ShiftedExactly | packages/tui/src/stdin-buffer.ts:186-192 | and so it is with a shifted key behind a colon |
| PasteProtocol.BaseExactly | packages/tui/src/stdin-buffer.ts:186-192 | and with a base key behind another |
| PasteProtocol.OnlyPrintable | packages/tui/src/stdin-buffer.ts:186-192 | and nothing else is one |
| PasteProtocol.EmptyInput | packages/tui/src/stdin-buffer.ts:317-320 | an empty chunk on an empty buffer is passed on as an empty sequence |
| PasteProtocol.BeforePasteExactly | packages/tui/src/stdin-buffer.ts:346-357 | in front of a start marker whole sequences are passed on and an incomplete one is dropped |
| PasteProtocol.MarkerStartsPaste | packages/tui/src/stdin-buffer.ts:346-372 | what stands behind the first start marker is read as pasted |
| PasteProtocol.FlushExactly | packages/tui/src/stdin-buffer.ts:410-424 | the timer passes on what is held as one sequence |
| PasteChunking.SuppressedExactly | packages/tui/src/stdin-buffer.ts:399-408 | a unit is suppressed if and only if the sequence right before it was an unmodified Kitty key of that code point |
| PasteChunking.PlainCut | packages/tui/src/stdin-buffer.ts:296-397 | outside pastes a cut shows if and only if the lookahead falls on it |
| PasteChunking.PasteUnderEveryCut | packages/tui/src/stdin-buffer.ts:296-397 | for every cut into non-empty chunks a paste gives one event with exactly the text before its first end marker, and what follows is handled as if it came alone |
| PasteChunking.StartMarkerMayBeSwallowed | packages/tui/src/stdin-buffer.ts:296-397 | an input whose start marker is found in one chunk and not in two |
| PasteCuts.CutExactly | packages/tui/src/stdin-buffer.ts:296-397 | for every reachable state and every two chunks: both together give the same events and state as one after the other if and only if CutShows does not hold |
| PasteCuts.NoCutNoTrace | packages/tui/src/stdin-buffer.ts:296-397 | any number of chunks, none of whose cuts shows, are handled as their concatenation |
| PasteCuts.SwallowedMarker | packages/tui/src/stdin-buffer.ts:296-397 | a marker whose ESC an emitted sequence took always shows |
| PasteCuts.ShortenedInHeld | packages/tui/src/stdin-buffer.ts:194-257 | cutting a text at an ESC in its held part loses no sequence if and only if no lone ESC was emitted right before it |
| StdinBuffers.StdinBuffer.Process | packages/tui/src/stdin-buffer.ts:296-397 | the recursive method does to the fields and the listeners what the protocol function says, and arms the timer for exactly what is held: the short delay for a lone ESC, the long one for anything longer |
| StdinBuffers.StdinBuffer.ProcessChunk | packages/tui/src/stdin-buffer.ts:296-315 | bytes above 127 alone become ESC and the low byte, other bytes their text |
| StdinBuffers.DecodeExactly | packages/tui/src/stdin-buffer.ts:296-308 | a single byte from 128 on is ESC and the byte less 128, all else the decoded text |
| StdinBuffers.VisibleExactly | packages/tui/src/stdin-buffer.ts:399-408 | listeners are called with exactly the data and paste events |
| StdinBuffers.StdinBuffer.Flush | packages/tui/src/stdin-buffer.ts:410-424 | returns the held sequence and leaves the idle state |
| StdinBuffers.StdinBuffer.Fire | packages/tui/src/stdin-buffer.ts:380-397 | a fired timer emits the held sequence as it is and leaves what the flush function says |
| StdinBuffers.StdinBuffer.Clear | packages/tui/src/stdin-buffer.ts:426-435 | back to idle without emitting |
| LatexText.MarkerIsSafe | packages/tui/src/latex.ts:1003-1017 | a marker is safe below n, strictly or not, if and only if its index is below n |
| LatexText.NormalizeSafe | packages/tui/src/latex.ts:632-643 | normalisation never makes, breaks or renumbers a marker |
| LatexFormat.ScriptSafe | packages/tui/src/latex.ts:599-612 | sub- and superscripts keep markers whole |
| LatexFormat.FractionSafe | packages/tui/src/latex.ts:614-620 | linear fractions keep markers whole |
| LatexFormat.RootSafe | packages/tui/src/latex.ts:622-625 | roots keep markers whole |
| LatexFormat.StrikeSafe | packages/tui/src/latex.ts:967-979 | striking a text through leaves it strictly safe if and only if it does not start with a marker; a struck marker is broken, and nothing left could be taken for one |
| LatexFormat.RowsAreShorter | packages/tui/src/latex.ts:1221-1223 | rows of an environment are no longer than its body |
| LatexFormat.RowsAreFree | packages/tui/src/latex.ts:1221-1223 | rows hold no character of a marker if the body holds none |
| LatexFormat.RowSourceIsShorter | packages/tui/src/latex.ts:1225-1270 | the source rebuilt from a row's cells is no longer than the row, and free of markers if it is |
| LatexFormat.MatrixLineSafe | packages/tui/src/latex.ts:1298-1341 | a matrix line padded into columns and fenced keeps the markers of its cells |
| LatexWriting.SuperscriptExactly | packages/tui/src/latex.ts:599-612 | a superscript is written with raised characters if and only if all its characters have one, white space around signs aside; else as ^c or ^(..) |
| LatexWriting.SubscriptExactly | packages/tui/src/latex.ts:599-612 | a subscript with lowered characters if and only if all have one; else as _c, _word or _(..) |
| LatexWriting.SpacedSign | packages/tui/src/latex.ts:599-612 | a sign loses the white space around it in a script |
| LatexWriting.FractionExactly | packages/tui/src/latex.ts:614-620 | which fractions in the line need brackets, above and below |
| LatexWriting.RootExactly | packages/tui/src/latex.ts:622-625 | which radicands need brackets |
| LatexWriting.StrikeExactly | packages/tui/src/latex.ts:967-979 | the stroke goes over the first character only, between spaces |
| LatexWriting.BlackboardExactly | packages/tui/src/latex.ts:1043-1046 | character by character |
| LatexWriting.OperatorIsSpaced | packages/tui/src/latex.ts:627-645 | a named operator gets a space exactly where it would run into a letter, a number, a bracket, a root or a node |
| LatexWriting.CollapseFrom | packages/tui/src/latex.ts:632-645 | of a run of blanks one space stays, and all else as it is |
| LatexWriting.KeepLinesFrom | packages/tui/src/latex.ts:632-645 | empty lines stay in the middle only |
| LatexWriting.NormalizeLines | packages/tui/src/latex.ts:632-645 | lines are tidied one by one, then the whole is trimmed |
| LatexWriting.RowEnds | packages/tui/src/latex.ts:1221-1223 | a row ends at two backslashes, and an argument in brackets in the same line belongs to the break |
| LatexWriting.LastRow | packages/tui/src/latex.ts:1221-1223 | source without a break is one row |
| LatexWriting.PreambleGoes | packages/tui/src/latex.ts:1256-1258 | a first group in braces goes, with the white space before it |
| LatexWriting.RowSourceExactly | packages/tui/src/latex.ts:1259-1268 | cells of an aligned row are read as one source, two by two with a space between where columns come in pairs |
| LatexWriting.PairsExactly | packages/tui/src/latex.ts:1259-1268 | how cells are paired |
| LatexWriting.CaseLineExactly | packages/tui/src/latex.ts:1276-1286 | a condition is introduced by if, unless it brings such a word |
| LatexWriting.WordExactly | packages/tui/src/latex.ts:1276-1286 | when it does |
| LatexWriting.CommaGoes | packages/tui/src/latex.ts:1276-1286 | a comma at the end of a value goes |
| LatexWriting.ColumnWidthExactly | packages/tui/src/latex.ts:1298-1316 | the widest cell decides how wide a column is |
| LatexWriting.PadRowExactly | packages/tui/src/latex.ts:1298-1316 | every row has a cell in every column |
| LatexWriting.PadCellExactly | packages/tui/src/latex.ts:1298-1316 | filled up with protected spaces to the width of the column |
| LatexWriting.MatrixLineExactly | packages/tui/src/latex.ts:1317-1336 | the bars between cells and the fences of each environment in first, middle and last lines |
| LatexWriting.AttachExactly | packages/tui/src/latex.ts:852-862 | a script after a named operator goes before the mark at its end |
| LatexWriting.TrailingExactly | packages/tui/src/latex.ts:886-898 | which node a text ends in |
| LatexGuards.RowsHaveNoBreak | packages/tui/src/latex.ts:1221-1223 | no row holds two backslashes in a row |
| LatexGuards.OneRow | packages/tui/src/latex.ts:1221-1223 | source without two backslashes in a row is one row |
| LatexGuards.CellSuits | packages/tui/src/latex.ts:1298-1301 | from a cell neither rows nor cells can be split, and it is as free of markers as the body |
| LatexGuards.SliceIsGuarded | packages/tui/src/latex.ts:1225-1296 | a piece of guarded source that does not end inside a command name is guarded |
| LatexGuards.RowSourceIsGuarded | packages/tui/src/latex.ts:1257-1270 | the source rebuilt from the cells of a guarded row is guarded, whatever cells meet in it |
| LatexParsing.LayoutNodes.Push | packages/tui/src/latex.ts:1003-1017 | a new node keeps the nodes well founded if and only if its texts refer below it, and its marker carries its own index |
| LatexParsing.LatexParser.Render | packages/tui/src/latex.ts:811-817 | ends on every source and computes its meaning: a text if and only if the source is supported, and the nodes; the result is safe if no marker starts in the source, and strictly safe if the source is guarded |
| LatexParsing.LatexParser.ParseSequence | packages/tui/src/latex.ts:819-905 | ends on every source, moves forward only, computes the meaning of the sequence, and leaves nodes and text safe, strictly so for guarded source |
| LatexParsing.LatexParser.ParseCommand | packages/tui/src/latex.ts:914-1086 | every command consumes source, computes the meaning of the command, and keeps the invariant |
| LatexParsing.LatexParser.ParseNot | packages/tui/src/latex.ts:967-979 | computes what a negation means; in guarded source and in cells nothing that is struck holds a character of a marker |
| LatexParsing.LatexParser.ParseLimits | packages/tui/src/latex.ts:1105-1129 | in guarded source the limits that may be placed above and below hold no character of a marker |
| LatexParsing.LatexParser.ParseOperator | packages/tui/src/latex.ts:1088-1144 | operators with limits end, compute their meaning, and keep the invariant |
| LatexParsing.LatexParser.ParseFraction | packages/tui/src/latex.ts:1003-1017 | fractions compute their meaning, as nodes in display mode, and keep the nodes well founded |
| LatexParsing.LatexParser.ParseRequiredArgument | packages/tui/src/latex.ts:1146-1174 | an argument computes its meaning, with stacking switched off and on again; one known to be plain comes out without characters of markers |
| LatexParsing.LatexParser.ReadRawGroup | packages/tui/src/latex.ts:1191-1219 | a raw group is the text up to the matching brace, and the position is right after it; there is none exactly when no brace opens or none closes it, and then the source is unsupported |
| LatexParsing.LatexParser.RenderMatrix | packages/tui/src/latex.ts:1298-1341 | tables compute their meaning; from source without characters of markers every matrix node is free of them |
| LatexParsing.LatexParser.ParseEnvironment | packages/tui/src/latex.ts:1225-1296 | environments end, with nested parsers on strictly shorter source, and compute their meaning |
| LatexParsing.LatexParser.RenderNested | packages/tui/src/latex.ts:1343-1350 | a nested parser on strictly shorter source computes its meaning, leaves this parser's position alone and the nodes well founded |
| LatexReadings.SequenceEnds | packages/tui/src/latex.ts:819-905 | how a sequence of elements ends, and when that is an error |
| LatexReadings.TextIsAppended | packages/tui/src/latex.ts:819-905 | any run of ordinary characters is read as itself |
| LatexReadings.CharacterIsAppended | packages/tui/src/latex.ts:864-902 | white space, relations, cell separators and ties |
| LatexReadings.DotIsAppended | packages/tui/src/latex.ts:886-896 | a full stop after a table goes into its last line |
| LatexReadings.CommandIsAppended | packages/tui/src/latex.ts:839-850 | negative space takes the space before it away; every other command's text is appended |
| LatexReadings.SuperscriptIsAppended | packages/tui/src/latex.ts:852-862 | ^ and its argument behind the text without its trailing space |
| LatexReadings.SubscriptIsAppended | packages/tui/src/latex.ts:852-862 | _ likewise |
| LatexReadings.FixedReads | packages/tui/src/latex.ts:941-966 | spacing, ignored commands, escaped characters, the double bar |
| LatexReadings.LineBreakReads | packages/tui/src/latex.ts:914-945 | line breaks and a backslash at the end of a line or of the source |
| LatexReadings.NotReads | packages/tui/src/latex.ts:967-979 | a negated symbol of its own, else the struck argument, else an error |
| LatexReadings.SymbolReads | packages/tui/src/latex.ts:983-990 | symbols, relations and operators between spaces |
| LatexReadings.NamedOperatorReads | packages/tui/src/latex.ts:991-993 | named operators between their marks |
| LatexReadings.DelimiterReads | packages/tui/src/latex.ts:994-1002 | sizes and delimiters leave nothing, with a full stop behind them |
| LatexReadings.FractionReads | packages/tui/src/latex.ts:1003-1017 | a fraction stacks as a node in display mode, and its parts do not stack again; else it stays in the line |
| LatexReadings.RootReads | packages/tui/src/latex.ts:1018-1030 | signs for square, cube and fourth roots, other degrees as superscripts |
| LatexReadings.BoxReads | packages/tui/src/latex.ts:1032-1034 | boxes in square brackets |
| LatexReadings.BinomialReads | packages/tui/src/latex.ts:1035-1037 | binomials as a choose b |
| LatexReadings.AccentReads | packages/tui/src/latex.ts:1038-1042 | an accent over one character, else written as a function |
| LatexReadings.ModulusReads | packages/tui/src/latex.ts:1058-1061 | moduli in round brackets |
| LatexReadings.StackReads | packages/tui/src/latex.ts:1062-1071 | overset, stackrel and underset as scripts |
| LatexReadings.WrapperReads | packages/tui/src/latex.ts:1072-1075 | fonts leave their argument; text keeps its white space |
| LatexReadings.UnknownIsUnsupported | packages/tui/src/latex.ts:1079-1086 | every other word is an error, and so is an end without a beginning |
| LatexReadings.ArgumentReads | packages/tui/src/latex.ts:1155-1174 | an argument is a group, a command or a character |
| LatexReadings.OptionalReads | packages/tui/src/latex.ts:1176-1189 | an optional argument reaches up to the first closing bracket and is read by itself |
| LatexReadings.ModifierReads | packages/tui/src/latex.ts:1088-1104 | \\limits and \\nolimits, unless they only start a longer word |
| LatexReadings.LimitReads | packages/tui/src/latex.ts:1105-1129 | each limit is its argument, normalised and without spaces; a second one of a kind is an error |
| LatexReadings.LimitsAreWritten | packages/tui/src/latex.ts:1130-1144 | limits above and below in display mode, else in brackets or as scripts in the line |
| LatexReadings.LimitOperatorReads | packages/tui/src/latex.ts:980-982 | operators that take limits by nature |
| LatexReadings.LimitSymbolReads | packages/tui/src/latex.ts:983-988 | symbols that do |
| LatexReadings.OperatorNameReads | packages/tui/src/latex.ts:1047-1054 | names made up in the source, with a star for limits |
| LatexReadings.EnvironmentReads | packages/tui/src/latex.ts:1225-1236 | an environment's body ends where its end stands first |
| LatexReadings.EquationReads | packages/tui/src/latex.ts:1239-1241 | equations are their body, trimmed |
| LatexReadings.AlignedReads | packages/tui/src/latex.ts:1243-1270 | aligned rows are read one by one, and what comes out empty goes |
| LatexReadings.CasesRead | packages/tui/src/latex.ts:1272-1287 | alternatives under one brace |
| LatexReadings.GridReads | packages/tui/src/latex.ts:1288-1341 | a table of several lines becomes a node, a shorter one is text |
| LatexReadings.NestedReads | packages/tui/src/latex.ts:1343-1350 | nested source that is not supported comes out as it is and makes the whole unsupported |
| LatexReadings.WholeReads | packages/tui/src/latex.ts:811-817 | source is supported if and only if nothing in it was an error and all of it was read |
| LatexExpressions.FormulaRenders | packages/tui/src/latex.ts:819-1086 | for every formula of text, groups, scripts, symbols, relations, fractions, roots, boxes, binomials and accents, nested to any depth: its source is supported and comes out as put together from its parts, in both modes, nodes included |
| LatexExpressions.FormulaReads | packages/tui/src/latex.ts:819-1086 | and so it is inside any other source, from any state of the parser |
| LatexExpressions.SuperscriptRenders | packages/tui/src/latex.ts:852-862 | base^{script} comes out as the base with the raised characters of the script, if all have one; else with ^c or ^(..) |
| LatexExpressions.SubscriptRenders | packages/tui/src/latex.ts:852-862 | base_{script} likewise lowered, else with _c, _word or _(..) |
| LatexLayout.JoinLayouts | packages/tui/src/latex.ts:684-707 | pieces are joined as the row function says, and the result fits its width and baseline |
| LatexLayout.ColumnsAlign | packages/tui/src/latex.ts:684-707 | in every row the piece of layout i starts where the layouts before it end and is exactly as wide as layout i |
| LatexLayout.RowsAlign | packages/tui/src/latex.ts:684-707 | each line stands as far from the joined baseline as from its own |
| LatexLayout.MarkerReadsBack | packages/tui/src/latex.ts:709-720 | the layout reads from a marker the index the parser wrote |
| LatexLayout.SafeMarkers | packages/tui/src/latex.ts:709-720 | every marker found in safe text refers to a node below the bound |
| LatexRendering.FractionFits | packages/tui/src/latex.ts:729-745 | all lines of a fraction are equally wide, so the rule covers both parts |
| LatexRendering.RenderLayout | packages/tui/src/latex.ts:709-795 | ends for safe text over well-founded nodes, renders what the layout function says, and fits |
| LatexRendering.RenderNode | packages/tui/src/latex.ts:727-780 | each node is laid out from its own parts, the recursion going to lower nodes only |
| LatexRendering.LowerNodesDecide | packages/tui/src/latex.ts:709-795 | a text's layout depends on the nodes below its bound only, whatever nodes follow |
| LatexRendering.PlainLineIsKept | packages/tui/src/latex.ts:709-795 | a line without whole markers is laid out as itself without trailing white space |
| LatexPlacing.FractionExactly | packages/tui/src/latex.ts:734-747 | numerator above, denominator below, both centered, the rule between them on the baseline |
| LatexPlacing.OperatorExactly | packages/tui/src/latex.ts:748-767 | limits above and below their operator, all centered, the operator on the baseline |
| LatexPlacing.MatrixExactly | packages/tui/src/latex.ts:768-774 | lines of a table filled up to the widest |
| LatexPlacing.NodeExactly | packages/tui/src/latex.ts:734-774 | each kind of node in its own way, from its own parts |
| LatexPlacing.TextExactly | packages/tui/src/latex.ts:722-733 | text loses the white space next to nodes, but keeps one space next to a table |
| LatexPlacing.LastTextExactly | packages/tui/src/latex.ts:778-784 | and so does the text behind the last node |
| LatexPlacing.NextMarker | packages/tui/src/latex.ts:716-777 | up to the next marker there is text, then its node, then the rest |
| LatexPlacing.NoMoreMarkers | packages/tui/src/latex.ts:778-784 | without a marker the rest is text |
| LatexPlacing.PieceStands | packages/tui/src/latex.ts:684-707 | a piece stands where the widths before it add up to, its baseline on the joined one |
| LatexPlacing.PieceIsBlank | packages/tui/src/latex.ts:684-707 | and where it has no line there are spaces |
| LatexPlacing.BaselineIsReached | packages/tui/src/latex.ts:684-707 | the joined baseline is the highest, and as much as any piece needs stands below it |
| LatexPlacing.LinesExactly | packages/tui/src/latex.ts:709-795 | lines of source are laid out one below the other, the first giving the baseline |
| LatexPlacing.PaddedExactly | packages/tui/src/latex.ts:678-682 | how lines are filled up, behind or on both sides |
| LatexPlacing.FlattenedExactly | packages/tui/src/latex.ts:1370-1380 | exactly the indentation that all lines share goes, and the white space at their ends |
| LatexPlacing.OutputExactly | packages/tui/src/latex.ts:1362-1380 | text without nodes is returned as it is, otherwise its layout |
| LatexMarkers.TextIsClear | packages/tui/src/latex.ts:709-795 | the layout of a text holds no character of a marker if and only if such characters stand in whole markers only, and no operator or matrix that these lead to has one in its texts |
| LatexMarkers.GuardedIsFlat | packages/tui/src/latex.ts:709-795 | text and nodes as guarded source leaves them meet that condition |
| LatexCycles.LayoutEndsExactly | packages/tui/src/latex.ts:709-747 | the nested calls of the layout have a bound if and only if no fraction that the text leads to leads back to itself |
| LatexCycles.SafeNestsWithin | packages/tui/src/latex.ts:709-747 | safe text over well-founded nodes nests no deeper than its bound |
| LatexCycles.ForgeCycle | packages/tui/src/latex.ts:1003-1017 | parsing a fraction whose numerator is the text of marker 0 makes a node that refers to itself, and a layout without end |
| LatexOutput.RenderLatex | packages/tui/src/latex.ts:1362-1380 | for sources in which no marker starts: what is returned is the layout of what the source means, unless the source is not supported; without protected spaces and with white space at the end only where a table is padded; no character of a marker is left if and only if the parsed text is flat; from source without such characters no matrix holds one, and none is left if the source is guarded |
| LatexLeaks.RenderLimitMatrix | packages/tui/src/latex.ts:1088-1144 | the renderer run on a matrix as a limit in display mode: a source without characters of markers whose rendering holds some |
| LatexLeaks.RenderStruckMatrix | packages/tui/src/latex.ts:967-979 | the renderer run on a struck matrix, in either mode: exactly the characters of the broken marker are rendered |
| KittyImages.ChunksCarryPayload | packages/tui/src/terminal-image.ts:194-238 | chunks are at most 4096 units, all but the last exactly that, none empty, and concatenate to the payload |
| KittyImages.EncodeKitty | packages/tui/src/terminal-image.ts:194-238 | the loop writes one command per chunk, all but the last announcing more |
| KittyImages.ShortImageText | packages/tui/src/terminal-image.ts:194-220 | the whole text of an image that fits one command, control by control |
| KittyImages.LongImageText | packages/tui/src/terminal-image.ts:220-238 | the whole text of a longer one: controls in the first command, m=1 in all but the last, m=0 there |
| KittyImages.Registry.Register | packages/tui/src/terminal-image.ts:316-324 | the registry holds exactly the 1000 most recently registered ids, each with its latest registration |
| KittyImages.Registry.Get | packages/tui/src/terminal-image.ts:326-331 | finds an id if and only if it is among those |
| KittyImages.JustRegisteredIsFound | packages/tui/src/terminal-image.ts:316-331 | an image just registered is found with the number of registrations as generation |
| KittyImages.RecentExactly | packages/tui/src/terminal-image.ts:316-324 | ids are ordered by their latest registration, and all that were registered are there |
| KittyImages.NewestExactly | packages/tui/src/terminal-image.ts:316-324 | of more than a thousand the last thousand are kept |
| KittyImages.LatestExactly | packages/tui/src/terminal-image.ts:316-331 | the last registration of an id and how many there were up to it |
| KittyPlacements.GetKittyImagePlacement | packages/tui/src/terminal-image.ts:366-398 | the loop over the chain of commands computes the placement function |
| KittyPlacements.PlacementRoundTrip | packages/tui/src/terminal-image.ts:366-398 | for any ESC-free payload and any prefix without an introducer, exactly the encoding's span is found and replaced, if and only if the image has a registered id |
| KittyPlacements.EndOfChain | packages/tui/src/terminal-image.ts:366-398 | a chain of commands is followed to the end of its last one |
| KittyPlacements.IntroducerExactly | packages/tui/src/terminal-image.ts:326-331 | an if-and-only-if: the first introducer and the text up to the first semicolon behind it |
| KittyPlacements.ImageIdExactly | packages/tui/src/terminal-image.ts:326-331 | the first field that gives an id |
| KittyPlacements.PlacingText | packages/tui/src/terminal-image.ts:345-364 | the whole text of the command that replaces an encoding, control by control |
| KittyCrops.CropStaysInside | packages/tui/src/terminal-image.ts:400-412 | a crop shows at least one pixel row and only rows of the image |
| KittyCrops.CropsTile | packages/tui/src/terminal-image.ts:400-412 | adjacent crops leave no pixel row out and share at most one |
| KittyCrops.CropKeepsImage | packages/tui/src/terminal-image.ts:400-412 | a cropped line stands for the same registered image |
| KittyCrops.CropExactly | packages/tui/src/terminal-image.ts:400-412 | which pixel rows: from the start of the first visible cell row to the end of the last; and when there is no crop |
| KittyCrops.CroppedLineExactly | packages/tui/src/terminal-image.ts:400-412 | which controls the cropped line has, and that all else in it stays |
| LayoutTrees.IntersectIsOverlap | packages/tui/src/layout.ts:54-60 | the intersection has exactly the cells that both rectangles have |
| LayoutTrees.UpdatedIsClipped | packages/tui/src/layout.ts:95-98 | recomputing clips sets every clip right, whatever they were |
| LayoutTrees.ClipIsWhatShows | packages/tui/src/layout.ts:95-98 | a cell is in a box's clip if and only if the viewport and every box on the way to it have it |
| LayoutTrees.VisitIsScan | packages/tui/src/layout.ts:400-410 | the pruned descent finds what an exhaustive scan finds, in the same order |
| LayoutTrees.DeepestFirstSorts | packages/tui/src/layout.ts:400-410 | the result is sorted by descending depth and loses, adds and swaps nothing within a depth |
| LayoutTrees.ScrollViewsAtIsExhaustive | packages/tui/src/layout.ts:400-410 | scroll views at a point are those of the exhaustive scan, deepest first |
| LayoutTrees.FoundExactly | packages/tui/src/layout.ts:400-410 | an if-and-only-if: a scroll view is found at a depth when some path of boxes that all have the point leads to it |
| LayoutTrees.ViewsAt | packages/tui/src/layout.ts:400-410 | the views of the hits, one for one |
| LayoutTrees.ThumbInsideTrack | packages/tui/src/layout.ts:266-291 | the thumb lies in the track, at its top when unscrolled and at its bottom when scrolled to the end |
| LayoutTrees.ThumbIsProportional | packages/tui/src/layout.ts:266-291 | the thumb's height and top are the shares of the track that the visible rows and the scrolled ones are, rounded, within their bounds |
| LayoutComponents.LaidOutIsClipped | packages/tui/src/layout.ts:100-241 | after any layout every clip is the overlap of its box and the clip around it |
| LayoutComponents.MovedIsLaidOut | packages/tui/src/layout.ts:90-93 | translating a layout gives the boxes of a layout that starts lower |
| LayoutComponents.ScrollingIsLayingOut | packages/tui/src/layout.ts:100-150 | placing content at the old offset, moving and clipping it gives the very boxes of a layout at the new offset |
| LayoutComponents.RowEntry | packages/tui/src/layout.ts:195-241 | in a row, child i stands behind the widths and gaps before it, with its own width, and its y and height by the alignment |
| LayoutComponents.ColumnEntry | packages/tui/src/layout.ts:166-193 | in a column, child i stands below the heights and gaps before it, with its own height |
| LayoutComponents.SiblingsStandApart | packages/tui/src/layout.ts:166-241 | so no two children of a stack share a cell |
| LayoutComponents.ScrollPlaces | packages/tui/src/layout.ts:130-165 | where the content of a scroll view stands, and how far it is scrolled |
| LayoutComponents.NaturalHeight | packages/tui/src/layout.ts:100-241 | the height of a component that is asked for none |
| LayoutBoxes.LayoutBox.TranslateBox | packages/tui/src/layout.ts:90-93 | moves the box and all boxes below it, in place |
| LayoutBoxes.LayoutBox.UpdateClips | packages/tui/src/layout.ts:95-98 | recomputes the clips of the box and all boxes below it, in place |
| LayoutBoxes.LayoutBox.Visit | packages/tui/src/layout.ts:400-410 | pushes the hits of the pruned descent onto the list |
| LayoutBoxes.LayoutComponent | packages/tui/src/layout.ts:100-241 | the boxes built and updated in place are those of the layout function |
| LayoutBoxes.GetScrollViewsAt | packages/tui/src/layout.ts:400-410 | computes the scroll views at a point, deepest first |
| Inbound.LarkInboundGate.AcceptEvent | packages/lark-adapter/src/inbound.ts:47-113 | the method does to the gate what the decision function says, rejections in the same order |
| Inbound.LarkInboundGate.Purge | packages/lark-adapter/src/inbound.ts:101-108 | the deleting loop removes exactly the ids whose window has passed |
| Inbound.LarkInboundGate.Close | packages/lark-adapter/src/inbound.ts:111-116 | closing forgets ids and chat |
| Inbound.ObjectionExactly | packages/lark-adapter/src/inbound.ts:47-100 | which events are objected to, and for what reason, in order |
| Inbound.AcceptExactly | packages/lark-adapter/src/inbound.ts:47-113 | which events are accepted, and what the gate remembers then |
| Inbound.IsTimelyExactly | packages/lark-adapter/src/inbound.ts:47-55 | which creation times are timely |
| Inbound.NeverAcceptedTwice | packages/lark-adapter/src/inbound.ts:47-113 | with a clock that never goes back and fixed creation times no id is accepted twice in any run |
| Inbound.OpenWindowsAreBounded | packages/lark-adapter/src/inbound.ts:101-108 | at any time before closing at most 4096 accepted ids have an open window |
| Inbound.OneChat | packages/lark-adapter/src/inbound.ts:47-113 | all accepted messages are from one chat |
| Inbound.NothingAfterClose | packages/lark-adapter/src/inbound.ts:111-116 | nothing is accepted after closing |
| Inbound.RememberedExactly | packages/lark-adapter/src/inbound.ts:101-113 | an accepted id is remembered until exactly the first event without objection after its window |
| Inbound.AcceptedAgainExactly | packages/lark-adapter/src/inbound.ts:47-113 | an id is accepted again if and only if there is no objection, such an event came, and there is room |
| Inbound.NewCreationTimeIsAcceptedAgain | packages/lark-adapter/src/inbound.ts:47-113 | an id with a new creation time is accepted twice |
| Inbound.ClockGoingBackIsAcceptedAgain | packages/lark-adapter/src/inbound.ts:47-113 | an id is accepted twice when the clock runs ahead once |
| ProxyLines.SplitConcat | packages/agent-core/src/proxy.ts:183-209 | splitting a concatenation goes on where the first part's last field stopped |
| ProxyLines.LinesOfTwo | packages/agent-core/src/proxy.ts:183-209 | two texts in a row give the complete lines and the tail of their concatenation |
| ProxyLines.NoLineFeedInLines | packages/agent-core/src/proxy.ts:183-209 | lines hold no line feed and join to the text |
| ProxyLines.UnfinishedLineIsKept | packages/agent-core/src/proxy.ts:183-209 | a last line without a line feed is kept and never processed |
| ProxyLines.LastEventIsLost | packages/agent-core/src/proxy.ts:183-209 | a stream of one event without a line feed, of which nothing is processed |
| ProxyStream.ProxyReader.ReadAll | packages/agent-core/src/proxy.ts:183-225 | however the text is chunked, what is processed are the complete lines of the concatenation, up to the first failure or abort, and every block is made of its deltas among their events |
| ProxyStream.ProxyReader.HandleText | packages/agent-core/src/proxy.ts:183-209 | one chunk: its complete lines handled in order, the rest kept |
| ProxyStream.BlocksAreTheirDeltas | packages/agent-core/src/proxy.ts:240-301 | for any interleaving a text or thinking block is the concatenation of its deltas since its latest start event, among the events before the first that failed |
| ProxyStream.LinesAreEvents | packages/agent-core/src/proxy.ts:195-209 | lines do what the events do that they carry up to the first line that does not parse, which fails the stream unless an event did before |
| ProxyStream.ChunksAreBlocks | packages/agent-core/src/proxy.ts:183-301 | from chunks to blocks: however the stream was cut, a block is made of its deltas since its latest start, among the events before the first failure and the first line that does not parse |
| ProxyStream.ChunksAreDetails | packages/agent-core/src/proxy.ts:183-375 | signatures and tool calls too: the latest signature since the start, the latest name, and arguments parsed from the JSON text since then |
| ProxyStream.EndIsLastTerminal | packages/agent-core/src/proxy.ts:358-375 | stop reason and error are those of the last terminal event |
| ProxyStream.FailsExactly | packages/agent-core/src/proxy.ts:257-345 | which events fail on which blocks, and what is pushed otherwise |
| ProxyStream.OthersNeverFail | packages/agent-core/src/proxy.ts:240-375 | which events are passed on and which are ignored |
| ProxyStream.DataExactly | packages/agent-core/src/proxy.ts:195-209 | which lines carry data, and which data |

## Left out

- Real timers: the flush of the input buffer is a step that may happen whenever its timer is armed.
- Message bodies, token usage, cost and error wording: bodies are opaque numbers.
- The progress frames inside a batch are an arbitrary list per call; how they are coalesced is `Progress`.
- A delivery filter is a predicate that does not change during one drain.
- Events after which a hook or listener throws: only the events of the failure handler are modelled.
- `calculateCost`, `mergeHeaders` and thinking levels of the catalog: field-by-field arithmetic and merging.
- Several provider ids at once: their catalogs share no state, so one id is modelled.
- Painting boxes onto the screen, scroll bars' drawing and the primary scroll view.
- Measuring components: how many lines a leaf renders is an arbitrary function of its width.
- iTerm2 images, cell-size queries and image capabilities of the terminal.
- Kitty numbers are naturals with exact arithmetic; the source divides in double precision.
- Looking a name up in the source's symbol tables also finds what every object inherits, such as `constructor`; the tables here are maps of their own entries.
- Reading the inbound event's JSON: its fields come parsed, mention removal and trimming done.
- Fetching and decoding the proxied stream, and the error event that its catch block pushes.
- LatexOutput.RenderLatex: is stated for sources in which no layout marker starts, for which alone the layout is sure to end; the exact condition is on the parsed text and nodes, and the condition on the source goes one way: it also excludes sources whose scripts hold fractions or arguments that happen to leave nothing; characters beyond the basic plane, which the source splits into halves, are one character here.
- The JSON parsers of the proxy stream are arbitrary functions, of a whole event and of the arguments received so far.
- LatexLeaks.RenderLimitMatrix: says that such characters are left, not at which columns, which depends on how wide a terminal shows them.
- LayoutTrees.ScrollbarGeometry: uses exact arithmetic where the source divides in double precision, and is asked only of boxes whose scroll bar is visible, a flag that is not part of this model.
- LatexExpressions.FormulaRenders: has no white space, fonts, degrees of roots, operators with limits or environments among its formulas; how these are read is stated construct by construct.
- Catalog.NetworkPublicationAgrees: speaks of store operations that have no effect after they settled.
