# Verified model of Agent Room

Agent Room drives a team of LLM roles through a graph: a planner, a tool-using developer, an oracle or a
reviewer that judges the result, a supervisor for runs that are stuck, and delivery. This project models the
parts of it that hold the promises together, in Dafny, and proves them. Model output, exit codes, tool effects,
the supervisor's and the user's decisions, the network and the scheduler are arbitrary inputs, so every theorem
is about all of them.

## What is modelled

**The run machine** (`TaskState`, `Roles`, `Service`, `RunInvariants`, `RunTheorems`, `RunTranscripts`,
`RunNews`, `RunResults`, `RunDirectives`, `RunBounds`, `RunCutOff`).
One superstep runs a node on the task state and asks a router where to go. A life of a task is any mix of
supersteps and user decisions. The theorems are about every reachable configuration: the developer's transcript
is always a legal one, what oracle, reviewer and planner have to say reaches the model word for word, the derived
status agrees with the machine, nothing is delivered without a passed oracle
or an approval, and a run halts within an exact bound that some run attains, which is compared with the recursion
limit.

**The context engine** (`Messages`, `Tokens`, `ContextEngine`, `ContextEngineProofs`). The loops of the source
are verified against functions that say where the two cuts fall; the lemmas are about those functions. The
transcript invariant of the run machine is the hypothesis the pairing guarantee needs, and
`ModelSeesNoOrphans` and `ModelSeesOpenCallsIff` put the two together.

**Detached runs and the client that resumes them** (`RunBuffer`, `RunManager`, `RunProtocol`, `RunProgress`, `Sse`,
`SseProofs`, `SsePrinter`, `SseEnds`, `ApiClient`, `ClientOutcomes`,
`ResumeEndToEnd`). The driver, any number of subscribers and
cancellation are interleaved in steps, one per critical section of the condition variable; the classes of
`RunBuffer` and `RunManager` change their fields in place and are proved equal to those steps. The parser is
proved independent of chunking and inverse to the format of section 9.2.6 of the WHATWG HTML Standard.
`ResumedStreamIsHistory` joins the server's buffer, the wire, the parser and the reconnect loop.

**The spec-to-graph compiler** (`GraphSpecs`, `GraphCompiler`, `CompiledGraphs`, `CompilerSimulation`, `PresetGraphs`,
`AgentTurns`). The build loops over a mutable graph and is proved to succeed exactly on acceptable specifications and to produce the one
graph they compile to. Compiled paths and specification paths are related in both directions, and the run machine
is shown to walk the compiled presets, so its topology is not an assumption.

**Three smaller pieces**: the tenant pool under every interleaving of concurrent callers (`TenantPool`), the
content-addressed spill store (`Spill`), and the loop that re-seeds the verification files on a tree of files and
directories (`Workspace`).

## Where the code and its comments disagree

The model follows the code.

- `agent_room/service.py:38-42` says the recursion limit covers every valid request. With an oracle and
  `max_iterations = 50` a run can take 934 supersteps and the limit is 928 (`LimitSufficesIff`,
  `FiftyRoundsFitIff`), so the limit ends a run of exactly such requests (`CutOffExistsIff`).
- `agent_room/service.py:249-251` says the next developer pass reads the user's directive. A tool-using developer
  with a transcript never renders its first prompt again, and every run that waits for a human has a transcript,
  so the model does not see the directive (`ResumedDeveloperIgnoresDirective`, `WaitingRunHasTranscript`). It
  would exactly if there were no transcript (`DirectiveIsSeenIff`), and runs that wait exist
  (`WaitingIsReachableIff`). `dev_round` is not reset either.
- `agent_room/service.py:78-118` reports a run that is over as running exactly when it delivered the empty text or
  the recursion limit ended it (`StoppedSaysRunningIff`). The first can happen to every request
  (`EmptyDeliveryIsReachable`), the second to those that ask for fifty oracle rounds (`CutOffExistsIff`,
  `CutOffDeliversNothing`).
- `agent_room/context/engine.py:225-227` calls token mode idempotent. It is not on every input
  (`TokenModeNotIdempotent`); `TokenModeIdempotentIff` says on which inputs it is.
- `agent_room/server/runs.py:94-104` promises a terminal frame after a cancellation. One that falls before the
  driver's first step, or after the driver has left its `try`, is caught by nobody, and the run never becomes
  done (`CancelledRunCanFinishIff`, `KilledRunNeverFinishes`; `CancelledFirst`, `CancelledLast` and `CancelledTwice`
  are such runs).
- `mulit_agent_web_ui/src/lib/sse.ts:32-34` parses what is left when a stream ends, so a stream that ends cleanly
  inside a block can yield a truncated frame (`CleanEndTruncates`), which the HTML Standard discards. `CleanEndIff`
  says by the number of characters that arrived which ends do no harm. CRLF is normalized per chunk
  (`mulit_agent_web_ui/src/lib/sse.ts:21`), which is right exactly when no chunk boundary separates a CR from its
  LF (`ReceivedIsNormalizedIff`, and `SplitCrLfStays` for one that does).
- `agent_room/roles/verifier.py:16-19` says the verification files are re-written before every run. The loop raises at
  a path that leaves the workspace, that leads to a directory, or that lies below a file, also one it has written
  itself (`NestedPaths`), and of two paths to the same file the later wins (`ClashingPaths`). `AllInPlaceIff` gives
  the exact condition under which every file is in place. A path at which it raises aborts the run, although
  `agent_room/roles/verifier.py:24-28` wants a misconfigured task to surface as a failed verification.
- `agent_room/tools/spill.py:173-176` says prompts stay bounded by the threshold times the number of messages. A longer
  tool result that begins like a placeholder is never spilled, and at a small threshold the placeholder itself may be
  longer. `BodiesFitIff` and `DefaultBoundIff` say exactly when every body keeps to the threshold.

## Model

| member | source | states |
|---|---|---|
| TaskStates.CappedAppendKeepsLast | agent_room/state.py:31-46 | reducing event by event keeps exactly the last `cap` of everything ever appended |
| Roles.NewToolMessages | agent_room/roles/developer_react.py:213-224 | the loop returns the maximal trailing run of tool results, in order |
| Roles.NewToolMessagesAreTheAnswers | agent_room/roles/developer_react.py:213-224 | after the tool node ran, that run is exactly the answers to the last AI message |
| Roles.BuildPrompt | agent_room/roles/developer_react.py:140-153 | the first prompt is one system and one human message |
| Workspaces.Workspace.Reseed | agent_room/roles/verifier.py:114-118 | the loop writes the files in order and raises at the first whose path leaves the workspace or cannot be a file there, keeping what it wrote |
| Workspaces.RunsThroughIff | agent_room/roles/verifier.py:114-118 | it runs through exactly if all paths stay inside, no target is a directory or lies below a file, and none lies below another |
| Workspaces.AllInPlaceIff | agent_room/roles/verifier.py:16-19 | on any tree, every verification file is in place afterwards exactly if in addition no two with different contents lead to the same file |
| Workspaces.SeededIff | agent_room/roles/verifier.py:114-118 | after a loop that ran through, that last condition alone decides |
| Workspaces.OthersStay | agent_room/roles/verifier.py:114-118 | no other file of the workspace changes, whether the loop runs through or raises |
| Workspaces.TamperingIsUndone | agent_room/roles/verifier.py:16-19 | whatever was done to the verification files, a loop that runs through leaves the same files as if nothing had been done to them |
| Workspaces.NestedPaths | agent_room/roles/verifier.py:114-118 | a file and a file below it raise in either order |
| RunInvariants.NodeEmits | agent_room/roles/verifier.py:87-98 | a node's update appends to `events` exactly the event recorded for it |
| RunInvariants.BudgetNoteKeepsComplete | agent_room/roles/developer_react.py:227-238 | the budget note never breaks up a block of results |
| RunInvariants.ConvoIsComplete | agent_room/roles/developer_react.py:140-162 | what a turn starts from is a complete, non-empty transcript |
| RunInvariants.NodesPush | agent_room/roles/planner.py:66-68 | planner, verifier and reviewer push at most one human message, and none into an empty transcript |
| RunInvariants.StepKeepsTranscript | agent_room/roles/developer_react.py:186-194 | every superstep keeps the transcript legal: complete, or waiting for the tool node and nothing else |
| RunInvariants.StepKeepsOracle | agent_room/routers.py:57-79 | the round counters, the routing and the last verdict agree after every superstep of an oracle run |
| RunInvariants.ResumeKeepsMode | agent_room/service.py:266-304 | a user decision keeps every invariant of the mode |
| RunTheorems.ModelSeesNoOrphans | agent_room/roles/developer_react.py:140-167 | in every reachable developer turn the transcript is complete and the list sent to the model, after budget note and compression, has no tool result without its call |
| RunTheorems.ModelSeesOpenCallsIff | agent_room/context/engine.py:208-217 | the model is shown a call without its result exactly when the engine cuts and the head window ends inside a block of results |
| RunNews.NewsReachesTheModel | agent_room/roles/verifier.py:99-108 | a failed verification with its round, exit code and output, a requested revision with its feedback and issues, or a new plan is the last message of the next turn, which has its full tool budget |
| RunNews.FailureIsSeenIff | agent_room/roles/verifier.py:99-108 | two failed verifications give the model the same to read exactly if exit code and output agree |
| RunNews.FeedbackIsSeenIff | agent_room/roles/reviewer.py:101-104 | two requested revisions with the same issues do exactly if the feedback agrees |
| RunNews.EveryIssueIsSeen | agent_room/prompt/developer.py:118-132 | and two that differ in one issue never do |
| RunNews.RevisedPlanIsSeenIff | agent_room/roles/planner.py:66-68 | two revised plans do exactly if they are the same |
| RunNews.PromptShows | agent_room/prompt/developer.py:88-132 | a first prompt shows plan, title and description, then every directive in order, then the objections to the last attempt and that attempt |
| RunNews.FirstPromptIs | agent_room/prompt/developer.py:88-98 | in every reachable first turn it is the plan, title and description and nothing else |
| RunNews.FirstTurnReadsThePlan | agent_room/roles/planner.py:52-57 | and the plan is the one the planner has just written |
| RunNews.ToolsAnswer | agent_room/graph.py:207-222 | after the tool node the transcript ends with the text of every tool under the id of its call |
| RunNews.WarnedWhenSpent | agent_room/roles/developer_react.py:227-238 | a developer without tool turns left is told so last, behind what it would have read anyway |
| RunResults.ResultIsTheLatest | agent_room/service.py:138-182 | over a whole life the result reports the latest plan, answer, oracle run, strategy, review and delivery, and every directive in order |
| RunTranscripts.TranscriptOnlyGrows | agent_room/roles/developer_react.py:144-166 | over any further supersteps and user decisions the transcript only grows; no message that is there ever changes |
| RunTranscripts.JudgedCodeIsTheLatestAnswer | agent_room/roles/developer_react.py:197-201 | whenever oracle, reviewer or delivery run, the last message is an answer without tool calls and its text is the `code` they deal with |
| RunTheorems.NewestSurvives | agent_room/context/engine.py:208-216 | compression never drops the newest message, unless it is a tool result or the tail window is empty |
| RunTheorems.StatusAgrees | agent_room/service.py:78-118 | the derived status of every reachable state: running in flight, completed after a delivery, awaiting the user while a question is open, failed otherwise |
| RunTheorems.RunningMeansInFlightIff | agent_room/service.py:78-118 | `running` and not yet halted coincide exactly when the delivery is not the empty text |
| RunCutOffs.CutOffExistsIff | agent_room/service.py:38-52 | some run of a request is ended by the recursion limit exactly if the request asks for fifty oracle rounds |
| RunCutOffs.StoppedSaysRunningIff | agent_room/service.py:78-118 | a run that is over, after any resumes, says `running` exactly if the limit ended it or it delivered the empty text |
| RunCutOffs.CutOffDeliversNothing | agent_room/service.py:78-118 | a run the limit ended has delivered nothing and says `running` |
| RunTheorems.EventsAreTheLatest | agent_room/state.py:59-61 | the event log is the latest 500 of everything that happened, in order |
| RunTheorems.DeliveryGate | agent_room/routers.py:69-79 | delivery is entered only after a passed oracle run, or without an oracle after an approval; with an oracle no review takes part |
| RunTheorems.OracleRounds | agent_room/routers.py:50-79 | `verify_round` counts the oracle runs up to the ceiling, all but possibly the last failed, and the supervisor was asked exactly at the failed rounds divisible by three below the ceiling |
| RunDirectives.ResumedDeveloperIgnoresDirective | agent_room/service.py:266-304 | with a transcript, what the model sees next does not depend on the directive, and a spent budget stays spent |
| RunDirectives.DirectiveIsSeenIff | agent_room/service.py:249-251 | two directives lead to different conversations exactly if there is no transcript yet |
| RunDirectives.WaitingIsReachableIff | agent_room/service.py:78-118 | some run of a request waits for its user exactly if reviews decide or the oracle may fail more than three times |
| RunDirectives.EmptyDeliveryIsReachable | agent_room/service.py:78-118 | every request has a halted run whose status says running |
| RunDirectives.WaitingRunHasTranscript | agent_room/service.py:266-304 | every run that waits for a human has a transcript |
| RunBounds.StepDecreases | agent_room/service.py:30-45 | a measure that every superstep decreases |
| RunBounds.DetoursAreBounded | agent_room/roles/developer_react.py:159-174 | a turn goes round the tool loop at most as often as its budget has rounds left |
| AgentTurns.RoundsWithinBudget | agent_room/roles/developer_react.py:159-174 | with any budget, a turn makes at most as many tool rounds as the budget has left |
| AgentTurns.BudgetCanBeUsedUp | agent_room/roles/developer_react.py:159-174 | and some turn makes exactly as many |
| AgentTurns.DetoursWithinSpecifiedBudget | agent_room/graph.py:111-123 | for every agent of every compiled specification, the tool rounds of a turn are detours of the compiled graph, at most as many as its budget |
| RunBounds.RunWithinBound | agent_room/service.py:30-45 | no run from a configuration is longer than the measure plus its replans |
| RunBounds.LongestRun | agent_room/routers.py:42-98 | from every configuration a run of exactly that length with exactly that many replans exists |
| RunBounds.RunsEnd | agent_room/service.py:30-45 | from every reachable configuration, after any resumes, a run halts within the bound of the start |
| RunBounds.BoundIsAttained | agent_room/service.py:30-45 | 2 + 18M + 2⌊(M−1)/3⌋ with an oracle, 2 + 18(R+1) in a workflow, 2 + 19(R+1) in a goal run without an oracle: some run takes exactly that long |
| RunBounds.ReplansSetTheLength | agent_room/roles/planner.py:60-68 | with r replans the longest oracle run is exactly r supersteps longer |
| RunBounds.LimitSufficesIff | agent_room/service.py:43-45 | the recursion limit covers every run of a request exactly if it does not ask for fifty oracle rounds |
| RunBounds.FiftyRoundsFitIff | agent_room/service.py:43-45 | at fifty rounds all runs with r replans fit exactly for r up to ten |
| Messages.BlockIsPaired | agent_room/context/engine.py:131-141 | an AI message followed by the answers to its calls is a complete block |
| Messages.CompleteSnoc | agent_room/roles/reviewer.py:101-104 | appending a message without calls keeps a transcript complete |
| Messages.CompleteAfterTools | agent_room/roles/developer_react.py:92-95 | the answers of the tool node complete a transcript that awaited them |
| Tokens.CountConcat | agent_room/context/tokens.py:52-63 | token cost is additive |
| Tokens.MessageCost | agent_room/context/tokens.py:52-59 | a message costs its text and four tokens, and an AI message also the requests it makes |
| Tokens.CallTextJoins | agent_room/context/tokens.py:56-58 | the requests are counted joined by blanks, in order |
| ContextEngine.Make | agent_room/context/engine.py:143-175 | an accepted configuration is valid |
| ContextEngineProofs.MakeAccepts | agent_room/context/engine.py:143-175 | the constructor accepts exactly these configurations |
| ContextEngineProofs.MadeAsAsked | agent_room/context/engine.py:143-175 | an engine has the windows and the budget it was made with |
| ContextEngineProofs.TailBudgetIs | agent_room/context/engine.py:234-234 | the tail may use the ratio of what the head leaves of the limit, rounded down, and nothing if it leaves nothing |
| ContextEngine.CutIs | agent_room/context/engine.py:208-217 | the head never ends with an open call, the tail never starts with a result, and nothing else is trimmed |
| ContextEngine.FirstFitUnique | agent_room/context/engine.py:234-243 | the start of the greedy tail is the only position whose suffix fits while the next longer one does not |
| ContextEngine.TrimHead | agent_room/context/engine.py:211-213 | the popping loop stops at the head cut |
| ContextEngine.TrimTail | agent_room/context/engine.py:214-215 | the popping loop stops at the tail cut |
| ContextEngine.GreedyTail | agent_room/context/engine.py:234-243 | the greedy walk from the newest message back yields the longest suffix that fits, or the newest message |
| ContextEngine.Partition | agent_room/context/engine.py:194-247 | head, middle and tail are the three parts of the list between the cuts |
| ContextEngine.CompressMessages | agent_room/context/engine.py:183-192 | compression is the function the theorems are about |
| ContextEngineProofs.CompressShape | agent_room/context/engine.py:183-192 | the result is an input prefix, one marker and an input suffix, and the marker's count is what is missing |
| ContextEngineProofs.MarkerSays | agent_room/context/engine.py:249-257 | the marker is a human message that says how many messages were omitted |
| ContextEngineProofs.CountModeFits | agent_room/context/engine.py:158-217 | count mode always finds something to drop, its result fits the budget and the protected windows, and only results and open calls are trimmed from them |
| ContextEngineProofs.CountModeKeepsLimit | agent_room/context/engine.py:177-192 | with `max_messages = n` the result has at most n messages, a list of at most n stays as it is, and a longer one is cut to the windows and the marker |
| ContextEngineProofs.TokenModeActsOnExcess | agent_room/context/engine.py:177-192 | with `max_tokens = n` a list that costs at most n stays as it is, and any other is cut if the bands leave something between them |
| ContextEngineProofs.CountModeIdempotent | agent_room/context/engine.py:158-166 | in count mode compressing twice is compressing once |
| ContextEngineProofs.FixedPointIff | agent_room/context/engine.py:183-192 | in either mode a list stays as it is exactly if it is under budget, or nothing lies between the bands, or only a marker for one message does |
| ContextEngineProofs.TokenTailIsLongest | agent_room/context/engine.py:234-243 | the tail before trimming is the longest suffix after the head that fits, or the newest message alone |
| ContextEngineProofs.TokenModeCost | agent_room/context/engine.py:219-247 | the result costs at most head, marker and the larger of tail budget and newest message |
| ContextEngineProofs.TokenModeSettles | agent_room/context/engine.py:225-227 | when the newest message fits its share and head, share and marker fit the limit, the result is under budget and stays as it is |
| ContextEngineProofs.TokenModeIdempotentIff | agent_room/context/engine.py:219-247 | for every input, compressing twice is compressing once exactly if the first compression cuts nothing, or its parts cost no more than the limit, or the second cut, which starts at the marker behind a full head and further on behind a trimmed one, replaces at most a marker for one message |
| ContextEngineProofs.TokenModeNotIdempotent | agent_room/context/engine.py:225-227 | a family of inputs on which compressing twice differs |
| ContextEngineProofs.CompressKeepsOwners | agent_room/context/engine.py:197-206 | compression never separates a tool result from its call |
| ContextEngineProofs.CompressAnsweredIff | agent_room/context/engine.py:208-217 | on a complete transcript a call loses its result exactly if the engine cuts and the head window ends strictly inside a block of results |
| ContextEngineProofs.SingleCallsSurvive | agent_room/context/engine.py:197-206 | with at most one call per AI message every surviving call keeps its result |
| RunBuffer.AppendBuffers | agent_room/server/runs.py:106-114 | after an append and a trim the buffer holds the last `max_buffer` frames of the history, each at its position |
| RunBuffer.FromIsRest | agent_room/server/runs.py:125-132 | a snapshot is the rest of the history from the cursor, or from the oldest frame left |
| RunBuffer.Run.Append | agent_room/server/runs.py:106-114 | the critical section of the driver, in place |
| RunBuffer.Run.Snapshot | agent_room/server/runs.py:126-132 | the critical section of a subscriber copies the history from its cursor, or from the oldest frame left, to the end |
| RunManagers.DropOldestKeepsTheRest | agent_room/server/runs.py:139-145 | eviction keeps every unfinished run and the order, and drops exactly the earliest finished ones |
| RunManagers.EvictionIsFair | agent_room/server/runs.py:139-145 | after an eviction at most `keep_done` finished runs are left, and none older than a dropped one |
| RunManagers.RunManager.EvictDone | agent_room/server/runs.py:139-145 | the loop drops exactly the excess of oldest finished runs from both indexes |
| RunManagers.RunManager.Start | agent_room/server/runs.py:55-63 | evicts, registers a new run at the end, drops no unfinished run, and the indexes agree afterwards exactly if the id was not in use |
| RunProtocol.ExecInv | agent_room/server/runs.py:65-145 | driver and subscriber invariants of every interleaving |
| RunProgress.HistoryIsWhatWasProduced | agent_room/server/runs.py:65-92 | the history is what the producer yielded and the driver then appended, in order, then at most one error frame for a producer that raised or a cancellation inside the `try`; at most the last frame yielded is missing |
| RunProgress.EndedRunIsWhole | agent_room/server/runs.py:65-92 | once there is a terminal frame that is no such error, the history is everything yielded |
| RunProgress.FinishedRunIsWhole | agent_room/server/runs.py:65-92 | a finished run has kept everything yielded, or all but possibly the last frame, then the error |
| RunProgress.EveryStreamCanHappen | agent_room/server/runs.py:65-92 | every list of frames that ends in its only terminal frame is the history of some finished run |
| RunProgress.RunCanFinish | agent_room/server/runs.py:65-92 | from every state in which the driver was not killed the run can finish |
| RunProgress.SubscriberCatchesUp | agent_room/server/runs.py:125-137 | from every state a subscriber can go on by itself until it has returned or waits at the end of an unfinished run |
| RunProtocol.SubscribersSeeHistory | agent_room/server/runs.py:116-137 | delivered ids grow from above `last_event_id`, each frame is the history element at its id, and every id below the frontier was delivered or had been trimmed |
| RunProtocol.SnapshotIsExact | agent_room/server/runs.py:125-132 | a snapshot skips exactly the positions trimmed by then and takes exactly those still buffered |
| RunProtocol.FinishedRunHasOneTerminal | agent_room/server/runs.py:65-92 | the history of a finished run ends in its only terminal frame, whether the producer ended, raised or was cancelled |
| RunProtocol.ReturnedSubscriberSawTheEnd | agent_room/server/runs.py:125-137 | a subscriber returns only after `done`, at the end, having received the terminal frame if it was still ahead |
| RunProtocol.KilledRunNeverFinishes | agent_room/server/runs.py:94-104 | after an uncaught cancellation the run never becomes done and no subscriber ever returns |
| RunProtocol.CancelledRunFinishes | agent_room/server/runs.py:70-92 | a caught cancellation leads to one error frame and to `done` |
| RunProtocol.CancelledRunCanFinishIff | agent_room/server/runs.py:94-104 | a cancelled run can still finish exactly if the driver had started and was inside the `try` |
| RunProtocol.CancelledFirst | agent_room/server/runs.py:94-104 | a cancellation that comes first leaves a run that never finishes |
| RunProgress.CancelledLast | agent_room/server/runs.py:94-104 | and so does one that comes after the last frame, although the terminal frame is in the history |
| RunProgress.CancelledTwice | agent_room/server/runs.py:94-104 | or a second one before the error of the first is appended, and then no terminal frame ever comes |
| Sse.ParseSseBlock | mulit_agent_web_ui/src/lib/sse.ts:43-61 | the line loop computes the frame of a block |
| Sse.DrainBlocks | mulit_agent_web_ui/src/lib/sse.ts:23-30 | the inner loop yields the frames of all complete blocks and keeps the rest |
| Sse.ParseSseStream | mulit_agent_web_ui/src/lib/sse.ts:11-41 | reading chunk by chunk yields the frames of the whole received text |
| Sse.BlocksConcat | mulit_agent_web_ui/src/lib/sse.ts:21-30 | blocks found incrementally are the blocks of the whole |
| Sse.BoundaryIsFirst | mulit_agent_web_ui/src/lib/sse.ts:23 | a block ends at the first blank line |
| SseProofs.NormalizeConcatIff | mulit_agent_web_ui/src/lib/sse.ts:21 | normalizing two parts is normalizing the whole exactly when their boundary does not split a CR LF |
| SseProofs.ReceivedIsNormalizedIff | mulit_agent_web_ui/src/lib/sse.ts:20-21 | for a whole stream of chunks, the buffer receives the normalized text exactly if no boundary separates a CR from its LF |
| SseProofs.SplitCrLfStays | mulit_agent_web_ui/src/lib/sse.ts:20-21 | a CR and a LF that arrive in two chunks stay two characters |
| SseProofs.ChunkIndependence | mulit_agent_web_ui/src/lib/sse.ts:11-41 | two clean splits of the same text yield the same frames |
| SsePrinter.CommentBlockYieldsNothing | mulit_agent_web_ui/src/lib/sse.ts:50 | a block of comments yields no frame |
| SsePrinter.FieldOfLine | mulit_agent_web_ui/src/lib/sse.ts:49-58 | any line sets the field it names, without one leading blank of the value, to nothing if there is no colon, and a comment sets none |
| SsePrinter.BlockRoundTrip | mulit_agent_web_ui/src/lib/sse.ts:43-61 | a printed frame parses back to itself |
| SsePrinter.StreamRoundTrip | mulit_agent_web_ui/src/lib/sse.ts:11-41 | a printed stream yields exactly the frames printed, for each line end, any clean chunking and comments in between |
| SsePrinter.BrokenStream | mulit_agent_web_ui/src/lib/sse.ts:18-41 | a stream that breaks anywhere with a read error yields the frames of its first items |
| SseEnds.CleanEndIff | mulit_agent_web_ui/src/lib/sse.ts:32-36 | a stream that ends anywhere without an error yields printed frames exactly if every item arrived whole, or the next one is cut in a comment, before the name of its first data field is complete, or after all its data and not between the CR and the LF that end them |
| SseEnds.EndAfterBlockIsHarmless | mulit_agent_web_ui/src/lib/sse.ts:32-36 | an end after a block is such an end |
| ApiClient.ReadSse | mulit_agent_web_ui/src/lib/api.ts:30-45 | handles the frames of a response in order and raises exactly if the response was bad or reading failed |
| ApiClient.ResumeOnce | mulit_agent_web_ui/src/lib/api.ts:107-125 | one round of the reconnect loop |
| ApiClient.StreamTask | mulit_agent_web_ui/src/lib/api.ts:75-126 | the whole loop computes the client state and outcome the end-to-end theorem is about |
| ClientOutcomes.StreamOutcome | mulit_agent_web_ui/src/lib/api.ts:75-126 | from the connections alone: which of them are read, the task id, last id and end the client knows of, and whether it finished, gave up after six failures in a row, could not resume, was aborted or failed at once |
| ClientOutcomes.BrokenStreamIsResumed | mulit_agent_web_ui/src/lib/api.ts:98-119 | a client whose first connection named a task and broke before the end reads the next connection as well |
| ResumeEndToEnd.NothingSkippedIsContiguous | agent_room/server/runs.py:116-137 | a subscriber that found nothing trimmed was given consecutive frames from `last_event_id + 1` on |
| ResumeEndToEnd.CarriedFrames | mulit_agent_web_ui/src/lib/api.ts:37-44 | the client handles a prefix of what the subscriber was given |
| ResumeEndToEnd.ResumedStreamIsHistory | mulit_agent_web_ui/src/lib/api.ts:75-126 | over any drops and reconnections the frames handled are the history's, word for word, in order, each once, from the first on, and all of it once a terminal event was seen or the client finished with a task |
| ResumeEndToEnd.ResumedStreamIsWhatWasProduced | agent_room/server/runs.py:65-92 | the same said of what the producer yielded: a client that has seen the end of a run without an error frame of the driver has handled everything ever yielded |
| ResumeEndToEnd.CleanEndTruncates | mulit_agent_web_ui/src/lib/sse.ts:32-36 | a clean end inside a block yields the truncated frame |
| GraphSpecs.ValidateIff | agent_room/spec.py:73-157 | a specification loads exactly if its parts are consistent and all its references resolve |
| GraphCompiler.PermittedIs | agent_room/tools/policy.py:68-86 | the permission mode keeps exactly the tools it allows |
| GraphCompiler.AgentAndExecutorAgree | agent_room/graph.py:81-100 | an agent and its tool node hold the same tools: those of the specification that only read, or that an explicit approval or unrestricted mode lets through |
| CompiledGraphs.AcceptableIff | agent_room/graph.py:81-251 | said of the specification alone: tools only for plain developers, all registered and at least one allowed; an implementation for every other role and variant; free names; importable routers and none out of an agent |
| CompiledGraphs.NodeFaultMeans | agent_room/graph.py:81-158 | what each error of a node says |
| CompiledGraphs.CompiledNodes | agent_room/graph.py:201-224 | an agent gets the tools it may call in the order listed and its budget, its tool node the same tools, gated exactly in approval mode; every other node keeps role and variant; there are no other nodes |
| CompiledGraphs.CompiledWires | agent_room/graph.py:226-268 | the graph starts at the entry and leads where the edges say, agents by whether they called tools, tool nodes back; nothing else leads anywhere |
| GraphCompiler.LastBranchWins | agent_room/graph.py:242 | of two branches on one signal the later decides |
| GraphCompiler.CompiledIsUnique | agent_room/graph.py:180-251 | a specification compiles to exactly one graph |
| GraphCompiler.StateGraph.AddNode | agent_room/graph.py:201-224 | adds a node, unless the name is taken or reserved |
| GraphCompiler.StateGraph.AddReactBranch | agent_room/graph.py:254-268 | replaces an agent's edge by the branch to its tool node and back |
| GraphCompiler.AddNodes | agent_room/graph.py:201-224 | the node loop adds each node and, for an agent, its tool node, or reports what is wrong |
| GraphCompiler.AddEdges | agent_room/graph.py:228-249 | the edge loop wires each edge, or reports what is wrong |
| GraphCompiler.Build | agent_room/graph.py:180-251 | succeeds exactly on acceptable specifications, yields the graph they compile to, and otherwise names a real fault |
| CompilerSimulation.EndpointsExist | agent_room/graph.py:226-268 | the entry and both ends of every edge exist |
| CompilerSimulation.AgentStep | agent_room/graph.py:254-268 | an agent hops to its tool node or leaves along its edge, and does nothing else |
| CompilerSimulation.CompiledPathsErase | agent_room/graph.py:180-268 | erasing tool loops maps every compiled path to a path of the specification with the same signals |
| CompilerSimulation.SpecPathsExpand | agent_room/graph.py:180-268 | every path of the specification, with any numbers of detours, is a compiled path that erases to it |
| CompilerSimulation.CompiledPathsAreExpansions | agent_room/graph.py:180-268 | there are no other compiled paths |
| PresetGraphs.PresetsCompile | agent_room/presets/goal.yaml:22-62 | both presets load and compile where their tools and routers exist |
| PresetGraphs.DeveloperHolds | agent_room/presets/goal.yaml:26-31 | compiled, both presets give their developer the four tools, ungated, and eight tool turns |
| PresetGraphs.NextFollowsGraph | agent_room/presets/goal.yaml:40-62 | the run machine goes where the compiled preset's routers send it |
| PresetGraphs.RunsFollowThePreset | agent_room/presets/full_react.yaml:19-41 | without its tool loops every run is a path of the preset as written |
| TenantPool.TenantCheckpointerPool.HoldLock | agent_room/server/tenancy.py:93-95 | the second look under the lock |
| TenantPool.TenantCheckpointerPool.FinishOpen | agent_room/server/tenancy.py:99-104 | an opened context is registered and cached together |
| TenantPool.OpenedAtMostOnce | agent_room/server/tenancy.py:90-104 | under every interleaving a tenant is opened successfully once if it is cached and never otherwise |
| TenantPool.CallersGetTheirTenant | agent_room/server/tenancy.py:90-104 | every caller gets an entry of the tenant it asked for, or none |
| TenantPool.WaiterCanBeServed | agent_room/server/tenancy.py:90-104 | from every state whoever waits can still be served |
| TenantPool.AnyoneCanBeServed | agent_room/server/tenancy.py:90-104 | and whoever asks for a tenant can get an entry of it |
| TenantPool.CallersRaiseIff | agent_room/server/tenancy.py:90-104 | a caller raises exactly if its own opening failed or it was cancelled |
| TenantPool.CallersShareTheEntry | agent_room/server/tenancy.py:90-104 | all callers of a tenant get the same entry |
| TenantPool.CachedForever | agent_room/server/tenancy.py:90-104 | a cached entry is never replaced |
| TenantPool.StackIsTheCache | agent_room/server/tenancy.py:99-107 | the contexts closed at shutdown are the cached entries, each once, whatever openings failed |
| TenantPool.LockIsNeverStuck | agent_room/server/tenancy.py:93-104 | a held lock can always be given back, a free one taken by every waiter |
| Spill.InMemorySpillStore.Put | agent_room/tools/spill.py:104-123 | the first payload under a reference stays |
| Spill.RefIsADigestPrefix | agent_room/tools/spill.py:104-106 | a reference is the first twelve characters of the digest |
| Spill.PreviewIsALinePrefix | agent_room/tools/spill.py:200-207 | a preview is a prefix of at most 400 characters, whole lines where that keeps more than half |
| Spill.SpillMessages | agent_room/tools/spill.py:166-186 | the loop replaces each oversized tool result in place and stores its body |
| Spill.StoredForever | agent_room/tools/spill.py:104-123 | no later spilling changes what a reference stands for |
| Spill.RestoredIffCollisionFree | agent_room/tools/spill.py:104-127 | every spilled body can be read back exactly if no two different payloads share a reference |
| Spill.PlaceholderReadsBack | agent_room/tools/spill.py:134-163 | the reference written in a placeholder leads to the exact original body, whose size and beginning it gives |
| Spill.SpillingTwiceIsOnce | agent_room/tools/spill.py:140-147 | a second spilling changes neither messages nor store, at any threshold |
| Spill.SpillingKeepsPairing | agent_room/tools/spill.py:134-186 | number, order, ids and pairing of messages stay, and only oversized tool results change |
| Spill.BodiesFitIff | agent_room/tools/spill.py:166-186 | no tool result is longer than the threshold afterwards exactly if each longer one does not begin like a placeholder and has a placeholder that fits |
| Spill.DefaultBoundIff | agent_room/tools/spill.py:166-186 | at the default threshold exactly if no longer one begins like a placeholder |
| Spill.PlaceholderLength | agent_room/tools/spill.py:57-60 | a placeholder is at most 474 characters and twice the digits of the size long |

## Left out

- Build: requires at most one outgoing edge per node. The validators do not, and the graph library runs several
  successors in parallel or refuses a second branch of the same name.
- RunProtocol.FinishedRunHasOneTerminal: assumes a producer whose terminal frame is its last and which does not
  suspend between that frame and its end, as the one in `agent_room/server/api.py:352-365` does not.
- ResumeEndToEnd.ResumedStreamIsHistory: assumes that streams break with a read error or end harmlessly, that no chunk
  boundary splits a CR LF, that nothing past the client's last id was trimmed, and that terminal frames and no
  others decode to terminal events.
- ApiClient.StreamTask: an abort is the end of the list of connections, ids are numerals, and waiting times are
  not modelled; `Number` also reads other strings, which the server never sends.
- RunBounds: speaks of uninterrupted runs; a resume starts a new one, with the same bound.
- The context engine takes the tokenizer as a cost function and the ratio as a real number with floor; rounding of
  floating point is not modelled. A negative slice length cannot arise, since the constructor refuses it.
- Buffer and eviction limits are natural numbers; a negative `max_buffer` or `keep_done` is not modelled.
- Resuming is possible only from `awaiting_user`, at the reviewer. Approval-mode interrupts, resumes at the planner
  or at a tool call, and the `planner_gate` and `two_call` variants are not modelled beyond the compiler.
- The prompts of planner, reviewer, supervisor and delivery, artifacts, guardrails, token budgets and memory, which
  only feed the model or the audit trail.
- The summarizing context engine, which replaces the marker text by a model's summary.
- How the file system resolves a path is a parameter of the re-seeding loop; its other errors, such as missing
  permissions, names that are too long and text that cannot be encoded, are not modelled. The run machine does not
  include the workspace, the effects of tools on it, or a verifier that raises.
- The recursion limit is the graph library's: that it ends a run after so many supersteps is its documented behaviour,
  not code of the repository.
- Graph-library behaviour beyond names, edges and routers, such as the characters it forbids in names; a tool is
  taken to carry the name it is registered under.
- Spill.DefaultBoundIff: assumes bodies of less than 10 to the power of 20 characters, which is more than a string in
  memory can have; `BodiesFitIff` assumes nothing.
- The real digest of the spill store is a parameter; messages whose content is a list of blocks and metadata other
  than the tool call id are not modelled, so neither is the comment that all metadata is preserved.
- Whitespace beyond ASCII in the parser's blank-block test, and decoding of bytes.
- HTTP handlers, persistence, the session list, the command line, tracing and the user interface.
