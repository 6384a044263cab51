# Verified model of the chat runtime and of the sidecar algorithms

This project models the decision engines of the chat runtime (`src/chat`) and the pure algorithms of the Python sidecar
(`core-py/klein_core`) in Dafny, and proves what they promise for every input, every model behaviour and every
interleaving.

The chat runtime answers a user message by letting a local model call tools until it has an answer. Around that loop
stand a completion gate that wants evidence instead of claims, a rung that forces the next tool call, a steering window
for messages that arrive while a turn runs, ladders that raise the token budget of cut-off replies, and a goal driver
that runs turn after turn within budgets. Tool calls go through an executor that checks arguments, taint, execution mode
and grants, and leaves an audit trail. Sessions live in an append-only log behind a promise chain. Memories are
consolidated, scoped, superseded, ranked and cut to a band for the prompt. The sidecar edits files by a ladder of
increasingly tolerant matches, compresses prompts to their best words and ranks the symbols of a repository.

How it is built:

- The model, the tools, the clock, the embedder, `difflib`'s ratio, `realpath` and the users are arbitrary functions or
  arbitrary sequences of steps; where the source asks them repeatedly, each answer may depend on everything that happened
  before.
- Code that updates state is a class or a loop, proved equal to a function of its inputs; what the code is for is then
  proved about that function, over whole runs.
- Concurrent protocols (the write chain, the session store, the steering window, the stream queue, the executor between
  grant withdrawals) are state machines over their atomic steps; theorems quantify over all step sequences. A step that
  is not possible in a state does nothing, so every sequence is an execution.
- Scores and ranks are reals.

Each module opens with the file it models. `*Guarantees` modules, `TurnProtocol`, `SessionStoreFields`, `RepoMapVotes`,
`FuzzyEditLadder` and `ExecutorReplies` hold the main theorems; `*Rules` modules say, without the model's own functions,
what those functions compute, so that the theorems can be read without them.

## Results that differ from what the code or its comments suggest

- An edit by lines (the exact, whitespace, leading-blank and closest-match rungs) keeps the file's line structure exactly
  when the seams meet: a replacement without a final line break is joined to the line that follows, and a deletion joins
  what stood before and after it (`LadderEditsLines`, `EditedLinesSplitBack`, an if and only if).
- An elided segment is refused when it is repeated, but a repeat that overlaps its first occurrence is not noticed
  (`SegmentIsSubstituted` has the exact condition, `OverlappingRepeatIsSubstituted` an input).
- Consolidation is idempotent exactly when everything it kept can recognise itself; a memory with a zero vector, or
  without words, is kept again on every run (`ConsolidationIsIdempotentIff`).
- A steering message accepted after the turn's last poll and before the window closes is confirmed to its sender but
  never reaches the model (`AcceptedButNeverPolled`; `AllDeliveredIffNoneAfterLastPoll` says exactly when none is lost).
- A session deletion that lands between a call's read and its append is undone if and only if the call is about that
  session and had decided to write it (`DeletionIsUndoneIff`; `DeleteBetweenReadAndAppendIsUndone` is an instance). The
  order of commits, the history of a session that is not deleted, one owner per workspace and one ask per signal hold in
  every interleaving all the same; only `RunIsLinearizable`, on the whole log, is for runs without such a landing.
- The writable mount that is chosen is the deepest matching one except where the workspace root, whose name "." is one
  character long, shadows a one-character directory listed after it (`ChosenIsDeepestIff`). The file written is the same
  one in either case (`MountedPathIsTheSameFile`).
- The refusal to write the workspace root itself compares with "." only: "./" passes for a file when the root is approved
  (`RootIsApprovedIff`).
- Two files that define one symbol both emit its rank, so the mass bound needs disjoint definitions. Sharing alone does
  not decide: from a total of 1 an iteration exceeds 1 exactly when what is emitted twice, with the token amounts,
  outweighs what dangles (`MassGrowsIff`; `SharedDefinitionGainsMass` is an instance).
- A call that names no path, command or address falls back to its tool's name, and then shares its grant key with a call
  whose path is spelt like the tool; `KeysAreExact` lists every such coincidence.
- The band meets the per-source floors exactly when they fit into it (`BandMeetsFloorsIffTheyFit`).

## Model

| member | source | states |
|---|---|---|
| `AgentLoop.TurnLoop.RunChatAgentLoop` | src/chat/chat-agent-loop.ts:129-303 | the loop returns the outcome that the specification `Loop` gives for this environment, and leaves exactly its messages, steps, used names, tokens and trace |
| `AgentLoop.TurnLoop.ApplyResponse` | src/chat/chat-agent-loop.ts:177-196 | a reply's tool calls are run, de-duplicated by fingerprint and folded into the prompt as `Apply` says |
| `AgentLoop.TurnLoop.ApplySteeringMessages` | src/chat/chat-agent-loop.ts:161-171 | polled user updates are appended to the prompt, and nothing else changes |
| `AgentLoopGuarantees.TurnKeepsBooks` | src/chat/chat-agent-loop.ts:143-303 | for every environment: no two tool runs of a turn share a fingerprint, steps are exactly the tool runs, used names and fingerprints are exactly theirs, the tokens of every model call are counted once, and each prompt extends the ones before it |
| `AgentLoopGuarantees.TurnEndsProperly` | src/chat/chat-agent-loop.ts:143-303 | at most two model calls per allowed iteration; steering is closed once and polled only before; every polled message is in a later call's prompt; no call with tools follows one without |
| `AgentLoopGuarantees.StopsOnlyOnEvidence` | src/chat/chat-agent-loop.ts:200-253 | with an assessor, a turn that stops by itself before its last iteration ends with steps that the assessor accepts |
| `TurnProtocol.TurnFollowsProtocol` | src/chat/chat-agent-loop.ts:129-303 | for every environment, read off the trace alone: each model call is the one that is due and has exactly the prompt that is due, exactly the new calls of each reply are run, the turn ends only where it may, and it reports the iteration limit if and only if the last allowed iteration still ran something new |
| `TurnProtocol.TurnAnswersWithLastReply` | src/chat/chat-agent-loop.ts:129-303 | the final text and reasoning of a turn are the text and reasoning of its last model call |
| `TurnProtocol.OutcomeListsOnce` | src/chat/chat-agent-loop.ts:129-303 | used names and prompt strategies are listed once each, in the order of their first appearance, and are exactly those of the steps and the calls |
| `ForceAdvance.SelectionIsOffered` | src/nklein-agent/nklein-attempt-simplification.ts:76-105 | narrowing offers only offered tools, and its matched names are exactly the offered tools that the instruction names |
| `ForceAdvance.ForcedCallIsFresh` | src/chat/chat-local-llm-adapter.ts:918-1026 | whatever the model answers on the force-advance path, a call that lands names an offered tool that has not been used |
| `ForceAdvance.PlainForcingIsAnchored` | src/chat/chat-local-llm-adapter.ts:918-1026 | without a force request a call is substituted only for an empty reply, and only for a named and unused tool |
| `ForceAdvance.FreshCallIsKept` | src/chat/chat-local-llm-adapter.ts:918-1026 | a reply that already carries a fresh call is never overridden |
| `ForceAdvance.LandedCallRuns` | src/chat/chat-agent-loop.ts:177-196 | a landed forced call is never de-duplicated: it runs and adds its tool to the used names |
| `ForceAdvance.AtMostOneLandedCallPerTool` | src/chat/chat-agent-loop.ts:262-274 | over a whole turn, for every environment, at most one reply per offered tool is a fresh call of it |
| `ForceAdvance.ForcedCallLandsIff` | src/chat/chat-local-llm-adapter.ts:918-1026 | a call lands if and only if one may be forced and the model answers on the menu; it is then the first such call, of the native answer if that has one and else of the constrained one |
| `ForceAdvance.ForcesTheUnused` | src/chat/chat-local-llm-adapter.ts:918-1026 | what is forced are exactly the unused tools that the instruction names, or, when none is left, the unused offered ones; the one asked for first is the earliest of them |
| `ForceAdvance.SelectionIsInOrder` | src/nklein-agent/nklein-attempt-simplification.ts:76-105 | the narrowed tools stand in the order in which the instruction names them; with one tool, or none named, the offer stays as it is |
| `ForcedTurns.ForcedTurn` | src/chat/chat-local-llm-adapter.ts:918-1026 | in every turn whose forced calls go to the adapter, whatever the model answers: each call that the rung lands is the loop's reply, names an offered and unused tool, and runs next; and there is at most one for each offered tool |
| `EvidenceGates.GatesAreMonotone` | src/chat/chat-agent-turn.ts:261-303 | a gate that holds keeps holding as steps are added |
| `EvidenceGates.MissingEvidenceIsNamed` | src/chat/chat-agent-turn.ts:290-303 | the missing-evidence text is there exactly while a gate fails, and is then what the loop tells the model |
| `EvidenceGates.MissingToolsAreListed` | src/chat/chat-agent-turn.ts:290-297 | while tools are missing the text lists exactly the required tools that no step has called |
| `EvidenceGates.NamedAreRequired` | src/chat/chat-agent-turn.ts:261-269 | once the instruction names two offered tools, the required tools are exactly the offered ones it names |
| `EvidenceGates.TurnHasEvidence` | src/chat/chat-agent-turn.ts:261-289 | end to end: a turn that stops by itself early has run the acceptance command of its instruction to a zero exit, and has called every offered tool that the instruction names when it names two or more |
| `EvidenceRules.TurnShowsItsEvidence` | src/chat/chat-agent-turn.ts:261-303 | the same said of the steps alone: a turn that stops by itself early has a step that called each of two named tools, and a `run_command` step with a zero exit whose command contains the acceptance command modulo white space |
| `EvidenceRules.DemandsMetIff` | src/chat/chat-agent-turn.ts:276-289 | the gate holds if and only if every required tool was called and the acceptance command was run to a zero exit |
| `EvidenceRules.WhatIsMissingIsSaid` | src/chat/chat-agent-turn.ts:290-303 | missing tools are named first, then a missing acceptance run, and nothing when nothing is missing |
| `EvidenceRules.OneNamedRequiresNothing` | src/chat/chat-agent-turn.ts:261-269 | an instruction that names at most one offered tool requires none |
| `EvidenceRules.NormalizedIsSpaced` | src/chat/chat-acceptance-completion.ts:22-44 | a normalised command is its words with one space between them |
| `EvidenceGates.WrappedCommandCounts` | src/chat/chat-acceptance-completion.ts:22-44 | a successful run counts however it wraps, pads or respaces the acceptance command |
| `Chat.ReplaceLastUserText` | src/chat/chat-local-llm-adapter.ts:1091-1103 | the backward scan replaces exactly the last user message |
| `Chat.ReplaceThenRead` | src/chat/chat-local-llm-adapter.ts:1077-1103 | the new text is read back exactly when there was a user message |
| `Chat.ReplaceOverrides` | src/chat/chat-local-llm-adapter.ts:1077-1103 | a second replacement overrides the first, and putting the text back restores the messages |
| `Chat.LastUserIsReplaced` | src/chat/chat-local-llm-adapter.ts:1077-1103 | the text read is that of the last user message, and replacing it changes that message and no other |
| `Chat.FactsOfExchange` | src/chat/chat-local-llm-adapter.ts:1125-1178 | folding a tool exchange adds to the forced call's facts exactly its results whose call id is no nudge's |
| `Chat.ForceContextAsksOnce` | src/chat/chat-local-llm-adapter.ts:1125-1157 | the rebuilt context ends in its one user message, holds only system notes before it, and keeps every fact |
| `Chat.ForceContextHolds` | src/chat/chat-local-llm-adapter.ts:1125-1157 | the rebuilt context holds the system notes before the instruction, the instruction and the facts, all of them and nothing else, before its one ask |
| `Chat.ExchangeIsFolded` | src/chat/chat-local-llm-adapter.ts:1159-1178 | a tool exchange appends the reply text when it is not blank, and then one note for each result with its call id, in order |
| `Chat.SteeringIsFolded` | src/chat/chat-agent-loop.ts:161-171 | each update becomes a user message that ends in its text, in order, behind what was there |
| `TruncationLadders.CompletePlain` | src/chat/chat-local-llm-adapter.ts:270-294 | the plain ladder makes exactly the asks of `Climb` and returns the last reply cleaned |
| `TruncationLadders.StreamWithContinuation` | src/chat/chat-local-llm-adapter.ts:309-399 | the streaming ladder makes exactly the asks of `Climb` and returns what was shown: the cleaned replies with a marker before each continuation |
| `TruncationLadders.RaiseToolBudget` | src/chat/chat-local-llm-adapter.ts:773-834 | the tool ladder starts at the tripled budget, makes exactly the asks of `Climb` and returns the last reply |
| `TruncationLadders.LadderIsBounded` | src/chat/chat-local-llm-adapter.ts:777-833 | a ladder makes at most one call more than it has passes, each because the one before was cut off, with strictly larger budgets under the ceiling; a cut reply comes back only when passes or ceiling are used up |
| `TruncationLadders.LandedCallIsKept` | src/chat/chat-local-llm-adapter.ts:806-833 | only the reply that the tool ladder returns can carry a call: none is thrown away |
| `TruncationLadders.StreamOnlyAppends` | src/chat/chat-local-llm-adapter.ts:366-390 | what was shown stays in front of what follows, and each continuation is asked with exactly the text shown so far |
| `LadderRules.LadderFollowsOn` | src/chat/chat-local-llm-adapter.ts:270-399 | each further ask follows the one before by the rule: only after a cut reply (or one that thinking starved, on the tool ladder), with twice the budget up to 8192 and the prompt of its kind; and the climb goes on as long as it may |
| `LadderRules.ShownIsJoined` | src/chat/chat-local-llm-adapter.ts:366-390 | what is shown is the cleaned replies in order with the continuation marker between them |
| `SteeringProtocol.ActiveChatTurn.AcceptMessage` | src/chat/chat-service.ts:323-329 | a message is queued and acknowledged exactly while the window is open |
| `SteeringProtocol.ActiveChatTurn.PollMessages` | src/chat/chat-service.ts:330-335 | a poll returns everything pending and leaves nothing |
| `SteeringProtocol.PolledThenPending` | src/chat/chat-service.ts:318-340 | in every interleaving the polled batches followed by the pending messages are the accepted messages |
| `SteeringProtocol.NothingAcceptedAfterClose` | src/chat/chat-service.ts:318-340 | nothing is accepted after the close |
| `SteeringProtocol.AcceptedUntilTheClose` | src/chat/chat-service.ts:318-340 | exactly the messages that arrive before the first close are accepted, in order, and every poll returns a batch |
| `SteeringProtocol.AllDeliveredIffNoneAfterLastPoll` | src/chat/chat-service.ts:318-340 | every accepted message has been polled if and only if none was accepted after the last poll |
| `SteeringProtocol.AcceptedButNeverPolled` | src/chat/chat-service.ts:318-340 | a message accepted between the last poll and the close is lost |
| `AutonomousDriver.RunAutonomousChatAgent` | src/chat/chat-autonomous-loop.ts:73-133 | the driver loop stops where and as `Drive` says, for every clock, turn runner and plan reader |
| `AutonomousDriver.RunEndsForItsReason` | src/chat/chat-autonomous-loop.ts:73-133 | the turn count is right and within the cap, each turn started within the time budget, and each stop reason is true of what the run saw |
| `AutonomousDriver.DoneIsRejectedAtMostOnce` | src/chat/chat-autonomous-loop.ts:98-114 | of two claims to be done the second ends the run as completed, and only the turn after the first is told of a rejection |
| `AutonomousDriver.StalledMeansIdle` | src/chat/chat-autonomous-loop.ts:107-125 | a stall means the last `maxNoProgressTurns` turns were each toolless or rejected, and no run goes past such a stretch |
| `WriteChain.Chains.SerializeWrite` | src/chat/chat-session-store.ts:199-212 | a call is linked behind the latest call of its key |
| `WriteChain.MutualExclusion` | src/chat/chat-session-store.ts:199-212 | in every interleaving at most one body per key is in progress |
| `WriteChain.StartsInCallOrder` | src/chat/chat-service.ts:408-416 | bodies of one key are entered in call order, each after the one before it is over |
| `WriteChain.EarliestCanAdvance` | src/chat/chat-session-store.ts:199-212 | whatever failed before, the earliest unfinished call of a key can take its next step |
| `WriteChain.CanDrain` | src/chat/chat-session-store.ts:199-212 | from every reachable state, and for every choice of failing bodies, a schedule finishes all calls |
| `SessionStore.ReplayChatSessions` | src/chat/chat-session-store.ts:232-270 | the replay loop yields the specified list of normalised sessions, newest update first |
| `SessionStore.ChatSessionLog.Update` | src/chat/chat-session-store.ts:389-458 | an update appends exactly the patched session, or nothing when there is none |
| `SessionStore.ChatSessionLog.RecordSessionTaint` | src/chat/chat-session-store.ts:332-356 | taint is folded in as a union without touching the update time |
| `SessionStore.ChatSessionLog.EnsureSessionForWorkspace` | src/chat/chat-session-store.ts:358-387 | find-or-create returns the newest owner, or appends a new one |
| `SessionStore.ChatSessionLog.AddOutstandingAsk` | src/chat/chat-session-store.ts:460-480 | an ask replaces the one with its signal key |
| `SessionStore.ChatSessionLog.ClearOutstandingAsk` | src/chat/chat-session-store.ts:482-506 | clearing appends the session without the asks of the key, with the time stamped and all other asks in order, whenever the session exists, and nothing when it does not |
| `SessionStore.ChatSessionLog.DeleteSession` | src/chat/chat-session-store.ts:508-526 | a deletion is appended exactly when the session exists |
| `SessionStoreFacts.PropagationIsUnion` | src/core/taint-labels.ts:118-121 | propagation carries exactly the labels of either side, in canonical order |
| `SessionStoreFacts.NormalizedIsWellFormed` | src/chat/chat-session-store.ts:183-197 | whatever fields a stored record lacks, replay makes a well-formed session of it |
| `SessionStoreFacts.PersistRoundTrip` | src/chat/chat-session-store.ts:225-270 | a well-formed session that is written comes back unchanged |
| `SessionStoreFacts.OwnerFound` | src/chat/chat-session-store.ts:358-371 | the owner lookup finds an owner when there is one, the newest of them |
| `SessionStoreFields.OlderRecordsReadSafely` | src/chat/chat-session-store.ts:183-197 | field by field, what replay makes of a record that lacks fields: no risk acknowledged, no tokens, no asks, no taint, trimmed paths |
| `SessionStoreFields.SessionsAreListedNewestFirst` | src/chat/chat-session-store.ts:232-270 | sessions are listed newest update first, those with equal times by first arrival, and are exactly the current ones |
| `SessionStoreFields.PathsAreListed` | src/chat/chat-session-store.ts:183-197 | writable paths are kept trimmed, without empty ones, once each, in the order in which they were first given |
| `SessionStoreFields.EnsureLeavesAnOwner` | src/chat/chat-session-store.ts:358-387 | after find-or-create the workspace has an owner: those it had, or else a new session with nothing but its title |
| `SessionStoreRuns.EveryRunIsLive` | src/chat/chat-session-store.ts:199-212 | in every interleaving a call that has read holds a prefix of the log, and every session still there is as the call read it |
| `SessionStoreRuns.RunIsLinearizable` | src/chat/chat-session-store.ts:201-212 | in every quiet interleaving of reads and appends the log is what the committed operations would have written one after another |
| `SessionStoreGuarantees.CommitsAreFifo` | src/chat/chat-session-store.ts:199-212 | in every interleaving chained operations commit in call order, once each if they succeed and never if they fail |
| `SessionStoreGuarantees.SessionEvolves` | src/chat/chat-session-store.ts:201-212 | in every interleaving a session that is not deleted is exactly what the commits by calls that saw it make of it, one after another |
| `SessionStoreFields.FieldsEvolveInRun` | src/chat/chat-session-store.ts:389-458 | in every interleaving, while a session is not deleted, each of title, goal, risk flag, writable paths and update time is the value of the last commit that saw the session and carries that field, and is unchanged if there is none |
| `SessionStoreFields.TotalEvolvesInRun` | src/chat/chat-session-store.ts:389-458 | in every interleaving the token total is the last total that was set outright plus the deltas committed since |
| `SessionStoreFields.RiskNeedsAcknowledgement` | src/chat/chat-session-store.ts:389-458 | in every interleaving a session whose risk flag is set has a commit, or a record written directly, that acknowledged the risk |
| `SessionStoreGuarantees.EveryCommitSaw` | src/chat/chat-session-store.ts:201-212 | from a state on in which no pending reader missed the session, no commit misses it while it is not deleted |
| `SessionStoreGuarantees.TokensConservedInRun` | src/chat/chat-session-store.ts:389-458 | in every interleaving, from any state that has the session and while it is neither deleted nor given an absolute total, its token total grows by exactly the sum of the committed deltas |
| `SessionStoreGuarantees.EqualLengthMeansNothingNew` | src/chat/chat-session-store.ts:332-356 | the length comparison skips a write exactly when the union adds nothing |
| `SessionStoreGuarantees.TaintAccumulatesInRun` | src/chat/chat-session-store.ts:332-356 | in every interleaving the persisted taint of a session that is not deleted is exactly the union of what was there and what was recorded since |
| `SessionStoreGuarantees.OneOwnerPerWorkspaceInRun` | src/chat/chat-session-store.ts:372-387 | in every interleaving in which owners are made by find-or-create no workspace ever has two owning sessions |
| `SessionStoreGuarantees.OneAskPerSignal` | src/chat/chat-session-store.ts:460-506 | in every interleaving a signal never has two outstanding asks |
| `SessionStoreFields.AsksEvolveInRun` | src/chat/chat-session-store.ts:460-506 | in every interleaving an ask is outstanding if and only if the last commit about its signal added it, or there was none and it was there |
| `SessionStoreFields.AsksKeepOrder` | src/chat/chat-session-store.ts:460-506 | a new ask comes last, and those of other signals keep their order |
| `SessionStoreGuarantees.AppendBringsBackIff` | src/chat/chat-session-store.ts:389-458 | an append brings a missing session into being exactly when its operation decided to write that session |
| `SessionStoreGuarantees.DeletionIsUndoneIff` | src/chat/chat-session-store.ts:508-526 | a deletion between a call's read and its append is undone if and only if the call decided to write the deleted session |
| `SessionStoreGuarantees.DeleteBetweenReadAndAppendIsUndone` | src/chat/chat-session-store.ts:508-526 | an instance with a token update |
| `AsyncQueue.Queue.PushItem` | src/chat/async-queue.ts:30-36 | an item is buffered and the consumer woken, unless the stream is over |
| `AsyncQueue.Queue.PullOnce` | src/chat/async-queue.ts:52-66 | one pass of the consumer's loop yields an item, the failure, the end, or parks |
| `AsyncQueue.DeliveredThenBuffered` | src/chat/async-queue.ts:17-69 | in every interleaving, delivered followed by buffered is what was pushed before the close or failure |
| `AsyncQueue.EndingComesLast` | src/chat/async-queue.ts:51-66 | the consumer sees items, then only the producer's own ending, and that only when all items are delivered |
| `AsyncQueue.NoLostWakeUp` | src/chat/async-queue.ts:23-49 | a parked consumer means an empty, open and unfailed queue |
| `AsyncQueue.EndedStreamDrains` | src/chat/async-queue.ts:17-69 | from every reachable state of an ended stream, letting the consumer run delivers everything and reports the ending |
| `CapabilityGate.DecideBrokerGate` | src/core/capability-broker-gate.ts:41-55 | the loop over the sinks returns the first one that the taint rule closes |
| `CapabilityGate.TaintDecides` | src/core/taint-labels.ts:181-189 | every sink being protected, the first one is refused exactly when the labels are tainted and no trusted plan backs the action |
| `CapabilityGate.BrokerGuardsTheHost` | src/core/manifest-influence-sink.ts:43-76 | of the chat's actions the broker refuses exactly the host ones, exactly when tainted |
| `CapabilityGate.RefusalIsAntiMonotone` | src/core/taint-labels.ts:181-189 | more taint never lifts a refusal |
| `CapabilityGate.KeysAreExact` | src/core/capability-grants.ts:79-108 | two calls share a scope key if and only if they are the same kind of action on the same scope, or on one of the listed pairs of scopes written alike |
| `CapabilityGate.CommandsShareKeyIff` | src/core/capability-grants.ts:79-108 | two host commands share a grant key if and only if their trimmed command texts are equal |
| `CapabilityGate.PathsShareKeyIff` | src/core/capability-grants.ts:79-108 | two calls on files share a key if and only if their trimmed paths are equal, read from `path`, else `file`, else `target` |
| `CapabilityGate.FetchesShareKeyIff` | src/core/capability-grants.ts:79-108 | two page fetches share a key if and only if their addresses are on one host |
| `CapabilityGate.SearchesShareKeyIff` | src/core/capability-grants.ts:79-108 | two searches share a key if and only if their trimmed queries are equal |
| `CapabilityGate.NamelessShareKeyIff` | src/core/capability-grants.ts:79-108 | calls that name nothing share a key if and only if they are calls of one tool |
| `CapabilityGate.ManifestsReproduceThePolicy` | src/core/tool-capability-manifest.ts:256-319 | the gate on manifests decides as `decideChatActionAccess` does, and both decide as the table says that names the free, the confirmed and the denied actions of each mode |
| `CapabilityGate.SinksAre` | src/core/manifest-influence-sink.ts:43-76 | exactly which sinks a manifest touches, and which of them is asked about first |
| `Executor.GatedExecutor.Execute` | src/chat/chat-tool-executor.ts:99-208 | a call changes taint window, grants and both audit logs exactly as specified and gives the specified reply |
| `Executor.GatedExecutor.Obtain` | src/chat/chat-tool-executor.ts:167-175 | confirmation comes from a covering grant or a fresh approval, and only the latter records a grant |
| `ExecutorGuarantees.TaintOnlyGrows` | src/chat/chat-tool-executor.ts:198-204 | over any sequence of calls and withdrawals the taint window only grows, and not at all without the broker |
| `ExecutorGuarantees.RefusedOnceRefusedForever` | src/chat/chat-tool-executor.ts:142-158 | after a broker refusal no later call of that tool runs, whatever happens in between |
| `ExecutorGuarantees.UntrustedContentNeverReachesTheHost` | src/chat/chat-tool-executor.ts:99-208 | once a tool has returned untrusted content, nothing reads, writes or runs on the host for the rest of the turn, whatever is called or confirmed |
| `ExecutorGuarantees.TrailMatchesRuns` | src/chat/chat-tool-executor.ts:142-196 | each call that reaches the gates leaves one audit record; the executed ones are, in order, the tools that ran; the egress log is the egress part of the trail |
| `ExecutorGuarantees.EveryGrantHasItsConfirmation` | src/chat/chat-tool-executor.ts:167-177 | every standing grant goes back to a fresh confirmation of exactly its scope, not withdrawn since, or was there before |
| `ExecutorGuarantees.EveryRunIsAuthorised` | src/chat/chat-tool-executor.ts:160-184 | a tool runs only where the mode allows it, on a confirmation of this call, or on an unexpired confirmation of this very scope |
| `ExecutorGuarantees.RunsAreSober` | src/core/tool-capability-manifest.ts:256-319 | host changes, host commands and network reads never run unconfirmed, and the isolated mode reads the sandbox or makes confirmed sandbox writes only |
| `ExecutorReplies.RunsAsThePolicySays` | src/chat/chat-tool-executor.ts:135-206 | a call that reaches the gates runs, is audited and is answered as broker, policy and confirmation say, each reply kind if and only if its cause |
| `ExecutorReplies.OtherCallsChangeNothing` | src/chat/chat-tool-executor.ts:106-133 | a call of an unknown tool or with arguments beyond repair changes nothing and is told which |
| `ExecutorReplies.TaintIsWhatIsBrought` | src/chat/chat-tool-executor.ts:198-225 | the window grows by exactly the labels of what ran, and only with the broker on |
| `ExecutorReplies.WindowsAreCurrent` | src/chat/chat-tool-executor.ts:198-204 | over any sequence of calls, whoever is told of the window has been told its present content |
| `ExecutorReplies.AttemptsSayWhatFor` | src/chat/chat-tool-executor.ts:186-265 | each call that reads the network leaves one attempt, naming the address or the query exactly for the two tools that have one |
| `ExecutorReplies.HostCommandsGoBackToTheirText` | src/chat/chat-tool-executor.ts:160-184 | over any sequence of calls and withdrawals, a host command runs only on an approval of this call or on an unexpired approval of a call whose trimmed command is the same text |
| `ExecutorReplies.ApprovalsAreRecorded` | src/chat/chat-tool-executor.ts:165-177 | a grant is recorded exactly for a fresh approval, for the time the grants are given |
| `ExecutorReplies.GrantStandsUntilWithdrawn` | src/chat/chat-tool-executor.ts:165-177 | a grant stands, whatever is called, until its key is withdrawn |
| `MemoryBand.SelectMemoryBand` | src/chat/chat-memory-projection.ts:151-188 | the two passes over ranked buckets give the specified band |
| `MemoryBand.ProjectUnifiedMemory` | src/chat/chat-memory-projection.ts:92-145 | the four loops give the specified projection |
| `MemoryBandGuarantees.BandShape` | src/chat/chat-memory-projection.ts:151-188 | the band has size min(max, n), is sorted by salience, and takes a prefix of each source's ranking |
| `MemoryBandGuarantees.BandMeetsFloorsIffTheyFit` | src/chat/chat-memory-projection.ts:168-178 | the band holds each source's floor if and only if the floors fit |
| `MemoryBandGuarantees.BandIsOptimal` | src/chat/chat-memory-projection.ts:151-188 | no selection of the band's size that meets every floor has a larger total salience |
| `MemoryBandRules.BandIsInOrder` | src/chat/chat-memory-projection.ts:151-188 | no record stands behind one that it outranks, by salience and then by id |
| `MemoryBandRules.BestOfEachSource` | src/chat/chat-memory-projection.ts:151-188 | a record that outranks a chosen one of its source is chosen too |
| `MemoryBandRules.FreePlacesGoToTheBest` | src/chat/chat-memory-projection.ts:151-188 | a chosen record beyond its source's floor is outranked by no record left out, of whatever source |
| `MemoryBandRules.FloorsGoInSourceOrder` | src/chat/chat-memory-projection.ts:151-188 | when the floors do not fit, a source gets a place only after every earlier source has its floor |
| `MemoryBandRules.OptionsMean` | src/chat/chat-memory-projection.ts:137-160 | twelve records and a floor of one unless given; given numbers are cut to whole ones, at least 1 and 0 |
| `MemoryBandGuarantees.ProjectionIdsDistinct` | src/chat/chat-memory-projection.ts:92-145 | the projection repeats an id exactly when one of its input lists does |
| `MemoryBandGuarantees.ProjectionIsWellFormed` | src/chat/chat-memory-projection.ts:76-145 | a record can be deleted exactly when its source is user-owned, and its weight is in [0, 1] |
| `MemoryBandRules.ProjectionCarriesEverything` | src/chat/chat-memory-projection.ts:92-145 | every memory, layer record and note comes out, in order and with its own text, and behind them the first plan step in progress |
| `Similarity.CosineSimilarity` | src/chat/chat-memory-store.ts:154-172 | the accumulating loop computes the cosine, and 0 for empty vectors, vectors of unequal length and zero vectors |
| `Similarity.LexicalSimilarity` | src/chat/chat-memory-store.ts:184-198 | the counting loop computes the overlap of the two word sets |
| `Similarity.CosineInRange` | src/chat/chat-memory-store.ts:154-172 | cosine similarity is symmetric and lies in [-1, 1], by Cauchy and Schwarz |
| `Similarity.CosineOfSelf` | src/chat/chat-memory-store.ts:154-172 | a vector has similarity 1 to itself exactly when it is not zero |
| `Similarity.SimilarityFacts` | src/chat/chat-memory-store.ts:200-219 | similarity is symmetric, at most 1, and 1 to itself except for an item that cannot recognise itself |
| `SimilarityRules.CosineIsTheAngle` | src/chat/chat-memory-store.ts:154-172 | the cosine's square times the squared lengths is the square of the sum of products, with its sign; and 0 when the vectors cannot be compared |
| `SimilarityRules.WordsAreMaximalRuns` | src/chat/chat-memory-store.ts:174-198 | the words of a text are exactly its maximal runs of word characters |
| `SimilarityRules.JaccardIsTheSharedPart` | src/chat/chat-memory-store.ts:184-198 | word overlap times the number of all words is the number of shared words |
| `SimilarityRules.VectorsOfOneModel` | src/chat/chat-memory-store.ts:200-219 | vectors of different models are never compared: the words decide, as if there were none |
| `Consolidation.ProposeConsolidatedMemories` | src/chat/chat-memory-store.ts:244-261 | the greedy loop keeps exactly the specified candidates |
| `Consolidation.KeptAreDistinct` | src/chat/chat-memory-store.ts:244-261 | kept memories are below the threshold against each other and against every accessible one |
| `Consolidation.DroppedHasWitness` | src/chat/chat-memory-store.ts:244-261 | a candidate is dropped exactly when an accessible memory or an earlier kept one reaches the threshold |
| `Consolidation.ProposalsAreNew` | src/chat/chat-memory-store.ts:224-261 | every proposal is made of an extracted text, and is below the threshold against every memory that the session may see |
| `Consolidation.NothingIsLost` | src/chat/chat-memory-store.ts:224-261 | every extracted text is proposed, or reaches the threshold against a proposal or a memory that the session may see |
| `Consolidation.SecondRunKeepsTheUnstable` | src/chat/chat-memory-store.ts:244-261 | after storing what was kept, a second run keeps exactly the items that cannot recognise themselves |
| `Consolidation.ConsolidationIsIdempotentIff` | src/chat/chat-memory-store.ts:244-261 | the second run keeps nothing if and only if every kept item has a usable vector or, failing that, a word |
| `MemoryRetrieval.InferSupersededMemoryIds` | src/chat/chat-memory-retrieval-policy.ts:122-142 | the nested loops find exactly the linked and inferred supersessions |
| `MemoryRetrieval.SameNamespaceIsEquivalence` | src/chat/chat-memory-retrieval-policy.ts:111-116 | sharing a namespace is having the same home, an equivalence |
| `MemoryRetrieval.WithholdingIsNewer` | src/chat/chat-memory-retrieval-policy.ts:122-142 | a memory is withheld only by a strictly newer one of its own home, so supersession has no cycle |
| `MemoryRetrieval.WithheldHasSurvivor` | src/chat/chat-memory-retrieval-policy.ts:122-142 | every withheld memory has a strictly newer surviving one of its home |
| `MemoryRetrieval.RecallKeepsSomething` | src/chat/chat-memory-retrieval-policy.ts:144-161 | the filter stays in scope and never empties a scope that has memories |
| `MemoryRetrieval.SurvivorsIgnoreOrder` | src/chat/chat-memory-retrieval-policy.ts:122-161 | the surviving set does not depend on the order of the list |
| `MemoryRetrieval.RecallIsTheTop` | src/chat/chat-memory-store.ts:332-388 | what is recalled is relevant, as many as the limit admits, best first and better than every relevant survivor left out; required vectors are never replaced by words, and none are recalled when they are missing |
| `MemoryRecallRules.PassesIff` | src/chat/chat-memory-retrieval-policy.ts:100-161 | a memory passes the filter if and only if the session may see it and nothing that the session may see replaces it |
| `MemoryRecallRules.SupersededIff` | src/chat/chat-memory-retrieval-policy.ts:100-142 | a memory is superseded if and only if a newer one of its home links to it, or has a cue and shares two words and a fifth of the meaningful ones |
| `MemoryRecallRules.PrivateStaysPrivate` | src/chat/chat-memory-retrieval-policy.ts:57-161 | end to end from the question: a private memory of another session is recalled only in an all-projects search, and only when its namespace is named, or is the active one while none is named |
| `MemoryRecallRules.RecallIsListed` | src/chat/chat-memory-store.ts:332-388 | what comes back is listed by score and then newest first |
| `MemoryRecallRules.LeftOutAreListedAfter` | src/chat/chat-memory-store.ts:332-388 | whatever relevant memory is left out would be listed behind everything that comes back |
| `MemoryRecallRules.ScoreIs` | src/chat/chat-memory-store.ts:332-388 | vectors of the same model are compared, words otherwise, and nothing when vectors are required |
| `NamespaceDecision.ResolveMemoryNamespaceDecision` | src/chat/chat-memory-retrieval-policy.ts:68-98 | the matching loops give the specified decision |
| `NamespaceDecision.IncludesIsWordMatch` | src/chat/chat-memory-retrieval-policy.ts:73-82 | the padded substring test holds if and only if the phrase's words follow one another in the query |
| `NamespaceDecision.NamedByMeansNamed` | src/chat/chat-memory-retrieval-policy.ts:57-82 | a namespace is matched exactly when one of its phrases occurs, and then by the longest that does |
| `NamespaceDecision.OnlyNamedNamespacesAreAllowed` | src/chat/chat-memory-retrieval-policy.ts:68-98 | recall is opened exactly to the named namespaces, or to the active one when none is named |
| `NamespaceDecision.OnlyNamesAreDropped` | src/chat/chat-memory-retrieval-policy.ts:90-97 | the search text loses exactly the generic words and the words of the matched phrases |
| `NamespaceDecision.SearchKeepsOrder` | src/chat/chat-memory-retrieval-policy.ts:90-97 | the words that stay in the search text keep their order |
| `NamespaceDecision.OpenedOnce` | src/chat/chat-memory-retrieval-policy.ts:68-89 | each namespace is opened once |
| `PyText.ConcatThenSplit` | core-py/klein_core/fuzzy_edit.py:29-30 | joining and splitting gives a list of lines back exactly when it is one that splitting can make |
| `PyText.SplitThenConcat` | core-py/klein_core/fuzzy_edit.py:29-30 | splitting and joining is the identity |
| `FuzzyEdit.Perfect` | core-py/klein_core/fuzzy_edit.py:37-43 | the scan replaces the first line-exact window or finds none |
| `FuzzyEdit.WhitespaceFlexible` | core-py/klein_core/fuzzy_edit.py:46-68 | the scan replaces the first window alike modulo surrounding white space, re-indented |
| `FuzzyEdit.SplitSegments` | core-py/klein_core/fuzzy_edit.py:83-91 | the loop splits the lines at the elisions |
| `FuzzyEdit.DotDotDots` | core-py/klein_core/fuzzy_edit.py:78-104 | the loop substitutes segment by segment or refuses |
| `FuzzyEdit.Fuzzy` | core-py/klein_core/fuzzy_edit.py:107-124 | the scan over lengths and places edits the best window or reports the best similarity |
| `FuzzyEdit.ApplySearchReplace` | core-py/klein_core/fuzzy_edit.py:127-157 | the ladder tries its rungs in order |
| `FuzzyEdit.ApplyBlocks` | core-py/klein_core/fuzzy_edit.py:160-175 | the fold applies all blocks or returns the original text |
| `FuzzyEditGuarantees.ExactIsLeftmost` | core-py/klein_core/fuzzy_edit.py:37-43 | an existing line-exact window always wins, and it is the leftmost |
| `FuzzyEditGuarantees.ExactIdentity` | core-py/klein_core/fuzzy_edit.py:37-43 | replacing a text by itself on the exact rung changes nothing |
| `FuzzyEditGuarantees.ExactUndo` | core-py/klein_core/fuzzy_edit.py:37-43 | swapping search and replacement takes an exact edit back, when the replacement occurs nowhere before the edited place |
| `FuzzyEditGuarantees.ReindentKeepsText` | core-py/klein_core/fuzzy_edit.py:55-67 | re-indenting keeps a line's text and maps indentation part + e to file + e |
| `FuzzyEditGuarantees.WhitespaceKeepsText` | core-py/klein_core/fuzzy_edit.py:46-68 | the leftmost matching window is edited, line for line with the replacement's own text |
| `FuzzyEditGuarantees.ReindentIdentity` | core-py/klein_core/fuzzy_edit.py:46-68 | replacing a block by itself leaves the file unchanged when the window is a uniform re-indent of it |
| `FuzzyEditGuarantees.FuzzyTakesTheBest` | core-py/klein_core/fuzzy_edit.py:107-124 | the rung edits the most similar window of the allowed lengths, the earliest of equals, and refuses exactly below 0.8 |
| `FuzzyEditGuarantees.FindTextIsFirst` | core-py/klein_core/fuzzy_edit.py:98-103 | the place found is the first occurrence, and none is found exactly when there is none |
| `FuzzyEditGuarantees.SegmentIsSubstituted` | core-py/klein_core/fuzzy_edit.py:94-104 | a segment with text is substituted at its leftmost occurrence if and only if none starts after the end of that one |
| `FuzzyEditGuarantees.OverlappingRepeatIsSubstituted` | core-py/klein_core/fuzzy_edit.py:94-104 | an overlapping repeat that is not refused |
| `FuzzyEditGuarantees.ElisionIdentity` | core-py/klein_core/fuzzy_edit.py:78-104 | replacing every segment by itself changes nothing |
| `FuzzyEditGuarantees.BlocksCompose` | core-py/klein_core/fuzzy_edit.py:160-175 | applying a + b is applying a and then b, all or nothing |
| `FuzzyEditGuarantees.RefusalRestores` | core-py/klein_core/fuzzy_edit.py:160-175 | a refusal returns the original text and names the first refused block; a success has one strategy per block |
| `FuzzyEditGuarantees.EditedLinesSplitBack` | core-py/klein_core/fuzzy_edit.py:29-68 | replacing or deleting lines gives a text that splits into the edited lines if and only if the seams are clean |
| `FuzzyEditGuarantees.ReindentIsProper` | core-py/klein_core/fuzzy_edit.py:55-67 | re-indented lines stay lines |
| `FuzzyEditGuarantees.LadderEditsLines` | core-py/klein_core/fuzzy_edit.py:127-150 | each edit by the exact, whitespace, leading-blank and closest-match rungs replaces lines of the file by the replacement's, at most re-indented, and splits back if and only if the seams are clean |
| `FuzzyEditLadder.FirstRungEdits` | core-py/klein_core/fuzzy_edit.py:127-157 | for every non-empty search the first rung that can make the edit makes it, each rung's condition said of the texts, the elision rung's included; and the edit is refused exactly when none can |
| `FuzzyEditLadder.EmptySearchAppends` | core-py/klein_core/fuzzy_edit.py:127-130 | an empty search appends |
| `FuzzyEditLadder.SegmentsAreCutAtElisions` | core-py/klein_core/fuzzy_edit.py:83-91 | a text is cut at its `...` lines, each of them, and nowhere else |
| `FuzzyEditLadder.SegmentsTakeTurns` | core-py/klein_core/fuzzy_edit.py:94-104 | elided segments are substituted one after the other, each in what the one before it left |
| `FuzzyEditLadder.AllowedLengths` | core-py/klein_core/fuzzy_edit.py:107-124 | windows from nine tenths of the search's length, cut off, to eleven tenths, rounded, are tried |
| `Compression.Tokenize` | core-py/klein_core/compression.py:84-88 | the loop numbers the maximal runs of space and non-space |
| `Compression.HeuristicTokenScores` | core-py/klein_core/compression.py:91-118 | frequencies are counted first, then each token is scored |
| `Compression.CompressByTokenImportance` | core-py/klein_core/compression.py:121-155 | the compressor keeps, joins and tidies as specified, with the specified counts and errors |
| `CompressionGuarantees.TokensAreTokenised` | core-py/klein_core/compression.py:84-88 | tokens alternate and concatenate back to the text |
| `CompressionGuarantees.WordsAreNonStructuralPieces` | core-py/klein_core/compression.py:84-88 | the words of a text are its pieces that are not white space |
| `CompressionGuarantees.NoGapIsInserted` | core-py/klein_core/compression.py:137-148 | the gap-inserting branch is never reached |
| `CompressionGuarantees.CollapseKeepsWords` | core-py/klein_core/compression.py:149-149 | collapsing blanks neither merges nor splits a word |
| `CompressionGuarantees.TrimKeepsWords` | core-py/klein_core/compression.py:149-149 | trimming around line breaks neither merges nor splits a word |
| `CompressionGuarantees.RetokenisesToKeptWords` | core-py/klein_core/compression.py:137-155 | the word tokens of the compressed text are exactly the kept words in order, whatever was kept |
| `CompressionGuarantees.KeptAreTheBest` | core-py/klein_core/compression.py:133-135 | exactly the requested number is kept, and each kept word outranks each dropped one by (score, earlier index) |
| `CompressionGuarantees.CompressionKeepsTheBestWords` | core-py/klein_core/compression.py:121-155 | the whole contract: the word tokens of the result are the reported number of best words, in order, at least one |
| `CompressionGuarantees.CompressionKeepsTheShare` | core-py/klein_core/compression.py:121-155 | with x = clamped ratio times words, one word is kept when x is below 1.5, and otherwise a nearest integer of x, the even one of two |
| `CompressionGuarantees.OnlyWordsAndBlanksGo` | core-py/klein_core/compression.py:137-155 | whatever is kept, only dropped words, spaces and tabs go: every line break and other character stays |
| `CompressionGuarantees.CompressedIsTidy` | core-py/klein_core/compression.py:149-149 | no two blanks in a row and no space beside a line break: the second rewrite does not undo the first |
| `CompressionGuarantees.TidyIsLeftAlone` | core-py/klein_core/compression.py:149-149 | a tidy text is left alone, so the two rewrites are idempotent together |
| `CompressionGuarantees.StopWordsGoFirst` | core-py/klein_core/compression.py:91-118 | under the built-in scores a stop word is kept only when every other word is |
| `CompressionGuarantees.ScoreOfWord` | core-py/klein_core/compression.py:91-118 | the score of a word said of the text: 0.1 for a stop word, else one, plus the inverse of how often it occurs whatever its case, plus the bonuses for code, length and place |
| `CompressionGuarantees.RarerOutranks` | core-py/klein_core/compression.py:91-118 | of two words alike in all bonuses the one that occurs less often outranks the other |
| `RepoMap.RankSymbols` | core-py/klein_core/repomap.py:37-74 | extraction, iteration and final sort give the specified ranking |
| `RepoMap.PageRank` | core-py/klein_core/repomap.py:59-70 | the iterations compute `Iterate` |
| `RepoMapMass.StepMass` | core-py/klein_core/repomap.py:61-70 | the total after an iteration is the base amount plus the damped emission |
| `RepoMapMass.StepBalance` | core-py/klein_core/repomap.py:61-79 | the exact balance of an iteration, whoever defines what: repeated definitions and token amounts add, dangling definitions lose |
| `RepoMapMass.MassGrowsIff` | core-py/klein_core/repomap.py:61-79 | from a total of 1 an iteration exceeds 1 if and only if repeats and token amounts outweigh what dangles, and keeps 1 if and only if they balance |
| `RepoMapMass.RanksHaveFloor` | core-py/klein_core/repomap.py:61-70 | every rank is at least (1 - d) / n after every iteration |
| `RepoMapVotes.StepIsVotes` | core-py/klein_core/repomap.py:61-70 | an iteration gives each symbol the teleported share and the damped sum over the files of emission times mentions by number of targets |
| `RepoMapVotes.NamedLessRanksLess` | core-py/klein_core/repomap.py:59-79 | a symbol that no file names more often than another never ranks above it, after any number of iterations; so two named equally often rank equally |
| `RepoMapVotes.UnnamedHasTheShare` | core-py/klein_core/repomap.py:61-70 | a symbol that no file names has exactly the teleported share after every iteration |
| `RepoMapVotes.NamedGetsItsPart` | core-py/klein_core/repomap.py:61-79 | each file gives each symbol that it names at least an even part of what it emits |
| `RepoMapVotes.PathsVoteForOthers` | core-py/klein_core/repomap.py:39-57 | a path votes for exactly the symbols that a file of this path mentions and that another path defined first |
| `RepoMapVotes.OwnerIsFirst` | core-py/klein_core/repomap.py:39-46 | a symbol belongs to the first file that defines it |
| `RepoMapVotes.LastDefinitionsCount` | core-py/klein_core/repomap.py:41-45 | a path that is listed twice emits the rank of what its last file defines |
| `RepoMapMass.MassIsBounded` | core-py/klein_core/repomap.py:57-79 | the total never exceeds 1 plus the token amounts times d / (1 - d) |
| `RepoMapMass.MassIsConserved` | core-py/klein_core/repomap.py:57-79 | the total is exactly 1 when every defining file votes and no other does |
| `RepoMapMass.RepositoryIsPartitioned` | core-py/klein_core/repomap.py:39-57 | distinct paths and disjoint definitions give every symbol exactly one defining node |
| `RepoMapMass.RepositoryIsWellDefined` | core-py/klein_core/repomap.py:37-57 | the graph of any repository lists each symbol once and has known definitions and targets only |
| `RepoMapMass.RepositoryBalance` | core-py/klein_core/repomap.py:37-79 | for every repository, after any number of iterations, each rank is at least (1 - d) / n and the next iteration balances exactly |
| `RepoMapMass.RankingIsComplete` | core-py/klein_core/repomap.py:72-74 | the ranking is sorted, has each symbol once, and names its defining file and final rank |
| `RepoMapVotes.RankingIsInOrder` | core-py/klein_core/repomap.py:72-74 | the ranking lists higher ranks first, and equal ones in the order of the files |
| `RepoMapMass.RepositoryRanksAreBounded` | core-py/klein_core/repomap.py:37-79 | for distinct paths and disjoint definitions the total never exceeds 1 plus the amplified token amounts |
| `RepoMapMass.SharedDefinitionGainsMass` | core-py/klein_core/repomap.py:37-79 | an instance: a shared definition, nothing dangling, and a total above 1 |
| `WritableMounts.ResolveSandboxWritablePathMounts` | src/chat/chat-sandbox-workspace-tools.ts:84-101 | the map-filling loop gives each approved directory once, sorted |
| `WritableMounts.AssertWritablePathInside` | src/chat/chat-sandbox-workspace-tools.ts:184-209 | the upward walk ends, with the verdict of `Walk` |
| `PosixPath.NormalForm` | src/chat/chat-sandbox-workspace-tools.ts:139-150 | normalising a relative path gives its normal form, which the escape test rejects exactly when it leads outside |
| `WritableMountsRules.DetoursDoNotMatter` | src/chat/chat-sandbox-workspace-tools.ts:125-151 | a directory that is entered and left again can be cut out of a path anywhere |
| `WritableMountsRules.UpsFromTheTop` | src/chat/chat-sandbox-workspace-tools.ts:125-151 | above the start of a relative path every step up counts, above "/" none does |
| `WritableMountsGuarantees.ApprovalsAreDirectories` | src/chat/chat-sandbox-workspace-tools.ts:57-82 | an approval stands for the directory it names below the workspace and is dropped exactly when it names none |
| `WritableMountsGuarantees.MountsAreTheApprovals` | src/chat/chat-sandbox-workspace-tools.ts:84-101 | there is a mount for a directory if and only if some approval names it |
| `WritableMountsRules.MountsAreListed` | src/chat/chat-sandbox-workspace-tools.ts:84-101 | the mounts are listed by the collation of their directories, each directory once |
| `WritableMountsGuarantees.WithinIsSegmentPrefix` | src/chat/chat-sandbox-workspace-tools.ts:255-257 | the string prefix test holds exactly for the paths at or below the directory |
| `WritableMountsGuarantees.ChosenMount` | src/chat/chat-sandbox-workspace-tools.ts:259-268 | no mount is found exactly when none matches; the one found matches, is longest, and the first of equals |
| `WritableMountsGuarantees.ChosenIsDeepestIff` | src/chat/chat-sandbox-workspace-tools.ts:259-268 | the chosen mount is the deepest matching one if and only if the root does not shadow a one-character directory |
| `WritableMountsGuarantees.RootShadowsOneLetter` | src/chat/chat-sandbox-workspace-tools.ts:259-268 | a concrete shadowed choice |
| `WritableMountsGuarantees.MountedPathIsTheSameFile` | src/chat/chat-sandbox-workspace-tools.ts:275-281 | the mounted path lies under the chosen mount only and is the same host file as the workspace path |
| `WritableMountsGuarantees.WritesLandOnOneApprovedFile` | src/chat/chat-sandbox-workspace-tools.ts:417-451 | whenever the tool writes, both copies are the one host file at or below an approved directory |
| `WritableMountsRules.RequestsAreAnswered` | src/chat/chat-sandbox-workspace-tools.ts:125-151 | every request with a path gets its one answer: absolute, leading outside, the root, without text, not approved, or the write to exactly the segments that were asked |
| `WritableMountsRules.PathlessIsRefused` | src/chat/chat-sandbox-workspace-tools.ts:125-138 | a request without a path, or with a blank one, is refused as such |
| `WritableMountsGuarantees.ApprovalAgreesWithTheTool` | src/chat/chat-sandbox-workspace-tools.ts:270-273 | a path is approved beforehand exactly when the tool will write text to it |
| `WritableMountsGuarantees.RootIsApprovedIff` | src/chat/chat-sandbox-workspace-tools.ts:270-273 | the workspace root passes for a file exactly when spelt with a final slash and approved |
| `WritableMountsGuarantees.WalkFindsNearestAncestor` | src/chat/chat-sandbox-workspace-tools.ts:184-209 | the verdict is that of the nearest existing ancestor, or refusal when there is none |
| `WritableMountsGuarantees.InsideIsSegmentPrefix` | src/chat/chat-sandbox-workspace-tools.ts:157-159 | the containment test is the segment test, except that only "/" itself counts as inside "/" |

## Left out

- Rounding: scores, ranks, ratios and the 0.2, 0.8, 0.9 and 1.1 factors are exact reals, square roots are exact, and NaN and infinities do not occur; `Math.sqrt` is any function that inverts squaring.
- `localeCompare` is a real-valued collation key for names, and a fixed order for the seven memory sources.
- Two tool calls have one fingerprint exactly when name and arguments are equal; collisions of hashes are excluded, for mount names as well.
- Random session ids are fresh: a created session's id occurs nowhere earlier in the log.
- RunIsLinearizable: runs in which a direct creation or deletion lands inside an operation that depends on it are excluded, because there the log can differ from the sequential one; what such a run keeps is stated by the other members of `SessionStoreGuarantees`.
- A log that cannot be read counts as empty in the source; here every read succeeds. Disk, network, Docker and browser effects, and files the sandbox writes, are not part of this model.
- Exceptions thrown by tools, the model or the grant store; only the write chain's failing bodies, a failing stream and a failing taint scan are modelled.
- Session fields that no modelled operation decides on: scope, role, browser, feedback, focus, selected skills.
- `extractAcceptanceCommand`, the tool-name and identifier patterns, the taint scan, the argument-repair assessment, the audit detail and URL parsing are arbitrary functions; letter case folding and word splitting are too.
- Prompt wording: nudges and notes are shortened where only their role matters, refusal replies are named by their kind, and attachments are left out.
- The retry cursor of the adapter is an arbitrary claim decision; the prompt-variant ladder, the proactive skill-profile rung, constrained decoding's schema, the mid-stream reasoning breach and telemetry are left out.
- ForcedTurn: the adapter's forced replies are modelled by their calls; their text and token use are arbitrary.
- RaiseToolBudget: the soft switch that turns thinking off on the first retry is part of the given wire, not modelled on its own.
- DecideBrokerGate: the escalation and egress checks of the broker are not modelled, because the executor passes the tool's own manifest as the request and no egress request, so they cannot fire.
- Execute: the clock is read before and after the user is asked; withdrawals of grants happen between calls, not inside one.
- ApprovalAgreesWithTheTool: both sides get the same arguments; argument repair in between could change them.
- The host's paths are POSIX paths, and `realpath` of the sandbox is an arbitrary function; symbolic links are what it answers.
- A score list too short for the text raises an IndexError in the compressor; the model returns an absent result there. Infinite scores of structural tokens are absent values.
- The symbol extraction of the repository map: a file is given by its definitions and identifiers, in whatever order Python's sets yield them. `render_repo_map` is left out.
- More than one concurrent consumer of the stream queue.
- `runChatAgentConversation`, context-window trimming, enforced reasoning, token-budget planning, the acceptance of images, board and focus-chain stores, and `agent-core/agent-loop.ts` with its Python twin: simpler relatives of what is modelled, or plumbing.
