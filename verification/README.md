# Verified model of the harness's agent-graph core

A Dafny model of the parts of the harness that decide how an agent run moves: the
branch expression language, the bounded repeat counter and the advice cache, the
containers and routers of the agent graph, the event logs, and the protocols that run
concurrently around them (escalation slot, task connection, approval bridge, tool
fan-out). Each Dafny file is one module. `dafny verify dfyconfig.toml` checks all of it.

Code that changes things in place is modelled by methods and classes over real fields,
lists and maps, each proved equal to a specification function on values; the properties
are then proved of that function over every input or every run. Code that runs
concurrently is modelled as a state machine whose steps are the critical sections, and
the properties hold in every interleaving. What lies outside (model and tool calls, the
database, clocks, formatting and number parsing, the graph validator's cycle pass) is a
parameter that may do anything of its type.

The modules BranchAnswers, AdviceAnswers, RouterAnswers, LoopStops, RetryStops,
LadderHistory, VmOutcomes, ApprovalSessions and EventReadings state what those functions
compute in terms that do not mention them: the written string and the numbers, the calls
made before, the events in the batch, the frames on the wire.

| module | source | what it is about |
|---|---|---|
| BranchTokens, BranchValues, BranchGrammar, BranchParser, BranchPrinter, BranchAnswers | core/agentgraph/exec_control.go | the tokenizer and the parser that evaluates as it parses, against a grammar that knows nothing of cursors |
| Lru, DoomLoop | core/agentgraph/doomloop.go | a list and a map kept in agreement, against the history of uses |
| AdviceCache, HeuristicAdvisor, AdviceAnswers | core/advice | the cache with dismissal tombstones and the advisor that memoises through it |
| RunState, EscalationLadder, LadderHistory, LadderProtocol | core/agentgraph | the shared run state, the rung machine, and all interleavings of ladder nodes |
| VmConnection, VmOutcomes, ApprovalBridge, ApprovalSessions | cmd/harness-vm | the task loop with its busy flag, and approvals crossing to the client and back |
| ToolDispatch | core/agentgraph/exec_dispatch.go | the parallel fan-out |
| RoutingGate | core/agentgraph/routing_gate.go | stripping the routed topology |
| BodyFires, BodyTrace, LoopNode, LoopStops, RetryNode, RetryStops | core/agentgraph/exec_control.go | the two containers and their event batches |
| GraphEdges, EdgeLiveness, Router, RouterAnswers, JsonSpans | core/agentgraph | which edges may be drawn and which are promoted; the router's choice and its anti-thrash counter; finding JSON in text |
| EventLogs, EventReadings | core/agentgraph | the in-memory log and the log over a table |
| CompactionWatermark | core/agentgraph/compaction_watermark.go | when automatic compaction may fire |

## Where the code and its documentation disagree

The model follows the code. In each case a lemma says exactly when the documented
behaviour holds, or a concrete run shows that it fails.

- `jsonObjectCandidates` is documented as longest first (core/agentgraph/exec_router.go:468);
  the order is by closing position, last first: `CandidatesExact`. `LongestFirstIff` says for
  which texts the two agree; `NotLongestFirst` is one where they do not.
- `Append` is documented as atomic (core/agentgraph/events.go:374); both logs return in the
  middle of the loop after earlier events have landed: `FailedAppendIsNoOpIff` and
  `SqlFailedAppendIsNoOpIff`. Its result is documented as the highest number assigned
  (core/agentgraph/events.go:379); `LastIsHighestIff` says for which batches it is.
- The approval bridge's pending map is documented to drain in every interleaving
  (cmd/harness-vm/approvals.go:267); it keeps an approval exactly when its resolution
  overtook its dispatch: `LeaksIffOvertaken`, `LeakHappens`.
- A panicking tool is documented to leave its siblings running
  (core/agentgraph/exec_dispatch.go:429); a mutating one leaves the mutation lock held, and
  the fan-out then cannot finish if another mutating call is still to come: `FinishesIff`.
  `DeadlockIff` and `EveryScheduleFinishesIff` say for which batches of calls this can happen.
- A failed escalation attempt is documented never to strand the run's shared slot
  (core/agentgraph/executor.go:839); a call that panics keeps it for the rest of the run:
  `StrandedIff`, `StrandedForever`, `PanicStrandsSlot`.
- The router's outputs are documented to name the resolved choice on port `next`; a choice
  that is itself called `next` overwrites it: `KernelReadsChoiceIff`, `NextIsMisread`.

Four behaviours that no comment denies but a reader may not expect: an old task's `end`
unbinds a newer task that reuses its id (`EndUnbindsNewerIff`); a Retry does not reset its
payload between attempts (`RetryThreads`, `NotReset`); a Retry ignores a body's request to
pause, which a Loop honours (`RetryIgnoresPause`); and an int64 zero counts as true in a
condition where an int zero does not (`BareNameTruth`).

## Model

| member | source | states |
|---|---|---|
| BranchTokens.Tokenize | core/agentgraph/exec_control.go:213-284 | the byte-by-byte tokenizer, nested run loops included, computes the specification lexer `Lex`, value or first lexical error |
| BranchTokens.LexOneReads | core/agentgraph/exec_control.go:219-281 | a spelled token that the next byte cannot extend is read back as exactly that token |
| BranchTokens.EmitSpells | core/agentgraph/exec_control.go:219-281 | conversely, whatever one turn emits is a maximal spelling of the emitted token |
| BranchTokens.LexExactly | core/agentgraph/exec_control.go:213-284 | a string lexes to a token list if and only if it is leading space and then a layout of those tokens, with white space wherever two would run together |
| BranchParser.Parser.ParseOr | core/agentgraph/exec_control.go:305-322 | the loop returns the result and the cursor of the specification `OrFrom`; the cursor never moves back or past the end |
| BranchParser.Parser.ParseAnd | core/agentgraph/exec_control.go:324-341 | the same for `AndFrom` |
| BranchParser.Parser.ParseNot | core/agentgraph/exec_control.go:343-354 | the same for `NotFrom` |
| BranchParser.Parser.ParseAtom | core/agentgraph/exec_control.go:356-395 | the same for `AtomFrom`, error positions included |
| BranchParser.EvalBranchExpr | core/agentgraph/exec_control.go:177-191 | tokenize, parse from the top, refuse trailing tokens: equals `EvalBranch` |
| BranchParser.DerivedMeansMeaning | core/agentgraph/exec_control.go:286-395 | every token list a grammar tree derives evaluates to the tree's strict left-to-right meaning, value or error |
| BranchParser.EvaluatesExactlyDerivations | core/agentgraph/exec_control.go:286-395 | the parser returns v on a token list if and only if the grammar derives the list as a tree meaning v |
| BranchParser.WrittenMeansMeaning | core/agentgraph/exec_control.go:177-395 | any layout of any legal tree evaluates, from the string on, to the tree's meaning |
| BranchParser.BranchLanguage | core/agentgraph/exec_control.go:177-395 | for whole strings: a value is returned if and only if the string lays out a derivable token list with that value |
| BranchPrinter.ElaborateMeans | core/agentgraph/exec_control.go:305-354 | putting in the parentheses precedence needs does not change what a tree means |
| BranchPrinter.PrintEvaluates | core/agentgraph/exec_control.go:177-460 | round trip: printing an expression tree, lexing and evaluating gives the tree's meaning, value or error, and lexes to the printed tokens |
| BranchPrinter.PrintMinimal | core/agentgraph/exec_control.go:286-354 | the printed form keeps the tree and has the fewest parentheses of all the ways to write that tree so that it parses |
| BranchAnswers.OrdersFloats | core/agentgraph/exec_control.go:416-476 | written as a string, `name op operand` on two numbers answers their order on the extended reals, NaN below and above nothing; the operand a numeral, a quoted text, a bare word or a truth word |
| BranchAnswers.OrdersNumbers | core/agentgraph/exec_control.go:443-458 | on finite numbers the strings with <, >, <= and >= answer exactly x < y, x > y, x <= y and x >= y, the named input on the left |
| BranchAnswers.OrderErrors | core/agentgraph/exec_control.go:443-476 | a left side that is no number fails as such, a text that does not parse by its content, and only then the right side; all four operators alike |
| BranchAnswers.EqualityPrints | core/agentgraph/exec_control.go:418-442 | `==` compares printed forms, of the parsed float for a numeral and of the text for a quoted text or a bare word; `!=` is its negation and fails with it |
| BranchAnswers.BareNameTruth | core/agentgraph/exec_control.go:485-499 | a bare name is false exactly for nil or absent, false, the empty string, the int zero and the float64 zero; an int64 zero is true |
| BranchAnswers.PlainLookup | core/agentgraph/exec_control.go:397-414 | a name without a dot is the input of that name, nil if there is none |
| BranchAnswers.DottedLookup | core/agentgraph/exec_control.go:397-414 | a dotted name goes on inside the map its head holds; anything that is not a map ends in nil |
| BranchAnswers.ConnectivesCombine | core/agentgraph/exec_control.go:305-371 | whatever two strings answer, `(x) or (y)`, `(x) and (y)`, `not (x)` and `(x)` answer the disjunction, conjunction, negation and the same |
| BranchAnswers.PrecedenceHolds | core/agentgraph/exec_control.go:305-354 | without parentheses not binds tighter than and, and and tighter than or, on both sides |
| BranchAnswers.FirstErrorWins | core/agentgraph/exec_control.go:305-354 | both operands are always evaluated, the left one first, and the first error met is the answer |
| BranchAnswers.WordsFold | core/agentgraph/exec_control.go:261-279 | a word is a keyword in any mixture of letter cases and otherwise a name |
| BranchAnswers.LexErrorMeans | core/agentgraph/exec_control.go:213-284 | a lexical error names the first byte that cannot be read: everything before it lexes, and it is stray, half an operator or a quote never closed |
| BranchAnswers.MissingAtStart | core/agentgraph/exec_control.go:356-395 | an expression that is not there, at the start, is an unexpected end or an unexpected token at its position |
| BranchAnswers.MissingAfterOr | core/agentgraph/exec_control.go:305-395 | the same after or |
| BranchAnswers.MissingAfterAnd | core/agentgraph/exec_control.go:324-395 | the same after and |
| BranchAnswers.LeftOver | core/agentgraph/exec_control.go:177-191 | after a whole expression, what cannot continue it is reported as trailing at its position, or as a missing closing parenthesis inside one |
| BranchAnswers.MissingRhs | core/agentgraph/exec_control.go:383-391 | an operator with nothing after it is reported by its symbol |
| Lru.LinkedTable.MoveToFront | core/agentgraph/doomloop.go:63-84 | moving a list element to the front keeps map and list in agreement; the contents are the entry and then the others in order |
| Lru.LinkedTable.EvictOldest | core/advice/cache.go:92-115 | the last element leaves both list and map |
| Lru.LinkedTable.PushFront | core/advice/cache.go:92-115 | a new entry enters both list and map at the front |
| Lru.LinkedTable.Refresh | core/agentgraph/doomloop.go:63-84 | a hit rewrites the shared entry in place and moves it to the front |
| Lru.LinkedTable.Insert | core/agentgraph/doomloop.go:63-84 | a miss makes room if the table is full, then inserts: equals `Upsert` on the table as a value |
| Lru.PromoteTake | core/agentgraph/doomloop.go:21-45 | the bounded recency list is the unbounded one cut at the capacity, move by move |
| Lru.RecentPosition | core/agentgraph/doomloop.go:21-45 | a key stands in recency order behind exactly the distinct keys used since its last use |
| Lru.TrackedIff | core/agentgraph/doomloop.go:21-45 | a key is in the table if and only if fewer than capacity distinct other keys were used since its last use |
| DoomLoop.ToolCallHistory.constructor | core/agentgraph/doomloop.go:47-58 | an empty history; a non-positive capacity selects the default |
| DoomLoop.ToolCallHistory.Touch | core/agentgraph/doomloop.go:63-84 | `touch` on the real list and map: new contents and returned count of `TouchTable` |
| DoomLoop.RunKeys | core/agentgraph/doomloop.go:63-84 | after any touches the tracked keys are the capacity most recent distinct ones, most recent first, none twice |
| DoomLoop.CountSinceAbsent | core/agentgraph/doomloop.go:63-84 | a tracked key's stored count is the number of its touches since it was last absent |
| DoomLoop.TouchReports | core/agentgraph/doomloop.go:63-84 | so is the returned count, this touch included |
| DoomLoop.TrueTotalIff | core/agentgraph/doomloop.go:21-45 | the returned count is the true total if and only if no two consecutive touches of the key have capacity or more other distinct keys between them |
| AdviceCache.AdviceCache.Get | core/advice/cache.go:73-88 | a hit moves the entry to the front and returns it; a miss changes nothing |
| AdviceCache.AdviceCache.Put | core/advice/cache.go:92-115 | stores the recommendation, undismissed, as most recent, evicting the oldest key of a full table |
| AdviceCache.AdviceCache.Dismiss | core/advice/cache.go:122-143 | leaves a tombstone that keeps any stored recommendation |
| HeuristicAdvisor.Advisor.RegisterHeuristic | core/advice/heuristic.go:87-98 | first registration of a kind wins; the source panics on a second, `ok` is false here |
| HeuristicAdvisor.Advisor.SetKindGate | core/advice/heuristic.go:103-114 | sets or removes a kind's gate |
| HeuristicAdvisor.Advisor.RecommendFor | core/advice/heuristic.go:142-195 | `Recommend` with its skips in order; moot, disabled and unhashable calls leave the cache untouched |
| HeuristicAdvisor.Advisor.DismissFor | core/advice/heuristic.go:200-210 | `Dismiss`; unhashable features do nothing |
| HeuristicAdvisor.StepShape | core/advice/heuristic.go:142-210 | every call leaves the table alone or upserts the key it uses; a stored answer never overwrites an entry, so `put` never clears a dismissal in a sequential run |
| HeuristicAdvisor.AlwaysFaithful | core/advice/cache.go:73-143 | after any run the keys are the most recently used ones, an entry is a tombstone if and only if its key was dismissed and tracked ever since, and any other entry holds what the heuristic would answer now |
| HeuristicAdvisor.CacheIsTransparent | core/advice/heuristic.go:142-195 | after any run of registrations, gates, requests and dismissals a request is answered as without the cache, up to `CacheHit`, unless (and only then) its key is suppressed |
| HeuristicAdvisor.DismissalHoldsIff | core/advice/cache.go:117-143 | over any run a dismissal holds if and only if capacity distinct other keys are never used in a row without a use of its own key in between |
| HeuristicAdvisor.DismissalLasts | core/advice/cache.go:117-143 | in particular it holds while fewer than capacity distinct other keys have been used after it |
| AdviceAnswers.SuppressedByOwnDismissal | core/advice/heuristic.go:142-210 | after any calls, an answer is suppressed only by an earlier dismissal with the same session id, kind id, prompt version and features |
| AdviceAnswers.SessionsApart | core/advice/cache.go:23-33 | so two sessions never collide: with no dismissal under the request's session nothing is suppressed |
| AdviceAnswers.DismissedAtOnce | core/advice/heuristic.go:200-210 | a dismissal suppresses its question at once, for whoever asks it under that session |
| AdviceAnswers.AnswersMean | core/advice/heuristic.go:142-195 | after any calls a question not suppressed is turned away for the first of five reasons that applies (moot, disabled, unhashable, no backend, a failing or out-of-range backend) and otherwise carries the verdict of its own kind's first backend on its own features |
| AdviceAnswers.BackendIsFirst | core/advice/heuristic.go:87-121 | the first registration of a kind is its backend for good |
| AdviceAnswers.GateIsLast | core/advice/heuristic.go:103-133 | a kind is gated if and only if the latest gate set for it was not nil |
| AdviceAnswers.HitsWereAsked | core/advice/heuristic.go:161-170 | only a question put before in the same words is answered as a cache hit |
| AdviceAnswers.RepeatHits | core/advice/heuristic.go:161-195 | a question put twice in a row gets the same answer, marked as a hit |
| JsonSpans.JsonObjectCandidates | core/agentgraph/exec_router.go:474-506 | the scan with its stack and string flags returns exactly the specification's spans |
| JsonSpans.CandidatesExact | core/agentgraph/exec_router.go:468-506 | the spans are exactly the balanced ones outside string literals, those that close later first |
| JsonSpans.CandidatesLaminar | core/agentgraph/exec_router.go:468-506 | any two spans are disjoint or nested, the outer of a nested pair first |
| JsonSpans.CandidateRescans | core/agentgraph/exec_router.go:468-506 | a span starts with an opening brace, ends with a closing one and, scanned alone, is its own first candidate |
| JsonSpans.LongestFirstIff | core/agentgraph/exec_router.go:468-506 | the order is the promised longest first if and only if no balanced object is longer than one that comes after it in the text |
| JsonSpans.NotLongestFirst | core/agentgraph/exec_router.go:468-473 | a text that breaks it: the shorter span comes before the longer one |
| JsonSpans.LiteralOpaque | core/agentgraph/exec_router.go:474-506 | a complete string literal, escapes included, leaves the text plain at the same height and hides every brace in it |
| JsonSpans.PlainStays | core/agentgraph/exec_router.go:474-506 | while no quote is met plain text stays plain and every brace counts |
| JsonSpans.UnclosedHides | core/agentgraph/exec_router.go:474-506 | a literal that is never closed hides everything after its quote |
| RunState.RunState.SetOutputs | core/agentgraph/executor.go:748-754 | one critical section: the node's outputs are replaced and it counts as completed |
| RunState.RunState.Outputs | core/agentgraph/executor.go:756-761 | the stored outputs, or none |
| RunState.RunState.CompareAndSetOnce | core/agentgraph/executor.go:844-855 | true for the one caller that flips the key from unset to set |
| RunState.RunState.ReleaseOnce | core/agentgraph/executor.go:860-865 | the key is unset again and nothing else changes |
| RunState.MemoryLaws | core/agentgraph/executor.go:748-865 | what the writers do to what any node reads back: the key written and no other |
| EscalationLadder.Execute | core/agentgraph/exec_escalation_ladder.go:77-276 | the whole rung machine over the shared run state, panics in its model calls included: new state, effect and events of a fire run without interference |
| EscalationLadder.KeysApart | core/agentgraph/exec_escalation_ladder.go:54-75 | ladder nodes' state keys differ from one another and from the shared slot's |
| EscalationLadder.MicroRungs | core/agentgraph/exec_escalation_ladder.go:89-275 | one critical section moves its own node's rung only up and leaves every other node's alone |
| EscalationLadder.FireLowers | core/agentgraph/exec_escalation_ladder.go:89-275 | every fire that neither fails, panics nor pauses lowers its node's potential; none raises it |
| EscalationLadder.LadderBounded | core/agentgraph/exec_escalation_ladder.go:89-275 | over any run of whole fires of any ladder nodes: the rung never falls, at most max_retries backtracks, at most max_retries + 3 fires that neither err, panic nor pause |
| LadderHistory.NextFire | core/agentgraph/exec_escalation_ladder.go:77-276 | after any run of fires of any nodes the next fire's effect and events are determined by its node's latest effect, by whether any fire has used up the escalation, and by its own world: no rung is skipped and none taken twice |
| LadderHistory.FirstFire | core/agentgraph/exec_escalation_ladder.go:97-111 | the first fire of a node asks for backtrack 1 |
| LadderHistory.AfterBacktrack | core/agentgraph/exec_escalation_ladder.go:97-190 | after backtrack n the next one while n < max_retries; then the escalation, or the replan if any node has used the escalation up |
| LadderHistory.AfterFailedEscalation | core/agentgraph/exec_escalation_ladder.go:147-165 | a failed escalation is tried again while the slot is free |
| LadderHistory.AfterEscalation | core/agentgraph/exec_escalation_ladder.go:168-220 | after an escalation, and after a replan that failed, the replan |
| LadderHistory.AfterReplan | core/agentgraph/exec_escalation_ladder.go:210-270 | after a replan, and after a question left open, the ask: draft given back if withheld, else the recorded answer, else parked, else a failing ask |
| LadderHistory.AfterTheEnd | core/agentgraph/exec_escalation_ladder.go:222-275 | once answered or given up every further fire fails as exhausted |
| LadderHistory.SlotSpentIff | core/agentgraph/exec_escalation_ladder.go:124-183 | the escalation is used up if and only if some fire of some node escalated or panicked escalating |
| LadderProtocol.TurnEffect | core/agentgraph/exec_escalation_ladder.go:124-183 | a turn changes at most its own fire's claim, takes the slot only when free and releases only its own claim |
| LadderProtocol.OneEscalation | core/agentgraph/exec_escalation_ladder.go:124-183 | in every interleaving at most one escalation call is in flight, has succeeded or has panicked, and the slot is taken exactly then |
| LadderProtocol.FailureFrees | core/agentgraph/exec_escalation_ladder.go:147-165 | a call that comes back with an error held the slot alone and frees it |
| LadderProtocol.SuccessIsFinal | core/agentgraph/exec_escalation_ladder.go:124-183 | after a call that succeeded or panicked no later fire ever claims the slot |
| LadderProtocol.StrandedIff | core/agentgraph/executor.go:839-843 | the slot is free whenever no call is in flight and none has succeeded, as documented, if and only if no escalation call has panicked |
| LadderProtocol.StrandedForever | core/agentgraph/executor.go:839-843 | after a panic it stays taken and no call ever starts again |
| LadderProtocol.PanicStrandsSlot | core/agentgraph/exec_escalation_ladder.go:133-165 | a run in which that happens |
| LadderProtocol.RungsNeverFall | core/agentgraph/exec_escalation_ladder.go:89-275 | while no node is fired twice at once, no interleaving lowers any node's rung |
| LadderProtocol.RunBounded | core/agentgraph/exec_escalation_ladder.go:89-275 | the same two bounds in every interleaving of ladder nodes in which no node is fired twice at once |
| VmConnection.OneTaskAtATime | cmd/harness-vm/main.go:333-453 | in every interleaving at most one task is between winning `busy` and clearing it |
| VmConnection.OneTerminalEach | cmd/harness-vm/main.go:498-605 | an accepted start sends its running frames and then exactly one terminal frame |
| VmConnection.RefusedNeverRuns | cmd/harness-vm/main.go:333-453 | over any run the tasks are exactly the well-formed starts received while no task was in the window, in order, and the replies are exactly one conflict or bad request for each refused frame, in order |
| VmConnection.CancelHitsCurrent | cmd/harness-vm/main.go:333-453 | whatever runs between the look at `busy` and the call, a cancel hits the task current when it arrived, never a later one |
| VmConnection.TaskEnds | cmd/harness-vm/main.go:498-605 | from any reachable state a task's spawn, the return of its graph run and its own turns, as far as still to come, take it to its end with its terminal frame sent |
| VmConnection.OutcomeDecided | cmd/harness-vm/main.go:498-605 | over any run a task that has looked reports cancelled if and only if its cancel function was called before it looked |
| VmConnection.TerminalSaysCancelledIff | cmd/harness-vm/main.go:498-605 | and so does the last frame it puts on the wire |
| VmOutcomes.AlwaysReported | cmd/harness-vm/main.go:558-605 | over any run a task that has looked and was not cancelled is an error exactly if its graph run came back with one and complete exactly if it came back well |
| VmOutcomes.TerminalSays | cmd/harness-vm/main.go:558-605 | the terminal frame on the wire is cancelled if cancelled in time, else error if the graph run failed, else complete |
| VmOutcomes.CancelledInTimeIff | cmd/harness-vm/main.go:444-453 | a task is cancelled in time if and only if a cancel was taken off the connection while the task was in the window and the scanner's next turn came before the task looked |
| VmOutcomes.CancelTakesEffect | cmd/harness-vm/main.go:444-453 | a cancel taken while a task is current cancels it at the scanner's next turn, whatever the tasks do in between |
| VmOutcomes.RunningPerChunk | cmd/harness-vm/main.go:498-557 | every chunk streamed is on the wire as one running frame of its task, and nothing else is |
| VmOutcomes.StartAfterTerminal | cmd/harness-vm/main.go:494-498 | once every task's terminal frame is on the wire the next well-formed start is accepted |
| VmOutcomes.StartWhileWorking | cmd/harness-vm/main.go:413-420 | while a graph run is under way a start gets a conflict and nothing else changes |
| VmConnection.EndNeverUnbindsNewer | cmd/harness-vm/approvalgate.go:83-97 | with distinct ids an old task's deferred `end` never unbinds a newer task |
| VmConnection.EndUnbindsNewerIff | cmd/harness-vm/approvalgate.go:83-97 | over any run the newest task, once spawned and until its own end, is bound if and only if no older task with the same id has ended since |
| VmConnection.ReusedIdLosesBinding | cmd/harness-vm/approvalgate.go:83-97 | a run that reuses an id and so loses the new task's binding |
| ApprovalBridge.ApprovalBridge.Correlate | cmd/harness-vm/approvals.go:173-182 | the bound task, if any, for an approval of that session |
| ApprovalBridge.ApprovalBridge.Record | cmd/harness-vm/approvals.go:191-224 | the pending entry written before the request frame is sent |
| ApprovalBridge.ApprovalBridge.TakePending | cmd/harness-vm/approvals.go:232-264 | looks the request up and deletes it in one critical section |
| ApprovalBridge.ApprovalBridge.Dispatch | cmd/harness-vm/approvals.go:191-224 | from end to end, when nothing intervenes: bridge, request and frame of the protocol's three dispatch steps |
| ApprovalBridge.ApprovalBridge.ResolvedEvent | cmd/harness-vm/approvals.go:232-264 | the same for a resolution and its three steps |
| ApprovalBridge.ApprovalBridge.BeginTask | cmd/harness-vm/approvalgate.go:83-97 | binds the task |
| ApprovalBridge.ApprovalBridge.EndTask | cmd/harness-vm/approvalgate.go:83-97 | unbinds it only if it is still the bound one |
| ApprovalBridge.ForwardedThenResolved | cmd/harness-vm/approvals.go:191-264 | if the dispatch finished before the resolution began, a forwarded approval gets its request frame and then exactly one resolved frame with the same task id, whatever is bound or unbound meanwhile |
| ApprovalBridge.PendingExact | cmd/harness-vm/approvals.go:191-264 | while no resolution overtakes the dispatch of a recorded approval, `pending` is exactly the recorded, unresolved approvals, each under its task; denials without any dispatch are allowed |
| ApprovalBridge.LeaksIffOvertaken | cmd/harness-vm/approvals.go:226-273 | a finished approval stays in the map if and only if it was forwarded and its resolution looked first |
| ApprovalBridge.LeakHappens | cmd/harness-vm/approvals.go:226-273 | such an interleaving exists, so the map does not drain in every one |
| ApprovalSessions.BindingIs | cmd/harness-vm/approvalgate.go:83-97 | over any run the bridge holds the task bound last, until that very task ends |
| ApprovalSessions.DispatchMatchesIff | cmd/harness-vm/approvals.go:173-224 | a dispatch is matched to a task if and only if that task is bound at that moment and the approval names no session or that one; otherwise it is dropped |
| ApprovalSessions.ResolutionMatchesIff | cmd/harness-vm/approvals.go:173-264 | the same for the resolution of an approval never recorded |
| ApprovalSessions.FramesKeepSessions | cmd/harness-vm/approvals.go:173-264 | in every interleaving an approval that names a session is never shown, nor its resolution told, under another task |
| ToolDispatch.ResultsBelong | core/agentgraph/exec_dispatch.go:475-544 | whatever the schedule, slot i keeps call i, and a finished slot holds what a step taken for call i delivered |
| ToolDispatch.EachCallOnce | core/agentgraph/exec_dispatch.go:138-430 | no call is lost or repeated: in any run the steps taken record each call once, enter its tool once if it passes and never if it does not, and answer it once, each by the time the call stands past that point |
| ToolDispatch.MutatingSerialised | core/agentgraph/exec_dispatch.go:286-305 | two mutating tools are never inside their calls at once |
| ToolDispatch.PoolBounded | core/agentgraph/exec_dispatch.go:431-473 | no more goroutines than the clamped limit are running |
| ToolDispatch.PoolFills | core/agentgraph/exec_dispatch.go:130-136 | the bound is exact: 4 calls if none is asked for, the number asked for up to 16, or all there are, can be under way at once |
| ToolDispatch.PoolNeverExceeds | core/agentgraph/exec_dispatch.go:130-136 | and in no run more |
| ToolDispatch.CountsAlways | core/agentgraph/doomloop.go:63-84 | while distinct keys fit, each key's stored count is its old one plus the calls that touched it, and those calls were told the counts in between, each once |
| ToolDispatch.Aggregate | core/agentgraph/exec_dispatch.go:545-573 | results, tool messages and hits are collected in call order |
| ToolDispatch.ScheduleIndependent | core/agentgraph/exec_dispatch.go:138-176 | any two complete schedules, with any pool sizes, raise the same multiset of (tool call, repeats) hits and the same `should_replan` while distinct keys fit the history |
| ToolDispatch.DriveToEnd | core/agentgraph/exec_dispatch.go:427-544 | from any state that is not deadlocked some schedule without panics finishes every call |
| ToolDispatch.FinishesIff | core/agentgraph/exec_dispatch.go:286-305 | from a given point the fan-out can be finished if and only if no panicked mutating call holds the lock while another mutating call still needs it |
| ToolDispatch.DeadlockIff | core/agentgraph/exec_dispatch.go:286-305 | some schedule of a batch deadlocks, whatever the pool size, if and only if two of its calls reach mutating tools |
| ToolDispatch.AlwaysFinishesIff | core/agentgraph/exec_dispatch.go:427-473 | every reachable state of a batch can still be brought to its end if and only if at most one of its calls reaches a mutating tool |
| ToolDispatch.StepsBounded | core/agentgraph/exec_dispatch.go:427-473 | no schedule goes on for ever: at most four steps a call are taken in any run |
| ToolDispatch.HaltedMeans | core/agentgraph/exec_dispatch.go:427-473 | a state in which no step can be taken has answered every call or is deadlocked |
| ToolDispatch.EveryScheduleFinishesIff | core/agentgraph/exec_dispatch.go:427-473 | siblings go on whatever the schedule, as documented: every schedule carried on until it cannot go on answers every call, if and only if at most one of the calls reaches a mutating tool |
| ToolDispatch.PanicDeadlocks | core/agentgraph/exec_dispatch.go:427-473 | two mutating calls, the first of which panics: no schedule finishes, although siblings are documented to go on |
| RoutingGate.GateAgenticTurnRouting | core/agentgraph/routing_gate.go:130-243 | the loops of the source compute the specified graph: untouched, stripped, or the embedded classic one; the input is a value and never changes |
| RoutingGate.GateCleans | core/agentgraph/routing_gate.go:130-243 | with the flag off no routed node and no edge touching one is left, except exactly when the shape drifted and the asset is missing |
| RoutingGate.GateIdempotent | core/agentgraph/routing_gate.go:130-243 | gating twice is gating once, for every graph |
| RoutingGate.StripWellFormedIff | core/agentgraph/routing_gate.go:171-241 | a well-formed routed graph is stripped to a well-formed one if and only if no other loop body and no entrypoint names a routed node |
| RoutingGate.ClassicWellFormed | core/agentgraph/graphs/chat_default_classic.yaml:126-233 | the embedded fallback is well formed |
| RoutingGate.GateWellFormedIff | core/agentgraph/routing_gate.go:130-243 | the same for the whole gate |
| RoutingGate.StripUndoesRewrite | core/agentgraph/routing_gate.go:171-241 | stripping any routed form of a classic graph restores it, node for node and, order aside, edge for edge |
| RoutingGate.StripReachability | core/agentgraph/routing_gate.go:208-241 | the strip creates no new reachability if and only if the loop already reached the writer |
| RoutingGate.StripAcyclicIff | core/agentgraph/routing_gate.go:208-241 | an acyclic graph stays acyclic if and only if its writer does not reach its loop without passing a routed node |
| RoutingGate.StripAcyclic | core/agentgraph/routing_gate.go:208-241 | in particular when the loop reached the writer |
| RoutingGate.GateCases | core/agentgraph/routing_gate.go:124-170 | with the flag on, or with nothing routed in it, a graph passes as authored; with it off the full shape is stripped, and anything in between gives way to the asset if there is one |
| RoutingGate.StripMeans | core/agentgraph/routing_gate.go:171-241 | the strip node by node, edge by edge: unrouted nodes in order, the loop with body, port and condition given back, edges with no routed end, and the classic edge |
| EventLogs.MemEventLog.Append | core/agentgraph/events.go:420-441 | the loop stores events up to the first one without a run id, numbered per run, and names it in the error |
| EventLogs.MemEventLog.Replay | core/agentgraph/events.go:443-453 | the callback gets the run's events in order up to the first it refuses |
| EventLogs.MemEventLog.Len | core/agentgraph/events.go:455-459 | how many events the run has |
| EventLogs.MemEventLog.PausedRunIDs | core/agentgraph/events.go:461-475 | exactly the runs whose last event is paused or abandoned |
| EventLogs.SqlEventLog.NextSeq | core/agentgraph/eventlog_sql.go:56-64 | the query for the run's largest number plus one gives the run's length plus one |
| EventLogs.SqlEventLog.Append | core/agentgraph/eventlog_sql.go:40-80 | the same stored history as the memory log's, row by row, also when a query or an insert fails; the caller's events carry the stored numbers and times |
| EventLogs.SqlEventLog.Replay | core/agentgraph/eventlog_sql.go:83-122 | rows of the run ordered by number are the run's events in append order |
| EventLogs.SqlEventLog.Len | core/agentgraph/eventlog_sql.go:125-132 | the row count is the number of the run's events |
| EventLogs.SqlEventLog.PausedRunIDs | core/agentgraph/eventlog_sql.go:141-161 | the query selects exactly the runs whose last event is paused or abandoned |
| EventLogs.GrownContiguous | core/agentgraph/events.go:373-379 | whatever is appended, every run's numbers are 1, 2, 3, and so on |
| EventLogs.GrownAppends | core/agentgraph/events.go:420-453 | a run's replay is what it had and then its own events of the batch in order, unchanged but for number and time |
| EventLogs.FailedAppendIsNoOpIff | core/agentgraph/events.go:373-441 | a failing Append to the memory log is all-or-nothing if and only if the batch's first event is the one without a run id, although it is documented as atomic |
| EventLogs.SqlFailedAppendIsNoOpIff | core/agentgraph/eventlog_sql.go:37-80 | a failing Append to the table, for a missing run id or a failing query or insert, is all-or-nothing if and only if it fails at the first event |
| EventLogs.LastIsHighestIff | core/agentgraph/events.go:376-379 | the number a complete Append returns is the highest assigned, as documented, if and only if no run of the batch ends up longer than the last event's run, counting what each had before and gets from the batch |
| EventLogs.LastIsHighest | core/agentgraph/events.go:376-379 | in particular for a batch of one run |
| EventLogs.LastNotHighest | core/agentgraph/events.go:376-379 | a batch over two runs that returns a lower number |
| EventLogs.SameHistories | core/agentgraph/eventlog_sql.go:40-80 | after any batches, good and bad, both logs hold the same events |
| EventLogs.LogsAgree | core/agentgraph/events.go:373-401 | so Replay, Len and the paused runs agree, up to a literal null payload |
| EventReadings.StoredEvent | core/agentgraph/events.go:420-441 | each event of a batch is stored in its place with its own fields, its own time or the one read for it, and its number |
| EventReadings.PausedMeans | core/agentgraph/events.go:461-475 | a run is paused if and only if its last event says paused or abandoned |
| EventReadings.ReplaysAgree | core/agentgraph/eventlog_sql.go:83-122 | event by event the table replays what the memory log holds; only a literal null payload comes back as none |
| EventReadings.RowsNeverEmpty | core/agentgraph/eventlog_sql.go:40-80 | no row has an empty payload column |
| BodyFires.AcceptedWellNested | core/agentgraph/exec_control.go:684-722 | whatever batch the automaton accepts is well nested: starts and closes pair up one to one, with the same node and iteration and without overlap; a body's own events and at most one retry mark lie inside each fire and none outside; iterations count up from 1 to the cap |
| BodyFires.StartsOrdered | core/agentgraph/exec_control.go:684-692 | and iteration numbers are 1-based and never decrease |
| LoopNode.Execute | core/agentgraph/exec_control.go:729-928 | the loop with its gate, condition, policies and early exits computes the specification `Execution`: batch, calls, stored outputs, result |
| LoopNode.LoopWellNested | core/agentgraph/exec_control.go:729-928 | whatever the body returns under any policy: the batch is well nested with iterations up to the cap, every executor call is in it, and there are at most cap times body length calls, twice that under retry-once |
| LoopNode.LoopThreads | core/agentgraph/exec_control.go:781-905 | each call is handed what the calls before it produced; a pause, a terminal error and any error the policy does not adapt or repeat end the run |
| LoopNode.PassInOrder | core/agentgraph/exec_control.go:815-905 | a pass starts the body in body order, all of it if it ends well, nothing after the node that ended it |
| LoopStops.LoopEnds | core/agentgraph/exec_control.go:729-928 | a loop ends well either at the cap or, before it, because its condition is false on the last payload, never right after an adapt; every other ending (cap, gate, condition, missing node or executor, failure under the policy, pause) names exactly its cause |
| LoopStops.LoopConditionHeld | core/agentgraph/exec_control.go:781-803 | every iteration after the first that does not follow an adapt begins with a payload on which the condition is true |
| LoopStops.LoopTells | core/agentgraph/exec_control.go:815-905 | every event of the batch is true of its call, a completed body's own events stand in order before its close, and the run state holds each node's last outputs that were not a pause's |
| LoopStops.LoopStartsInOrder | core/agentgraph/exec_control.go:815-905 | each iteration starts the body in order; up to the reported count all of it unless an adapt cut it short, and nothing beyond that count |
| LoopStops.TerminalIsHopeless | core/agentgraph/exec_control.go:948-975 | which errors no policy repeats or adapts: pause, budget, cancellation, deadline, invalid request, or a done context |
| LoopStops.SurfacedPorts | core/agentgraph/exec_control.go:906-928 | the payload under out, the count under iterations, every other payload port as it is |
| RetryNode.Execute | core/agentgraph/exec_control.go:1090-1235 | the attempt loop computes the specification `Execution`: batch, calls, waits, result |
| RetryNode.Backoff | core/agentgraph/exec_control.go:1201-1209 | the doubling loop computes min(base times 2^(attempt-1), cap), and base for the first attempt |
| RetryNode.RetryWellNested | core/agentgraph/exec_control.go:1090-1235 | whatever the body returns: the batch is well nested with attempts up to the cap, every executor call is in it, and there are at most cap times body length calls |
| RetryNode.WaitsFollowSchedule | core/agentgraph/exec_control.go:1200-1224 | one wait after every failed attempt but the last, each the backoff of its attempt |
| RetryNode.CeilingIff | core/agentgraph/exec_control.go:1201-1209 | a wait is within the ceiling if and only if it is not the first or the base is |
| RetryNode.DelaysGrow | core/agentgraph/exec_control.go:1201-1209 | with the base within the ceiling each wait is the double of the one before, capped |
| RetryNode.RetryThreads | core/agentgraph/exec_control.go:1114-1170 | a call gets the outputs of the last call that returned, of whatever attempt: the payload is not reset |
| RetryNode.NotReset | core/agentgraph/exec_control.go:1114-1170 | a concrete second attempt that starts from the first one's leftovers |
| RetryNode.RetryIgnoresPause | core/agentgraph/exec_control.go:1140-1171 | unlike in a Loop, whether bodies ask to pause changes nothing in a Retry's run |
| RetryStops.RetryEnds | core/agentgraph/exec_control.go:1090-1235 | a Retry ends well with the first attempt whose body runs through; budget caps and pauses end it at once, a cancelled wait ends it, and it gives up only after the last attempt |
| RetryStops.RetryMarked | core/agentgraph/exec_control.go:1116-1234 | the marks in the batch are those of the failed attempts in order and the last attempt's with its outcome, and every body start lies inside its own attempt |
| RetryStops.RetryTells | core/agentgraph/exec_control.go:1128-1171 | every event is true of its call and the run state holds each node's last returned outputs |
| RetryStops.RetryStartsInOrder | core/agentgraph/exec_control.go:1128-1171 | each attempt starts the body in order, the one that succeeds all of it, and there is no other start |
| RetryStops.WaitsInNumbers | core/agentgraph/exec_control.go:1099-1106 | with 50 and 5000 milliseconds as defaults the first wait is the base whatever the ceiling, and each later one doubles up to the ceiling |
| EdgeLiveness.GrownDrawable | core/agentgraph/edgecheck.go:50-61 | a graph drawn edge by edge keeps every per-edge rule and stays acyclic |
| EdgeLiveness.PortRules | core/agentgraph/edgecheck.go:71-98 | the port rules in the order reported: both nodes, the output, the input, and compatible kinds of the first ports of those names |
| EdgeLiveness.RoutingRule | core/agentgraph/edgecheck.go:104-175 | an edge off a verdict or choice port is refused if and only if the attributes send that verdict or choice elsewhere |
| EdgeLiveness.SuccessorIff | core/agentgraph/exec_control.go:93-163 | edges into a named successor are live exactly when it was selected, if and only if the successors differ or neither is named |
| EdgeLiveness.VerdictPortIff | core/agentgraph/edgecheck.go:132-150 | accepted verdict-port edges are live exactly when their port is the verdict, if and only if both successors are named and differ or neither is named |
| EdgeLiveness.RouterSuccessor | core/agentgraph/exec_router.go:282-343 | an edge into any choice's target is live exactly when it is the chosen one's |
| EdgeLiveness.RouterPort | core/agentgraph/edgecheck.go:155-175 | an accepted choice-port edge is live exactly when its choice shares the chosen target |
| EdgeLiveness.ChoicePortIff | core/agentgraph/exec_router.go:282-343 | only the chosen port's edges are live if and only if no other choice shares its target |
| EdgeLiveness.VerdictPromotes | core/agentgraph/exec_control.go:93-163 | every edge of a decision: live into the selected successor, dead into the other one even if they are the same, otherwise live unless it leaves the other verdict's port |
| EdgeLiveness.ChosenPromotes | core/agentgraph/exec_router.go:282-343 | every edge of a router: live into the chosen target, dead into another choice's, otherwise live unless it leaves another choice's port |
| EdgeLiveness.DanglingNoCycle | core/agentgraph/edgecheck.go:175-207 | an edge with an end that is not in the graph is never blamed for a cycle |
| EdgeLiveness.AuditEdgesLive | core/agentgraph/exec_router.go:272-281 | edges that are nobody's route are always live, and a node that recorded no verdict or choice promotes everything |
| EdgeLiveness.DrawnDecisionRoutes | core/agentgraph/exec_control.go:93-163 | in any drawn graph a decision with two successors promotes off its verdict ports exactly what its verdict selected |
| EdgeLiveness.DrawnRouterRoutes | core/agentgraph/exec_router.go:282-343 | in any drawn graph a router promotes exactly the edges into the chosen target among those into targets |
| Router.Execute | core/agentgraph/exec_router.go:108-213 | every path to a choice, in order, over the shared run state: new state, choice, ports and events |
| Router.Finish | core/agentgraph/exec_router.go:223-270 | the counter update, the ports and the audit event |
| Router.TrailingRunMeans | core/agentgraph/exec_router.go:223-236 | the trailing run is the longest stretch of equal choices at the end |
| Router.CounterIsTrailingRun | core/agentgraph/exec_router.go:223-236 | in any run of any routers and other nodes a router's stored counter is the length of the trailing run of equal choices |
| Router.ChoicesDeclared | core/agentgraph/exec_router.go:108-213 | every resolved choice is declared |
| Router.ThrashGuardIff | core/agentgraph/exec_router.go:186-210 | the guard replaces a stated choice if and only if resolving it would make its trailing run exceed the cap |
| Router.NoThrash | core/agentgraph/exec_router.go:186-210 | a fire not forced by the doom-loop guard never leaves a non-default run longer than the cap |
| Router.KernelReadsChoiceIff | core/agentgraph/exec_router.go:108-308 | the kernel promotes what the router resolved, in every fire, if and only if the menu has no choice named next and none with an empty name |
| Router.PortsReadIff | core/agentgraph/exec_router.go:238-308 | for one choice: the port the kernel reads holds it unless it is named next and the payload is not that very text |
| Router.NextIsMisread | core/agentgraph/exec_router.go:238-308 | a menu, payload and fire that resolve next while the kernel promotes the other choice |
| RouterAnswers.BadMenus | core/agentgraph/exec_router.go:114-124 | no menu, or a default that is not on it, routes nothing, and only these two are refused so |
| RouterAnswers.DoomLoopForces | core/agentgraph/exec_router.go:131-160 | a raised doom-loop flag overrides every opinion with the replan choice and records what it overrode |
| RouterAnswers.StandaloneAsks | core/agentgraph/exec_router.go:162-190 | in standalone mode the model alone decides |
| RouterAnswers.SourceNodeFirst | core/agentgraph/exec_router.go:162-190 | in any other mode a source node that states a choice wins, fallback or not |
| RouterAnswers.FallbackAsks | core/agentgraph/exec_router.go:162-190 | if it states none the model is asked with the fallback |
| RouterAnswers.NothingStated | core/agentgraph/exec_router.go:162-190 | and without it the default is taken, unless the menu lists the empty name |
| RouterAnswers.FirePorts | core/agentgraph/exec_router.go:238-255 | the payload on the choice's own port and on out, the choice on next, every other inbound port as it came |
| RouterAnswers.FireAudit | core/agentgraph/exec_router.go:223-269 | the last event records the choice, its source, how often it has now been resolved in a row, and its target |
| CompactionWatermark.MarginIsMax | core/agentgraph/compaction_watermark.go:115-136 | the margin is the maximum of the absolute term, at least 1, and the truncated relative term |
| CompactionWatermark.MarginInNumbers | core/agentgraph/compaction_watermark.go:96-136 | the margin is the least whole number, at least one, not below the absolute term, 8192 by default, nor below the truncated product of start and fraction, a half by default; a negative term does not count |
| CompactionWatermark.DefaultMargins | core/agentgraph/compaction_watermark.go:96-136 | with nothing configured a start of 4000 needs 8192 more and one of 100000 needs 50000 |
| CompactionWatermark.MarginGrows | core/agentgraph/compaction_watermark.go:115-136 | a bigger baseline never needs less growth |
| CompactionWatermark.ResolvedOnce | core/agentgraph/compaction_watermark.go:96-111 | resolving is idempotent, so a disabled term stays disabled |
| CompactionWatermark.Watermark.Admit | core/agentgraph/compaction_watermark.go:206-223 | latches on first sight, else compares with the threshold and records a crossing |
| CompactionWatermark.Watermark.Rearm | core/agentgraph/compaction_watermark.go:259-268 | back to the armed state |
| CompactionWatermark.AdmitAutomaticCompaction | core/agentgraph/compaction_watermark.go:279-284 | no compactor admits nothing, no watermark gates nothing |
| CompactionWatermark.AutomaticCompactionCrossed | core/agentgraph/compaction_watermark.go:289-294 | the same for the sticky verdict |
| CompactionWatermark.AdmittedIff | core/agentgraph/compaction_watermark.go:194-223 | a call is admitted if and only if it is not the first since arming and exceeds that first one by more than the margin |
| CompactionWatermark.CrossedIff | core/agentgraph/compaction_watermark.go:225-250 | crossed holds if and only if some call since the last Rearm was admitted |
| CompactionWatermark.CompactionsCost | core/agentgraph/compaction_watermark.go:206-268 | k compactions take at least 2k observations and an upward movement of k times (least margin + 1), so at least 2k tokens |

## Left out

- The kernel's scheduling, skip propagation and rewinds, the graph validator and the approval registry: their effect enters only as parameters (an abstract cycle pass, arbitrary outcomes, an arbitrary order of dispatch and resolution).
- Model calls, tool calls, hooks, memory, files, sockets, the SQL driver, logging and clocks: replaced by arbitrary outcomes.
- `fmt.Sprintf`, `strconv.ParseFloat`, JSON decoding and hashing: uninterpreted functions; hashed keys are taken as the value hashed.
- Floats: reals with NaN and the infinities; rounding is not modelled, and the watermark's fraction is a plain real.
- Integer widths: counters, sequence numbers, token counts and durations are unbounded; a backoff or a counter that overflows 64 bits is outside the model.
- Text is a sequence of characters; the tokenizer's and the JSON scan's bytes are those characters.
- Parallel, join, branch, merge and approval executors, chips, tiers, capability negotiation and attribute checks: easy members only.
- The router's reading of a choice out of assistant text: any answer is allowed, and what follows from it is proved; only the JSON span search inside it is modelled.
- EventLogs.MemEventLog.PausedRunIDs: gives a set, the order of the ids is not modelled.
- EventLogs.SqlEventLog.PausedRunIDs: gives a set, the order of the ids is not modelled.
- EventLogs.LogsAgree: compares payloads as read back, since the table stores no payload as a literal null.
- LoopNode.Execute: the run state's outputs are a value passed in and returned, and bodies that read or write it otherwise are part of what the executor calls may do.
- RetryNode.Execute: the same, and the wait between attempts is only recorded, not timed.
- Router.Execute: the source node's answer and the model's answer are parameters.
- HeuristicAdvisor.Advisor.RecommendFor: sequential runs with deterministic heuristics; two requests racing for one key are not modelled.
- ToolDispatch.ScheduleIndependent: assumes, as the guard's own bound does, that the distinct keys fit the history; with more keys evictions can depend on the order of touches, and nothing is claimed.
- LadderProtocol.RungsNeverFall: assumes the kernel never fires one node twice at once; the slot properties do not.
- LadderProtocol.RunBounded: the same assumption.
- EscalationLadder.Execute: panics are modelled in its two model calls; one in the ask surface leaves the state as a failing ask does.
- VmConnection.TaskEnds: that a graph run returns is a step of the path shown; one that never returns is outside the model.
