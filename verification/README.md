# Verified core of the agent-ghost platform

A Dafny model of the parts of the platform whose correctness is hardest to see: the agent turn
loop, the autonomy dispatcher, the convergence monitor's ingest, the backup archive codec, the
audit query compiler and two smaller cores. `dafny verify dfyconfig.toml` checks all of it.

**Agent turn** (`TurnTrace`, `TurnSteps`, `TurnLoop`, `StreamAssembly`, `Previews`, `CircuitBreakers`,
`DamageCounters`). Every observable step of `run_turn` and `run_turn_streaming` appends an event to a
history. `TurnTrace.Lawful` and `WithinBounds` are predicates of the event list alone, written without
reference to the loop: the turn keeps to the protocol of asking, answering, planning and attempting,
every request is the initial conversation followed by complete request/answer blocks, a failed call is
never run again and suppressed at most once, the journal is settled whenever the model is asked, and
the numbers of calls, failures, spend and damage are bounded. Both loops terminate and end in
`TurnLoop.Concluded`. The run context and the loop's local variables are one record, `Turn`, that the
steps change. The model and the tools give arbitrary answers; what the gates see of clock and kill
switches, what the inspector and the plan validator say about each answer, and what each look at the
cancel token and the event channel finds, are parameters.

**Dispatcher** (`Dispatcher`, `QuietHours`, `Utf8`). One scheduler and N workers as a machine of atomic
steps; the slot counter and the per-agent map disagree between steps, and the invariants hold in
every state of every interleaving.

**Ingest** (`Blake3`, `HashChain`, `Ingest`, `RateLimiter`). Hash chains over an uninterpreted
incremental hash, a log that other writers share, with rollback on failed writes, calibration counts,
and the token bucket in exact integers.

**Backup** (`Texts`, `Seqs`, `Decimals`, `ArchiveFormat`, `ArchiveReader`, `ArchiveRestore`). Encoder, a
whole-input decoder as reference, the chunked streaming reader proved against it, and restore as all
or nothing.

**Audit** (`Like`, `FilterValues`, `AuditQuery`, `Csv`). A filter is compiled to conditions with
numbered placeholders; three-valued SQL and LIKE semantics say what they mean.

**Buffers and timelines** (`ItpBuffer`, `Sorting`, `TextOrder`, `Timeline`).

Some promises turned out not to hold for all inputs. Each is stated with the exact condition under
which it holds, and with an input that separates the two:

- the token bucket hands out more than its rate when it is polled between refills
  (`RateLimiter.CreditStep`, `RateLimiter.PollingBeatsTheLimit`), its 32-bit sum wraps above 2^31 tokens
  (`RateLimiter.SumsFitExactlyUpTo`, `RateLimiter.WrapsFromTheFirstContact`), and pruning an idle bucket
  can show at the call after the next (`RateLimiter.PruningLeavesNoTrace`, `RateLimiter.PruningShowsLater`);
- a session's stored chain does not continue across a restart of the monitor
  (`Ingest.RestartBreaksChain`, `Ingest.RestartExample`), nor behind a row of the gateway, which writes the
  same table (`Ingest.ConvergenceMonitor.SessionLog`, `Ingest.GatewayExample`);
- calls of different tools are taken for one another if a tool name holds a colon
  (`TurnTrace.GuardedRepeats`, `TurnTrace.CollidingCalls`);
- the streaming loop has sent the whole text of an answer before the inspector kills it
  (`TurnLoop.KilledTextWasSent`);
- a streaming turn panics on a tool's answer that cannot be cut at 200 bytes
  (`TurnLoop.AgentRunner.RunTurnStreaming`, `Previews.WideCharacterAtTheLimit`), and so does reading a
  time zone of six bytes cut inside a character (`QuietHours.ZonePanicsExactly`,
  `QuietHours.PanickingZones`);
- two archive paths can name one file (`ArchiveRestore.KeepsAllPayloads`,
  `ArchiveRestore.TwoPathsOneFile`); an archive that verification accepts is never restored if it names a
  file below a file, a name with NUL or a broken database (`ArchiveRestore.Importer.Import`,
  `ArchiveRestore.FileUnderAFile`, `ArchiveRestore.FileOverADirectory`, `ArchiveRestore.NulInAName`,
  `ArchiveRestore.DatabasesMustBeSound`, `ArchiveRestore.BrokenDatabase`); and an
  exported manifest can be too long to import (`ArchiveFormat.ExportAccepted`,
  `ArchiveRestore.TooManyFiles`);
- an explicit session named like a generated one disappears from a timeline
  (`Timeline.ConservedExactlyWithoutClash`, `Timeline.ClashLosesASession`), and a page number whose
  offset exceeds 32 bits answers with the wrong page
  (`AuditQuery.RightPageExactlyWithoutWrap`, `AuditQuery.WrappedPageIsNotEmpty`).

## Model

| member | source | states |
|---|---|---|
| `TurnTrace.GuardedIsLawful` | crates/ghost-agent-loop/src/runner.rs:1264-1775 | whatever sequence of steps passes the per-step guards, from a journal that is settled, satisfies all promises about the whole turn: shaped requests, no retried failure, one suppression per signature, settled journal, exactly-once tools, limits |
| `TurnTrace.GuardedIsBounded` | crates/ghost-agent-loop/src/runner.rs:391-422 | at every point: model calls bounded by the recursion limit, attempts by the tool limit, at most three failures in a row, spend above the cap by at most the last completion, damage above its threshold by at most the successes of the last round |
| `TurnTrace.GuardedRequests` | crates/ghost-agent-loop/src/runner.rs:1417-1553 | each request is the initial conversation plus complete blocks, one answer per call with the same ids in the same order; the journal shown is the one found, then the steps so far, and every started step has its verdict |
| `TurnTrace.GuardedSignatures` | crates/ghost-agent-loop/src/runner.rs:424-467 | a failed signature is never started again, is suppressed at most once and only after a failure, and the turn gives up only on one that was suppressed |
| `TurnTrace.GuardedRepeats` | crates/ghost-agent-loop/src/runner.rs:424-467 | in terms of tool names and arguments: a call that failed before is always suppressed or given up on when it comes again, and, if no tool name holds a colon, only such calls are, the first repetition suppressed and the next one given up on |
| `TurnTrace.SignaturesTellApart` | crates/ghost-agent-loop/src/runner.rs:424-427 | calls whose tool names hold no colon share a signature exactly when tool and arguments are the same |
| `TurnTrace.ColonsCollide` | crates/ghost-agent-loop/src/runner.rs:424-427 | tool a with :x and tool a: with x are different calls of one signature |
| `TurnTrace.CollidingCalls` | crates/ghost-agent-loop/src/runner.rs:424-467 | once the one has failed, the other is never run |
| `TurnTrace.GuardedVerdicts` | crates/ghost-agent-loop/src/runner.rs:1320-1358 | the verdict on every text is the inspector's, and a plan is refused exactly when the validator denies it, for its reason |
| `TurnTrace.DamageMeaning` | crates/ghost-agent-loop/src/runner.rs:1518-1520 | the damage of a turn is the number of write_file and shell calls that succeeded in it |
| `TurnTrace.GuardedAborts` | crates/ghost-agent-loop/src/runner.rs:445-467 | giving up, rejecting and interrupting are last events |
| `TurnTrace.TriesMeaning` | crates/ghost-agent-loop/src/runner.rs:429-467 | the failed-call map holds exactly the signatures that failed in the event list, marked 2 exactly when suppressed since |
| `TurnTrace.TranscriptShape` | crates/ghost-agent-loop/src/runner.rs:1417-1553 | between two requests the transcript is complete blocks and at most one block of which exactly the awaited calls are unanswered |
| `TurnTrace.BlocksAppend` | crates/ghost-agent-loop/src/runner.rs:1417-1553 | a request followed by all its answers extends a well-formed transcript |
| `TurnTrace.JournalBounds` | crates/ghost-agent-loop/src/runner.rs:702-747 | step numbers increase strictly and lie between the first and the latest attempt of the turn |
| `TurnTrace.JournalIsSettled` | crates/ghost-agent-loop/src/runner.rs:749-788 | without an interruption no step is left in state started |
| `TurnTrace.SettledAfter` | crates/ghost-agent-loop/src/runner.rs:702-788 | settled steps with larger numbers behind a settled journal leave it settled |
| `TurnTrace.JournalStep` | crates/cortex/cortex-storage/src/queries/execution_step_queries.rs:34-88 | opening and closing the newest step changes no other row, although insertion ignores conflicts and the update looks for started rows |
| `TurnTrace.RowsAreKept` | crates/cortex/cortex-storage/src/queries/execution_step_queries.rs:34-88 | a step number that is taken keeps its row, and closing a step changes a row only if it has that number and is still started |
| `TurnTrace.HistoryIsGuarded` | crates/ghost-agent-loop/src/runner.rs:1264-1775 | the history the loop keeps is the event list, with the same account |
| `TurnTrace.StreakIsTrailing` | crates/ghost-agent-loop/src/runner.rs:391-407 | the failure counter is the number of failure events since the last success in the event list, or since the beginning |
| `TurnTrace.AnswersAreActedOn` | crates/ghost-agent-loop/src/runner.rs:1317-1773 | every answer follows a request; one that requests tools and passed the inspector is followed by a plan with exactly its text and its calls unless the turn ends there, and any other answer is the last event |
| `TurnTrace.PlansAreRequested` | crates/ghost-agent-loop/src/runner.rs:1417-1453 | nothing is planned that the model did not request just before |
| `TurnTrace.CallsAreAttemptedInOrder` | crates/ghost-agent-loop/src/runner.rs:1456-1552 | in a plan that is not refused the k-th event after it is the one attempt at the k-th call, and the model is asked again only after the last |
| `TurnTrace.RefusalsAnswerPlans` | crates/ghost-agent-loop/src/runner.rs:1418-1445 | a refusal is of a whole plan of two or more calls, at once, and leads back to the model |
| `TurnTrace.AbortsAreLast` | crates/ghost-agent-loop/src/runner.rs:445-467 | giving up, rejecting and interrupting are last events of every turn that keeps to the protocol |
| `TurnTrace.GuardedOnCourse` | crates/ghost-agent-loop/src/runner.rs:1264-1775 | steps that pass their guards keep to the protocol of asking, answering, planning and attempting |
| `TurnTrace.GuardedLimits` | crates/ghost-agent-loop/src/runner.rs:485-537 | the model is asked only within depth, spend and damage limits and with all kill switches off; on a repeated attempt only the six tools that may run again are started and only others rejected; fewer than three failures in a row precede every event |
| `TurnTrace.GuardedShown` | crates/ghost-agent-loop/src/runner.rs:2315-2319 | an answer that cannot be shown on the stream is the last event |
| `TurnTrace.LastStage` | crates/ghost-agent-loop/src/runner.rs:1264-1775 | the protocol is finished exactly when the last event is an answer without tool requests that passed the inspector, and condemned exactly when it is one that did not pass |
| `TurnSteps.RunCall` | crates/ghost-agent-loop/src/runner.rs:1456-1549 | one call adds one allowed event about that call, and an answer to it if the turn goes on; a token that has fired ends the turn before the attempt; an error has its reason in the account, and spend, depth and output are left alone |
| `TurnSteps.AttemptCall` | crates/ghost-agent-loop/src/runner.rs:1466-1549 | a counted attempt is given up, suppressed, rejected or run, as the failed calls and the tool class decide |
| `TurnSteps.OpenStep` | crates/ghost-agent-loop/src/runner.rs:1485-1490 | a call is rejected with a failed journal row, or its step is open under the current attempt number |
| `TurnSteps.ExecuteCall` | crates/ghost-agent-loop/src/runner.rs:1492-1548 | every way out closes the step, or leaves it started and ends the turn with a cancellation; a channel found closed before the tool ends it without running the tool |
| `TurnSteps.LeftOpen` | crates/ghost-agent-loop/src/runner.rs:1492-1548 | a call that is cut short leaves its step in the journal as started, and every counter at the value of the account |
| `TurnSteps.StepBooked` | crates/ghost-agent-loop/src/runner.rs:702-788 | opening and closing a step behind the journal found gives the journal of the account |
| `TurnSteps.SettleSuccess` | crates/ghost-agent-loop/src/runner.rs:2284-2337 | the answer, the committed row, the counters and the damage report the same success; clearing the failed call removes nothing; the turn goes on unless the answer cannot be shown or the channel is found closed |
| `TurnSteps.SettleFailure` | crates/ghost-agent-loop/src/runner.rs:2302-2344 | the failed row, the map and the streak report the failure; the third in a row ends the turn |
| `TurnSteps.SuppressCall` | crates/ghost-agent-loop/src/runner.rs:2155-2199 | a suppressed call is answered, counted as a failure and not run |
| `TurnSteps.ShowAnswer` | crates/ghost-agent-loop/src/runner.rs:2315-2330 | showing an answer panics exactly when a stream is there and the text cannot be cut |
| `TurnSteps.NoteConsecutiveToolFailure` | crates/ghost-agent-loop/src/runner.rs:391-403 | the third consecutive failure, and no earlier one, is an error |
| `TurnSteps.NoteToolCallAttempt` | crates/ghost-agent-loop/src/runner.rs:409-422 | refused exactly at the limit and then not counted |
| `TurnSteps.MaybeSuppressDuplicate` | crates/ghost-agent-loop/src/runner.rs:445-467 | unknown signatures pass untouched, the second attempt is suppressed, later ones abort; which calls share a signature is said by `TurnTrace.SignaturesTellApart` |
| `TurnSteps.RejectUnsupportedExactOnceTool` | crates/ghost-agent-loop/src/runner.rs:679-700 | rejected exactly on a repeated attempt with an unsupported tool, adding one failed row and touching no other |
| `TurnLoop.AgentRunner.RunTurn` | crates/ghost-agent-loop/src/runner.rs:1197-1776 | terminates for all answers of model and tools; the trace is lawful and within bounds, and a failed call is never run again with the same tool and arguments; depth, attempts, tokens, cost, journal and the tools of a repeated attempt are stated in the runner's own settings; success without qualification means exactly that the last event is an answer without tool requests that passed the inspector, and its output is the latest text kept; the kill-all error means exactly that the inspector condemned the last answer; every error fits the stage it ended at, says rightly whether there was output, and names a limit, a gate or a look at the cancel token that was really there; a token that has fired before the turn ends it before anything is asked; the breaker allowed the first call and hears of every call once unless it was cancelled; nothing is streamed |
| `TurnLoop.AgentRunner.RunTurnStreaming` | crates/ghost-agent-loop/src/runner.rs:1784-2352 | the same for the streaming loop, whose output is all texts kept and whose cancellations come from a look at the token or the channel that found it fired or closed, a channel closed beforehand ending the turn before anything is asked; it panics exactly when its last event is the answer to a call whose text has more than 200 bytes and no prefix of exactly 200; the stream has carried the whole text of every answer, and after a kill-all verdict it ends with the text of the answer that was killed |
| `TurnLoop.KilledTextWasSent` | crates/ghost-agent-loop/src/runner.rs:1928-2031 | if the inspector kills an answer, that answer is the last event and what was sent ends with its whole text |
| `TurnLoop.AgentRunner.RunLoop` | crates/ghost-agent-loop/src/runner.rs:1264-1775 | the conclusions of both loops, from one invariant at the head of the loop |
| `TurnLoop.AgentRunner.Loop` | crates/ghost-agent-loop/src/runner.rs:1264-1775 | from the head of the loop passes come to an end; every step obeyed its guard, the account is exact and the breaker has heard of every call |
| `TurnLoop.AgentRunner.InWords` | crates/ghost-agent-loop/src/runner.rs:485-537 | the promises about a turn, in terms of the runner's settings and the context it was given |
| `TurnLoop.LastWord` | crates/ghost-agent-loop/src/runner.rs:1317-1773 | the last event decides between success, the kill-all error and a panic |
| `TurnLoop.ConversationBegins` | crates/ghost-agent-loop/src/runner.rs:1200-1262 | the conversation is the system text, if there is one, the history and the user's text |
| `TurnLoop.AgentRunner.TurnOnce` | crates/ghost-agent-loop/src/runner.rs:1264-1775 | a pass ends the turn with an account of it or comes round one level deeper; the model is asked only if the breaker allows it and the token has not fired |
| `TurnLoop.AgentRunner.AskModel` | crates/ghost-agent-loop/src/runner.rs:1281-1315 | once the gates are passed the model is asked exactly once, and the loop comes round at most to the depth limit |
| `TurnLoop.HaltedEnds` | crates/ghost-agent-loop/src/runner.rs:1268-1279 | a turn stopped before the model is asked is halted with its output exactly when a gate stopped it and there is some, and is an error otherwise |
| `TurnLoop.Conclude` | crates/ghost-agent-loop/src/runner.rs:1264-1775 | guards obeyed at every step give the promises about the whole turn and tie its result to its last event |
| `TurnLoop.CallModel` | crates/ghost-agent-loop/src/runner.rs:1281-1315 | with an answer its tokens are booked once and its cost, the prices being per thousand tokens, is added once, the breaker hears of it once and the history goes on from it; without one nothing is billed and the breaker hears of a failure once, unless the call was cancelled |
| `TurnLoop.StreamModel` | crates/ghost-agent-loop/src/runner.rs:1894-1998 | the same for a streamed answer, which adds nothing to the spend and whose text has been forwarded when it is acted on |
| `TurnLoop.TakeAnswer` | crates/ghost-agent-loop/src/runner.rs:1306-1318 | the loop comes round only for an answer that requests tools |
| `TurnLoop.BookAnswer` | crates/ghost-agent-loop/src/runner.rs:1306-1361 | tokens and cost are booked, the text is inspected, and what is left of it is kept; a condemned answer ends the turn, any other is held to be acted on |
| `TurnLoop.PriceCall` | crates/ghost-agent-loop/src/runner.rs:1306-1312 | a thousand times the cost is tokens times price, for both kinds of tokens |
| `TurnLoop.ActOn` | crates/ghost-agent-loop/src/runner.rs:1317-1773 | an answer without tool requests ends the turn with the output that was kept; one with requests is planned, and any error then has its reason in the account |
| `TurnLoop.RunToolRound` | crates/ghost-agent-loop/src/runner.rs:1417-1553 | the history goes on from a plan with exactly the text and calls of the answer; without an error all calls are answered and the depth grows by one |
| `TurnLoop.CarryOut` | crates/ghost-agent-loop/src/runner.rs:1418-1549 | a plan is answered at once exactly when it is denied, and call by call otherwise; without an error no call is left |
| `TurnLoop.RunCalls` | crates/ghost-agent-loop/src/runner.rs:1456-1549 | without an error there is one attempt per call and no call is left |
| `TurnLoop.NextCall` | crates/ghost-agent-loop/src/runner.rs:1456-1549 | the next attempt is at the first call left |
| `TurnLoop.DenyPlan` | crates/ghost-agent-loop/src/runner.rs:1418-1445 | a denied plan is answered completely and is one failure event |
| `TurnLoop.DeniedAnswers` | crates/ghost-agent-loop/src/runner.rs:1431-1438 | one error per denied call, same ids, same order |
| `TurnLoop.InspectText` | crates/ghost-agent-loop/src/runner.rs:1326-1361 | only text is inspected, a kill-all verdict, and nothing else, throws the kill switch, and otherwise the text or what the inspector left of it is kept |
| `TurnLoop.ReceiveSegment` | crates/ghost-agent-loop/src/runner.rs:1910-1986 | the text and the calls, each draft once, are those of the pieces before the first end or error item, which decides the outcome; unless the segment is stopped, all its text has been forwarded, and a failure says rightly whether anything was sent |
| `TurnLoop.TakePiece` | crates/ghost-agent-loop/src/runner.rs:1928-1955 | a piece is added to text or drafts and sent on, and a closed channel stops the segment unless the piece is a fragment of arguments |
| `TurnLoop.SegmentMeaning` | crates/ghost-agent-loop/src/runner.rs:2000-2012 | the answer that a segment amounts to has exactly its text and its calls, and the shape that goes with them |
| `TurnLoop.AwaitItem` | crates/ghost-agent-loop/src/runner.rs:1911-1922 | waiting is stopped only by a look that finds the channel closed or the token fired |
| `TurnLoop.PassGates` | crates/ghost-agent-loop/src/runner.rs:1265-1279 | passing means the guard of asking holds, the breaker allows the call and token and channel were found unfired and open; stopping gives a cancellation that a look really found or an error of a gate that was closed |
| `TurnLoop.CheckGates` | crates/ghost-agent-loop/src/runner.rs:485-537 | no error exactly when all six gates are open; otherwise the error is that of the first closed gate, every gate before it is open, and the log of checks ends with it |
| `TurnLoop.CheckKillState` | crates/ghost-agent-loop/src/runner.rs:1125-1140 | clear exactly when the flag is off and the kill authority says so; each error names what was seen |
| `TurnLoop.NoteModelFailure` | crates/ghost-agent-loop/src/runner.rs:1281-1304 | the breaker hears of this failure and nothing else |
| `TurnLoop.TellOn` | crates/ghost-agent-loop/src/runner.rs:1264-1315 | passes add up: all calls of the model but the last completed and were told to the breaker, and the last told its outcome |
| `Previews.Preview` | crates/ghost-agent-loop/src/runner.rs:2315-2319 | a text can be shown exactly when it has at most 200 bytes or a prefix of exactly 200, and then that much of it is shown |
| `Previews.WideCharacterAtTheLimit` | crates/ghost-agent-loop/src/runner.rs:2315-2319 | 199 ASCII characters, any wider one and anything after make the preview panic |
| `Previews.WideCharacterInAnError` | crates/ghost-agent-loop/src/runner.rs:2302-2319 | in an error message 192 characters are enough, for it is shown behind seven more |
| `Previews.AsciiIsShown` | crates/ghost-agent-loop/src/runner.rs:2315-2319 | ASCII text is always shown |
| `Utf8.BoundaryMeaning` | crates/ghost-agent-loop/src/runner.rs:2315-2319 | the byte offsets a text may be cut at are the sizes of its prefixes |
| `Utf8.EncodeReadsBack` | crates/ghost-agent-loop/src/runner.rs:2315-2319 | a character is computed back from its bytes, which are as few as possible |
| `StreamAssembly.DraftMeaning` | crates/ghost-agent-loop/src/runner.rs:1935-1955 | a call's arguments are the fragments after its latest start, in order |
| `StreamAssembly.NoStartNoDraft` | crates/ghost-agent-loop/src/runner.rs:1948-1955 | fragments without a start make no call |
| `StreamAssembly.Gather` | crates/ghost-agent-loop/src/runner.rs:1928-1955 | the drafts after each piece are those of all pieces so far |
| `StreamAssembly.Assemble` | crates/ghost-agent-loop/src/runner.rs:1977-1986 | one call per draft, and every draft becomes a call |
| `CircuitBreakers.CircuitBreaker.AllowsCall` | crates/ghost-agent-loop/src/circuit_breaker.rs:135-163 | the lazy three-state machine allows a call exactly when the tripping failures since the last success are below the threshold or the cooldown has passed since the latest |
| `CircuitBreakers.CircuitBreaker.State` | crates/ghost-agent-loop/src/circuit_breaker.rs:135-146 | the reported state agrees with the call log |
| `CircuitBreakers.CircuitBreaker.RecordSuccess` | crates/ghost-agent-loop/src/circuit_breaker.rs:165-170 | afterwards every call is allowed at any time until a failure |
| `CircuitBreakers.CircuitBreaker.RecordClassifiedFailure` | crates/ghost-agent-loop/src/circuit_breaker.rs:181-210 | the machine keeps agreeing with the log for every kind of failure |
| `CircuitBreakers.WhichFailuresCount` | crates/ghost-agent-loop/src/circuit_breaker.rs:26-53 | transient and fatal errors count and set the time of the latest failure; rate limits, bad keys and refusals do neither |
| `CircuitBreakers.FailureRunBlocks` | crates/ghost-agent-loop/src/circuit_breaker.rs:135-210 | after enough tripping failures, whatever the past, calls are blocked until the cooldown of the latest is over |
| `CircuitBreakers.NoTripping` | crates/ghost-agent-loop/src/circuit_breaker.rs:49-53 | a log without tripping failures counts nothing |
| `CircuitBreakers.QuietFailures` | crates/ghost-agent-loop/src/circuit_breaker.rs:49-53 | failures that do not trip change neither the count nor the latest failure |
| `DamageCounters.DamageCounter.Reset` | crates/ghost-agent-loop/src/damage_counter.rs:50-57 | afterwards the run is halted only for a zero threshold |
| `Dispatcher.RunsAreSafe` | crates/ghost-gateway/src/autonomy.rs:692-795 | in every state of every interleaving: the counter is between 0 and the global limit, no agent holds more than its limit, the channel has room when sending, and at rest the counter is 0, the map empty and every sent item finished once |
| `Dispatcher.StepInv` | crates/ghost-gateway/src/autonomy.rs:1481-1507 | each atomic step of scheduler and workers keeps counter, map and item accounting exact |
| `Dispatcher.RunInv` | crates/ghost-gateway/src/autonomy.rs:692-795 | the invariant holds along every run from the start |
| `Dispatcher.StepCounter` | crates/ghost-gateway/src/autonomy.rs:1481-1507 | the counter equals queued plus running plus the scheduler's own slot |
| `Dispatcher.WorkerStepMap` | crates/ghost-gateway/src/autonomy.rs:772-795 | an agent's entry equals the slots it holds, also between a worker's two release steps |
| `Dispatcher.SchedulerStepMap` | crates/ghost-gateway/src/autonomy.rs:735-757 | the same between the scheduler's reserve and release steps |
| `Dispatcher.WorkerStepItems` | crates/ghost-gateway/src/autonomy.rs:772-795 | no item is lost or run twice by a worker step |
| `Dispatcher.SchedulerStepItems` | crates/ghost-gateway/src/autonomy.rs:735-757 | no item is lost or duplicated by a scheduler step |
| `Dispatcher.InitInv` | crates/ghost-gateway/src/autonomy.rs:427-456 | the started service satisfies the invariant |
| `Dispatcher.InvSafe` | crates/ghost-gateway/src/autonomy.rs:1481-1507 | exact accounting implies the limits and no underflow |
| `Dispatcher.RestIsClean` | crates/ghost-gateway/src/autonomy.rs:1496-1507 | at rest nothing is left in counter or map |
| `Dispatcher.SendFailsOnlyWhenClosed` | crates/ghost-gateway/src/autonomy.rs:742-748 | sending fails exactly when the receiving side is gone, never for lack of room |
| `Dispatcher.NeverStuck` | crates/ghost-gateway/src/autonomy.rs:772-795 | every reachable state with work in it has an enabled finishing step |
| `Dispatcher.DrainProgress` | crates/ghost-gateway/src/autonomy.rs:772-795 | every finishing step reduces the work left |
| `Dispatcher.Drain` | crates/ghost-gateway/src/autonomy.rs:772-795 | from every reachable state finishing steps lead to rest with all slots given back |
| `Dispatcher.DrainBound` | crates/ghost-gateway/src/autonomy.rs:772-795 | no choice of finishing steps takes longer than the work there was |
| `Dispatcher.SlotTable.ReserveSlot` | crates/ghost-gateway/src/autonomy.rs:1481-1494 | succeeds exactly below both limits, and is a path of the machine's atomic steps |
| `Dispatcher.SlotTable.ReleaseSlot` | crates/ghost-gateway/src/autonomy.rs:1496-1507 | is a path of the machine's atomic steps |
| `Dispatcher.ReleaseUndoesReserve` | crates/ghost-gateway/src/autonomy.rs:1481-1507 | reserving and releasing leaves the map as it was |
| `Dispatcher.FailedPreparationLeavesNoTrace` | crates/ghost-gateway/src/autonomy.rs:735-757 | reserving a slot for a job that cannot be prepared ends in exactly the state it began in |
| `Dispatcher.PreparedJobIsSent` | crates/ghost-gateway/src/autonomy.rs:735-748 | from every reachable state with an idle scheduler, an open channel and room below both limits, a job that can be prepared is put behind the queue and holds one slot |
| `Dispatcher.QueuedItemIsFinished` | crates/ghost-gateway/src/autonomy.rs:772-786 | a waiting worker takes the first queued item, and only it, to its end, and one slot of its agent is free again |
| `Dispatcher.JobRunsToItsEnd` | crates/ghost-gateway/src/autonomy.rs:735-786 | together they leave nothing of a job but its history |
| `Dispatcher.ClosedChannelLeavesNoTrace` | crates/ghost-gateway/src/autonomy.rs:741-745 | if the receiving side is gone, the slot is given back and the state is as before |
| `Dispatcher.BlockedJobLeavesNoTrace` | crates/ghost-gateway/src/autonomy.rs:735-739 | a job above one of the limits changes nothing |
| `Dispatcher.FirstComeFirstServed` | crates/ghost-gateway/src/autonomy.rs:741-786 | in every run the items are taken from the channel in the order in which they were sent |
| `Dispatcher.ShutdownCompletes` | crates/ghost-gateway/src/autonomy.rs:704-711 | from every reachable state the kill flag leads to the end of the service: what was sent is finished, every slot is given back and every worker stops |
| `Dispatcher.KilledSendsNothing` | crates/ghost-gateway/src/autonomy.rs:704-711 | a scheduler that has left its loop sends nothing more, whatever the others do |
| `Dispatcher.ServiceStarts` | crates/ghost-gateway/src/autonomy.rs:427-456 | the service starts at rest, with as many waiting workers as the global limit |
| `QuietHours.ReleaseIsFirstInstantOutside` | crates/ghost-gateway/src/autonomy.rs:1950-1976 | there is no answer exactly when reading the zone panics, and no wait exactly when the zone cannot be read, now is outside or the end hour does not exist; otherwise the release is in the future, every instant before it is inside, and it is outside itself exactly when the window is not the whole day |
| `QuietHours.InsideUntil` | crates/ghost-gateway/src/autonomy.rs:1955-1973 | every instant between now and the release is in the window, across midnight too |
| `QuietHours.WindowOnTheDial` | crates/ghost-gateway/src/autonomy.rs:1955-1962 | on the dial of 24 hours the window begins with its first hour and ends before its last; if the two are the same it is the whole day |
| `QuietHours.LocalHour` | crates/ghost-gateway/src/autonomy.rs:1953-1955 | the hour of an instant, in nanoseconds and with an offset in seconds |
| `QuietHours.ZonePanicsExactly` | crates/ghost-gateway/src/autonomy.rs:1978-1991 | reading a zone panics exactly when it has six bytes and byte 3 or 4 is inside a character, or byte 3 is a colon and byte 1 is inside one |
| `QuietHours.AsciiZoneNeverPanics` | crates/ghost-gateway/src/autonomy.rs:1978-1991 | no ASCII zone panics |
| `QuietHours.PanickingZones` | crates/ghost-gateway/src/autonomy.rs:1978-1991 | two zones that do |
| `QuietHours.ParseFixedTimezone` | crates/ghost-gateway/src/autonomy.rs:1978-1996 | an accepted offset is shorter than a day |
| `QuietHours.TimezoneRoundTrip` | crates/ghost-gateway/src/autonomy.rs:1978-1996 | every offset from -23:59 to +23:59 is read back from its text |
| `QuietHours.OffsetsExactly` | crates/ghost-gateway/src/autonomy.rs:1978-1996 | an ASCII text is read as an offset exactly when it is a sign, two characters of hours up to 23, a colon and two of minutes up to 59 |
| `QuietHours.UtcNames` | crates/ghost-gateway/src/autonomy.rs:1979-1981 | UTC in any case of letters and a capital Z stand for offset zero, and nothing else does so by name |
| `HashChain.ComputeEventHash` | crates/convergence-monitor/src/monitor.rs:1659-1671 | feeding the fields piece by piece hashes the joined pre-image |
| `HashChain.PreimageTakenApart` | crates/convergence-monitor/src/monitor.rs:1659-1671 | the five fields can be read back from the pre-image although the payload may hold the delimiter |
| `HashChain.PreimageInjective` | crates/convergence-monitor/src/monitor.rs:1659-1671 | different events or predecessors have different pre-images |
| `HashChain.EqualHeadsEqualHistories` | crates/convergence-monitor/src/monitor.rs:905-913 | with a hash that has no collision and no genesis value among the inputs, equal heads mean equal event sequences |
| `HashChain.EqualHashesEqualSteps` | crates/convergence-monitor/src/monitor.rs:1659-1671 | equal event hashes mean equal event and predecessor |
| `HashChain.NamesDiffer` | crates/convergence-monitor/src/monitor.rs:1659-1671 | event type names are distinct |
| `HashChain.NameIsBarFree` | crates/convergence-monitor/src/monitor.rs:1659-1671 | no event type name holds the delimiter |
| `HashChain.Literally` | crates/convergence-monitor/src/monitor.rs:1659-1671 | the event type names, the delimiter and the first hash, written out |
| `Ingest.ConvergenceMonitor.HandleEvent` | crates/convergence-monitor/src/monitor.rs:877-970 | accepted exactly when the event is valid, the limiter has a token for its connection and the row is persisted; whatever fails and whoever else writes, the rows of this process are linked from genesis in every session and each has the number behind the largest before it, the head in memory is the last hash this process persisted, and rejected events change neither log, heads nor counts; the persisted starts of an agent grow by one exactly for an accepted session start of that agent, its count if it is also no duplicate, and no count exceeds the starts |
| `Ingest.ConvergenceMonitor.ExtendChain` | crates/convergence-monitor/src/monitor.rs:905-931 | an event is appended to log and chain together or to neither, and other sessions are untouched |
| `Ingest.ConvergenceMonitor.RollBack` | crates/convergence-monitor/src/monitor.rs:925-929 | the old head is back, whether it was genesis or not |
| `Ingest.ConvergenceMonitor.PersistItpEvent` | crates/convergence-monitor/src/monitor.rs:1364-1409 | the row carries the next free sequence number, or nothing is written |
| `Ingest.ConvergenceMonitor.CountSession` | crates/convergence-monitor/src/monitor.rs:933-962 | a count grows by one exactly for a session that is not a duplicate and never beyond the persisted session starts |
| `Ingest.ConvergenceMonitor.RestoreCalibrationCounts` | crates/convergence-monitor/src/monitor.rs:264-304 | each count that can be read becomes the number of persisted session starts, the others stay, none is lowered, and where every persisted start of an agent was an accepted one that was no duplicate its count does not change |
| `Ingest.ConvergenceMonitor.SessionLog` | crates/convergence-monitor/src/monitor.rs:905-931 | after every interleaving with other writers the rows of this process are a chain of their own that ends in the head in memory; with a hash that has no collision among the inputs, the stored session is one numbered chain exactly when the others keep to the numbers and the links and no row of this process stands behind one of theirs |
| `Ingest.ConvergenceMonitor.OwnSessionLog` | crates/convergence-monitor/src/monitor.rs:905-931 | a session that nobody else writes is one numbered chain with its head in memory, without assumptions on the hash |
| `Ingest.ConvergenceMonitor.ForeignInsert` | crates/ghost-gateway/src/api/agent_chat.rs:1738-1790 | any row of another writer leaves chains, heads and counts in order, and adds a start exactly if it is a session start of that agent |
| `Ingest.LinkedExactly` | crates/convergence-monitor/src/monitor.rs:905-931 | a shared session is linked exactly when the others link as the monitor does and none of its rows stands behind one of theirs |
| `Ingest.NumberedExactly` | crates/convergence-monitor/src/monitor.rs:1376-1395 | a shared session is numbered through exactly when the others use the next number |
| `Ingest.HashesPart` | crates/convergence-monitor/src/monitor.rs:905-913 | in a linked session that others write too, the last hash of the session is not the last hash of this process |
| `Ingest.GatewayExample` | crates/ghost-gateway/src/api/agent_chat.rs:1697-1790 | a session that the gateway opens starts at number 1, and the event ingested next does not continue the gateway's row |
| `Ingest.LinkedHead` | crates/convergence-monitor/src/monitor.rs:905-913 | a linked log's last hash is the head of the chain of its events |
| `Ingest.NumberedMax` | crates/convergence-monitor/src/monitor.rs:1376-1395 | the largest sequence number plus one is the number of rows |
| `Ingest.LargestNumber` | crates/convergence-monitor/src/monitor.rs:1376-1395 | the number looked up is that of a row of the session, and no row has a larger one |
| `Ingest.LatestIsLargest` | crates/ghost-gateway/src/api/agent_chat.rs:1697-1726 | the gateway continues a row of the session with the largest number |
| `Ingest.SendersHaveStarts` | crates/convergence-monitor/src/monitor.rs:265-268 | the senders listed are exactly the agents with persisted session starts |
| `Ingest.RestartBreaksChain` | crates/convergence-monitor/src/monitor.rs:905-931 | the log before a restart and the one after it form one chain exactly when one of the two is empty or the first ends in the genesis value |
| `Ingest.RestartExample` | crates/convergence-monitor/src/monitor.rs:905-931 | two linked, correctly numbered parts that do not form one chain |
| `Ingest.EqualLastHashes` | crates/convergence-monitor/src/monitor.rs:905-913 | two linked session logs with the same last hash record the same events |
| `RateLimiter.Limiter.TryConsumeAt` | crates/convergence-monitor/src/validation.rs:68-107 | a token is granted exactly when the refilled bucket has one, and only this connection's bucket changes |
| `RateLimiter.Limiter.PruneIdleAt` | crates/convergence-monitor/src/validation.rs:113-116 | exactly the buckets touched within the horizon stay, unchanged |
| `RateLimiter.CreditStep` | crates/convergence-monitor/src/validation.rs:84-97 | tokens, remainder and time still to be counted are together unchanged by a call exactly when it does not recount time |
| `RateLimiter.CreditLaw` | crates/convergence-monitor/src/validation.rs:68-107 | over any run in which no call finds the bucket overflowing, credit plus granted tokens equals the initial credit plus exactly the time that was counted twice |
| `RateLimiter.CreditBound` | crates/convergence-monitor/src/validation.rs:68-107 | the same as an upper bound for runs that also overflow |
| `RateLimiter.OverflowLoses` | crates/convergence-monitor/src/validation.rs:88-95 | a full bucket only loses credit |
| `RateLimiter.RateGuarantee` | crates/convergence-monitor/src/validation.rs:68-107 | if every call with elapsed time refills, the tokens granted stay within the rate |
| `RateLimiter.RateFromFirstContact` | crates/convergence-monitor/src/validation.rs:68-107 | from the first contact on, the tokens granted within a time are at most one full bucket and the limit per 60 seconds |
| `RateLimiter.PollingBeatsTheLimit` | crates/convergence-monitor/src/validation.rs:84-97 | from the first contact on, at one token a minute, the call after 31 seconds is granted because the remainder was stored without moving the clock |
| `RateLimiter.PruningNeedsAMinute` | crates/convergence-monitor/src/validation.rs:113-116 | pruning never changes the tokens that the next call finds exactly when the horizon is at least a minute or the limit is zero |
| `RateLimiter.PruningLeavesNoTrace` | crates/convergence-monitor/src/validation.rs:84-116 | a bucket idle for a minute is at the next call the same as a pruned one, remainder included, exactly when no remainder is left |
| `RateLimiter.PruningShowsLater` | crates/convergence-monitor/src/validation.rs:84-116 | a run of two calls that gets two tokens, and one if the idle bucket was pruned before |
| `RateLimiter.IdleBucketFillsUp` | crates/convergence-monitor/src/validation.rs:84-97 | a bucket idle for a minute is full at the next call |
| `RateLimiter.TouchIsSane` | crates/convergence-monitor/src/validation.rs:68-107 | tokens stay within the limit and the remainder below a minute |
| `RateLimiter.SumsFitExactlyUpTo` | crates/convergence-monitor/src/validation.rs:92-95 | for buckets as calls leave them, the 32-bit sum of tokens and refill never wraps exactly for limits up to 2^31 |
| `RateLimiter.WrapsFromTheFirstContact` | crates/convergence-monitor/src/validation.rs:68-107 | above that limit the second call of a connection wraps if it comes a minute after the first |
| `ArchiveFormat.EncodeArchive` | crates/ghost-backup/src/export.rs:118-142 | fails exactly when an entry has no data, naming the first; otherwise writes the format's layout |
| `ArchiveFormat.AppendEntries` | crates/ghost-backup/src/export.rs:130-139 | one frame per entry in order, or the first missing path, all earlier ones being present |
| `ArchiveFormat.RoundTrip` | crates/ghost-backup/src/export.rs:118-142 | decoding returns the manifest and payloads exactly when the manifest fits in 8 MiB and describes the files |
| `ArchiveFormat.ParseShape` | crates/ghost-backup/src/import.rs:275-376 | every accepted byte string is magic, length, manifest and frames with distinct paths and matching sizes and hashes |
| `ArchiveFormat.LayoutParses` | crates/ghost-backup/src/import.rs:275-376 | every such byte string is accepted |
| `ArchiveFormat.LayoutBegins` | crates/ghost-backup/src/export.rs:124-128 | an archive begins with the sixteen bytes of the format's name, the length of the manifest in eight bytes and the manifest |
| `ArchiveFormat.AcceptedIsPrefixFree` | crates/ghost-backup/src/import.rs:275-376 | no strict prefix or extension of an accepted archive is accepted |
| `ArchiveFormat.EntriesAccepted` | crates/ghost-backup/src/import.rs:316-362 | framed payloads that match their entries are read back with what follows them |
| `ArchiveFormat.EntriesShape` | crates/ghost-backup/src/import.rs:316-362 | whatever is accepted consists of such frames |
| `ArchiveFormat.LengthReadBack` | crates/ghost-backup/src/export.rs:127-137 | a 64-bit length is read back from its eight bytes |
| `ArchiveFormat.LengthOfRead` | crates/ghost-backup/src/import.rs:388-394 | eight bytes are the only encoding of the length read from them |
| `ArchiveFormat.LeRoundTrip` | crates/ghost-backup/src/export.rs:127-137 | little-endian digits determine the number, for every width |
| `ArchiveFormat.LeInverse` | crates/ghost-backup/src/import.rs:388-394 | and the number determines the digits |
| `ArchiveFormat.ExportConsistent` | crates/ghost-backup/src/export.rs:48-62 | the exporter's manifest describes its files, each path once |
| `ArchiveFormat.ExportAccepted` | crates/ghost-backup/src/export.rs:37-65 | what the exporter writes is accepted exactly when its manifest is at most 8 MiB, and is otherwise refused as too large |
| `ArchiveReader.ProcessArchive` | crates/ghost-backup/src/import.rs:275-376 | for every buffer size the streaming reader gives the verdict of the whole-input decoder unless the sink fails; a sink that got through received exactly the payloads, and one in order fails only on an archive that is damaged, has a path without a place or a database that is not sound |
| `ArchiveReader.ReadEntries` | crates/ghost-backup/src/import.rs:313-362 | the entry loop agrees with reading the whole list at once, and a restoring sink in order gets through exactly when the entries are intact, have places and hold sound databases |
| `ArchiveReader.ReadEntry` | crates/ghost-backup/src/import.rs:316-362 | one entry is delivered complete and checked, or the decoder's error is returned |
| `ArchiveReader.ReadPayload` | crates/ghost-backup/src/import.rs:333-353 | for every chunk size the hash and what the sink got are those of the whole payload |
| `ArchiveReader.ReadChunk` | crates/ghost-backup/src/import.rs:338-350 | the same bytes go to hash and sink |
| `ArchiveReader.ReadManifest` | crates/ghost-backup/src/import.rs:279-311 | agrees with the reference on every header |
| `ArchiveReader.Reader.ReadExact` | crates/ghost-backup/src/import.rs:388-394 | reads exactly that many bytes or reports truncation |
| `ArchiveReader.Sink.BeginEntry` | crates/ghost-backup/src/import.rs:210-218 | a restoring sink begins an entry only if its path is safe, its components are free of NUL and no file or directory of an earlier entry is in its way; one in order fails only then |
| `ArchiveReader.Sink.WriteChunk` | crates/ghost-backup/src/import.rs:220-223 | chunks add up in order |
| `ArchiveReader.Sink.FinishEntry` | crates/ghost-backup/src/import.rs:225-234 | the files held are those of all delivered entries, later ones replacing earlier ones at the same place; a payload under data/ with a name ending in .db must be a sound database, and a sink in order fails only for that |
| `ArchiveReader.VerifyArchive` | crates/ghost-backup/src/import.rs:39-49 | verification gives the whole-input decoder's verdict |
| `ArchiveReader.CollidesWithAnEntry` | crates/ghost-backup/src/import.rs:210-218 | a file has no place exactly when its path leads through that of an entry delivered before, or the other way round |
| `ArchiveReader.OneMorePlace` | crates/ghost-backup/src/import.rs:210-218 | entries have places one by one exactly as long as their paths are safe and free of NUL and none leads through another |
| `ArchiveReader.ReadBody` | crates/ghost-backup/src/import.rs:332-361 | after the length, the payload is delivered complete and checked, or the decoder's error is returned; a sink in order fails only for lack of a place or for an intact payload that is not a sound database |
| `ArchiveRestore.Importer.Import` | crates/ghost-backup/src/import.rs:52-112 | an existing target is never touched; the target appears with exactly the tree of an archive that verification accepts, or does not change; when the disk is in order, the archives restored are exactly those that verification accepts, whose paths are safe and free of NUL, in which no path leads through another, and whose databases are sound, and no staging directory is left behind |
| `ArchiveRestore.Importer.RestoreInto` | crates/ghost-backup/src/import.rs:78-81 | the same for filling the staging directory |
| `ArchiveRestore.Importer.CleanUp` | crates/ghost-backup/src/import.rs:114-126 | the staging directory is gone or, if removing fails on a bad disk, as it was |
| `ArchiveRestore.KeepsAllPayloads` | crates/ghost-backup/src/import.rs:210-234 | every payload survives exactly when entries that land on one file carry the same bytes |
| `ArchiveRestore.BackupRestores` | crates/ghost-backup/src/export.rs:37-65 | the tree that the archive of a tree of plain paths describes is that tree |
| `ArchiveRestore.TreesAreRestorable` | crates/ghost-backup/src/export.rs:37-65 | the archive of a directory tree can be restored exactly when its names are free of NUL and every file that the importer checks as a database is sound |
| `ArchiveRestore.OrdinaryTreesRestore` | crates/ghost-backup/src/import.rs:225-234 | a tree of plain, NUL-free paths in which no path text both begins with data/ and ends in .db is restored whatever SQLite would say of its files |
| `ArchiveRestore.DatabasesMustBeSound` | crates/ghost-backup/src/import.rs:225-234 | a tree with such a path is restored only if that file is a sound database |
| `ArchiveRestore.DatabasesByText` | crates/ghost-backup/src/import.rs:230-232 | the paths checked as databases are exactly those path texts |
| `ArchiveRestore.NameableByText` | crates/ghost-backup/src/import.rs:210-218 | a safe path can be used exactly when its text is free of NUL |
| `ArchiveRestore.TwoEntriesAccepted` | crates/ghost-backup/src/import.rs:316-362 | an archive of two files under different paths is accepted |
| `ArchiveRestore.TwoPathsOneFile` | crates/ghost-backup/src/import.rs:396-435 | for any two names, doubling the slash gives an accepted archive of two payloads whose tree holds only the second, and which has places for both exactly when the names are free of NUL |
| `ArchiveRestore.FileUnderAFile` | crates/ghost-backup/src/import.rs:210-218 | an archive with one path below another is accepted by verification and can never be restored |
| `ArchiveRestore.FileOverADirectory` | crates/ghost-backup/src/import.rs:210-218 | the same with the longer path first |
| `ArchiveRestore.NulInAName` | crates/ghost-backup/src/import.rs:210-218 | an archive with NUL in a name has a safe path, is accepted by verification and can never be restored |
| `ArchiveRestore.BrokenDatabase` | crates/ghost-backup/src/import.rs:225-234 | an archive of one database as the exporter writes it is accepted by verification, and can be restored exactly when the bytes are a sound database |
| `ArchiveRestore.OtherIsDatabase` | crates/ghost-backup/src/export.rs:109-115 | data/x.db, which the exporter copies unchecked, is one that the importer checks |
| `ArchiveRestore.TooManyFiles` | crates/ghost-backup/src/export.rs:37-65 | numbered empty files, more than 8 Mi of them, are exported to an archive that is refused as too large |
| `ArchiveRestore.MoreEntriesThanBytes` | crates/ghost-backup/src/export.rs:37-65 | so is every export with more entries than the manifest may have bytes, if each takes a byte |
| `ArchiveReader.SanitizeIsNormal` | crates/ghost-backup/src/import.rs:396-435 | an accepted path has no empty, dot or dot-dot component, so it cannot leave its directory |
| `ArchiveReader.AcceptedPaths` | crates/ghost-backup/src/import.rs:396-435 | a path is accepted exactly when it is not absolute, does not begin with a dot component, has no component that leads up and names something |
| `ArchiveReader.SanitizeKeepsNormal` | crates/ghost-backup/src/import.rs:396-435 | a path of ordinary names is accepted and unchanged |
| `ArchiveReader.StoresOnlyEntries` | crates/ghost-backup/src/import.rs:210-234 | no file appears that no entry names |
| `Like.EscapeIsQuoting` | crates/ghost-audit/src/query_engine.rs:182-194 | the three replacements equal escaping each special character once |
| `Like.SearchMeansContains` | crates/ghost-audit/src/query_engine.rs:182-194 | the search pattern matches exactly the texts that contain the search text up to ASCII case |
| `Like.QuotedFirst` | crates/ghost-audit/src/query_engine.rs:182-194 | an escaped text in a pattern matches itself and nothing else |
| `Like.EscapeCharacterComesFirst` | crates/ghost-audit/src/query_engine.rs:187-193 | escaping the escape character last gives the same pattern exactly for texts without wildcards |
| `Like.FoldingMeaning` | crates/ghost-audit/src/query_engine.rs:182-194 | characters are alike exactly if they are the same or the two forms of an ASCII letter |
| `Like.Wildcards` | crates/ghost-audit/src/query_engine.rs:182-194 | bare wildcards match anything and any one character, escaped ones only themselves |
| `FilterValues.ParseFindsValues` | crates/ghost-audit/src/query_engine.rs:21-27 | however clean values are padded and interspersed with blanks, parsing finds exactly them in order |
| `FilterValues.ParsedAreClean` | crates/ghost-audit/src/query_engine.rs:21-27 | every parsed value is non-empty, tight and free of commas |
| `FilterValues.TrimPadded` | crates/ghost-audit/src/query_engine.rs:21-27 | trimming removes any white space around a tight text |
| `FilterValues.TrimSplits` | crates/ghost-audit/src/query_engine.rs:21-27 | and removes nothing else |
| `FilterValues.SpacesByName` | crates/ghost-audit/src/query_engine.rs:21-27 | what is trimmed are the 25 white-space characters of Unicode |
| `AuditQuery.BuildWhere` | crates/ghost-audit/src/query_engine.rs:152-200 | the WHERE clause is true of a row, in three-valued logic, exactly when the filter wants the row; each parameter is used once and in order |
| `AuditQuery.QueryBuilder.PushScalarOrListFilter` | crates/ghost-audit/src/query_engine.rs:29-58 | the vectors stay the compilation of the tests so far; a list without values adds none |
| `AuditQuery.QueryBuilder.PushList` | crates/ghost-audit/src/query_engine.rs:48-57 | placeholders and parameters of a list stay in step |
| `AuditQuery.QueryBuilder.PushOne` | crates/ghost-audit/src/query_engine.rs:156-167 | one condition and its one parameter |
| `AuditQuery.CompiledMeansTests` | crates/ghost-audit/src/query_engine.rs:152-200 | compiled conditions are true exactly when all tests pass, whatever is NULL |
| `AuditQuery.CompiledInOrder` | crates/ghost-audit/src/query_engine.rs:152-200 | placeholders run from 1 to the number of parameters |
| `AuditQuery.WhereStays` | crates/ghost-audit/src/query_engine.rs:152-200 | parameters added later do not change earlier conditions |
| `AuditQuery.ClauseMeans` | crates/ghost-audit/src/query_engine.rs:156-194 | each condition means its test |
| `AuditQuery.TestsMeanFilter` | crates/ghost-audit/src/query_engine.rs:152-194 | the tests pushed for a filter say what the filter asks for |
| `AuditQuery.Query` | crates/ghost-audit/src/query_engine.rs:152-265 | the total is the number of wanted rows and the items are the window of them at the 32-bit offset; the page is the one asked for, page 0 standing for page 1, and the size is the one asked for within 1 and 1000 |
| `AuditQuery.QueryPages` | crates/ghost-audit/src/query_engine.rs:202-265 | asking for pages 1 to n of a fixed size yields the wanted rows from the first on, all of them if n pages are enough, while offsets fit in 32 bits |
| `AuditQuery.AnswerIgnoresPage` | crates/ghost-audit/src/query_engine.rs:152-200 | the rows wanted do not depend on the page |
| `AuditQuery.SelectIsAnswer` | crates/ghost-audit/src/query_engine.rs:202-210 | selecting with an equivalent condition gives the wanted rows in the same order |
| `AuditQuery.PagesAreAPrefix` | crates/ghost-audit/src/query_engine.rs:212-227 | while offsets fit in 32 bits, the first n pages are the first n times size rows |
| `AuditQuery.PagesReadEverything` | crates/ghost-audit/src/query_engine.rs:212-227 | reading page after page yields every row once for answers of up to 2^32 rows |
| `AuditQuery.RightPageExactlyWithoutWrap` | crates/ghost-audit/src/query_engine.rs:212-215 | a page is the right one exactly when its offset fits in 32 bits or even the wrapped offset lies behind the end |
| `AuditQuery.WrappedPageIsNotEmpty` | crates/ghost-audit/src/query_engine.rs:212-215 | a page number far behind the end that answers with rows |
| `Csv.ExportCsv` | crates/ghost-audit/src/export.rs:38-58 | the document is read back as the header names and then the printed columns of the entries |
| `Csv.ColumnsUnderTheirNames` | crates/ghost-audit/src/export.rs:38-56 | each of the eight columns stands under its name in the header |
| `Csv.QuotedExactly` | crates/ghost-audit/src/export.rs:72-78 | a field is quoted exactly when it holds a comma, a quote or a line end |
| `Csv.ReadsBack` | crates/ghost-audit/src/export.rs:38-58 | the same, for the document as a function of the entries |
| `Csv.RecordReadsBack` | crates/ghost-audit/src/export.rs:43-56 | a line of any fields is read back whatever follows it |
| `Csv.FieldReadsBack` | crates/ghost-audit/src/export.rs:72-78 | an escaped field is read back before any separator |
| `Csv.SameDocumentSameColumns` | crates/ghost-audit/src/export.rs:38-58 | two exports are the same text exactly when their entries agree in the eight printed columns |
| `ItpBuffer.ITPBuffer.Push` | crates/ghost-gateway/src/itp_buffer.rs:34-52 | the buffer is what should be kept of everything pushed since the last drain, the newest event last; it has at most 10,000 events, and at most 10 MiB unless that event is alone |
| `ItpBuffer.ITPBuffer.Evict` | crates/ghost-gateway/src/itp_buffer.rs:41-48 | eviction drops as little as possible |
| `ItpBuffer.ITPBuffer.DrainAll` | crates/ghost-gateway/src/itp_buffer.rs:55-58 | hands out what was kept, which is everything if it stayed within 10 MiB and 10,000 events, and starts over |
| `ItpBuffer.LongestFittingMeaning` | crates/ghost-gateway/src/itp_buffer.rs:34-52 | what is kept is the longest suffix within both limits, or the last event alone |
| `ItpBuffer.KeepThenPush` | crates/ghost-gateway/src/itp_buffer.rs:34-52 | keeping early loses nothing that keeping late would keep |
| `Timeline.Reconstruct` | crates/ghost-export/src/timeline.rs:39-102 | one session per explicit and inferred id, ordered by start and for equal starts by id, together holding the input as a multiset exactly when no explicit id is generated too |
| `Timeline.ConservedExactlyWithoutClash` | crates/ghost-export/src/timeline.rs:39-102 | all messages are kept exactly when no explicit id is one of the generated ids |
| `Timeline.HeldAndLost` | crates/ghost-export/src/timeline.rs:39-102 | what is kept and the overwritten explicit sessions are together the input |
| `Timeline.ClashLosesASession` | crates/ghost-export/src/timeline.rs:67-79 | a message whose id is the first generated one disappears |
| `Timeline.Group` | crates/ghost-export/src/timeline.rs:44-54 | the map holds the messages of each explicit id in order, and the rest are unassigned |
| `Timeline.Infer` | crates/ghost-export/src/timeline.rs:56-80 | the loop adds the runs of the sorted messages under generated ids |
| `Timeline.BuildSessions` | crates/ghost-export/src/timeline.rs:82-98 | one session per id in the order of the ids, and every held message in one of them |
| `Timeline.SortKeepsTies` | crates/ghost-export/src/timeline.rs:100-101 | sorting by start keeps sessions of the same start in the order of their ids |
| `Timeline.RunsAreMaximal` | crates/ghost-export/src/timeline.rs:61-80 | no gap inside a run is above the threshold and every gap between runs is |
| `Timeline.RunsByTime` | crates/ghost-export/src/timeline.rs:61-80 | within a run less than a second more than the threshold passes between messages, and at least that between runs |
| `Timeline.RunsConcatenate` | crates/ghost-export/src/timeline.rs:61-80 | the runs are the sorted messages in order |
| `Timeline.MaximalRunsAreRuns` | crates/ghost-export/src/timeline.rs:61-80 | there is only one way to cut the messages into such runs |
| `Timeline.InferredSession` | crates/ghost-export/src/timeline.rs:56-98 | the session of a generated id is the corresponding maximal run |
| `Timeline.ExplicitSession` | crates/ghost-export/src/timeline.rs:44-98 | any other id has a session exactly if a message carries it, holding those messages |
| `Timeline.BuiltMeaning` | crates/ghost-export/src/timeline.rs:85-97 | a session holds its messages in time order, those of one instant as they came, starts at the earliest and ends at the latest |
| `Timeline.InferredDiffer` | crates/ghost-export/src/timeline.rs:67-79 | generated ids are distinct |
| `Sorting.SortSorts` | crates/ghost-export/src/timeline.rs:58-59 | sorting gives an ordered permutation |
| `Sorting.SortIsStable` | crates/ghost-export/src/timeline.rs:58-59 | elements with equal keys keep their order |

## Left out

- TurnLoop.AgentRunner.RunTurn: proposals extracted from the text are not modelled.
- TurnLoop.CallModel: costs are real numbers, so floating-point rounding of the spend is not modelled.
- TurnLoop.AgentRunner.RunLoop: the journal may hold steps of earlier runs of the same execution attempt, settled and numbered below the next attempt, as a repeated provider leaves them; other journals are not modelled.
- Ingest.ConvergenceMonitor.HandleEvent: each call is one step; rows of other writers come between calls.
- TurnTrace.SignaturesTellApart: arguments are any text; that texts of JSON values do not collide is not shown.
- CircuitBreakers.CircuitBreaker.AllowsCall: the clock never goes back, as `Instant` promises.
- Dispatcher.SlotTable.ReserveSlot: the methods are shown uninterrupted; interleavings are the subject of the machine of atomic steps.
- Dispatcher.InitInv: a configured concurrency of zero, for which opening the channel panics, is not told apart.
- ArchiveRestore.Importer.Import: the age envelope is opened before reading starts, so an authentication error in the middle of the stream is not told apart from truncation.
- ArchiveReader.Sink.FinishEntry: which payloads SQLite finds sound is a parameter; that it also reads a journal file restored earlier beside the database, and may write there, is not modelled.
- ArchiveReader.Sink.BeginEntry: limits of the file system on the length of names and paths, and file systems that ignore case, are not modelled.
- ArchiveReader.SanitizeIsNormal: Unix paths only; Windows prefixes and backslashes are not modelled.
- AuditQuery.Query: rows come in one fixed order; that it is descending by timestamp, with ties in a fixed order, is the database's part.
- AuditQuery.BuildWhere: conditions are values, not SQL text, and LIMIT and OFFSET are applied directly; a list filter with more values than SQLite allows placeholders, which is an error in the source, is not told apart.
- Like.SearchMeansContains: texts with NUL characters and SQLite's limit on pattern length are not modelled.
- RateLimiter.Limiter.TryConsumeAt: time is in nanoseconds of a clock that never goes back; tokens are unbounded, so limits above 2^31, where the 32-bit sum can wrap, are not modelled.
- Csv.SameDocumentSameColumns: an absent value prints like an empty one, so columns are compared as printed.
- ItpBuffer.ITPBuffer.Push: sizes are unbounded integers; the limits keep the sum far below 64 bits.
- Preparation of dispatches, leases, approvals and deferral: their guarantees live in storage queries.
- Intervention escalation, dual-key confirmation, the session registry and convergence scores in floating point.
- The output inspector's patterns and entropy, and the classification of model errors from their text.
- Collecting files for a backup, lossy file names, SQLite snapshots and encryption.
- JSON and JSONL export, the SQLite connection pool, channels, providers, configuration and the dashboard.
