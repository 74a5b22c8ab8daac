/**
 The steps of an agent turn below the level of the loop: the guards, the step journal, and one
 round of tool calls.  `Turn` holds the run context and the loop's local variables; what the tools,
 the cancel token and the event channel do is arbitrary: `fired` and `shut` give it.
 */
module TurnSteps {
  import opened Wrappers
  import opened Seqs
  import opened DamageCounters
  import opened TurnTrace
  import opened Previews

  datatype RunError =
    | AgentPaused | AgentQuarantined | PlatformKilled
    | CircuitBreakerOpen
    | RecursionDepthExceeded(depth: nat, max: nat)
    | DamageThreshold(count: nat, threshold: nat)
    | SpendingCapExceeded(spent: real, cap: real)
    | KillSwitchActive | KillGateClosed
    | ModelFailed(partialOutput: bool)
    | RepeatedToolFailures(partialOutput: bool)
    | ToolCallLimit(partialOutput: bool)
    | RepeatedIdenticalCall(tool: string, partialOutput: bool)
    | UnsupportedTool(tool: string, partialOutput: bool)
    | CredentialExfiltration
    | StreamCancelled | Cancelled
    | Panicked  // not an error of the source: the process is gone
  {
    predicate RaisedAtGate() {
      || CircuitBreakerOpen? || RecursionDepthExceeded? || DamageThreshold? || SpendingCapExceeded?
      || KillSwitchActive? || AgentPaused? || AgentQuarantined? || PlatformKilled? || KillGateClosed?
    }

    predicate IsCancellation() {
      Cancelled? || StreamCancelled?
    }

    /** The error says whether there was some output before it. */
    predicate TellsOfOutput() {
      RepeatedToolFailures? || ToolCallLimit? || RepeatedIdenticalCall? || UnsupportedTool?
    }
  }

  datatype Turn = Turn(
    recursionDepth: nat,
    toolCallCount: nat,
    totalTokens: nat,
    totalCost: real,
    journal: seq<StepRow>,
    conversation: seq<Message>,
    consecutiveToolFailures: nat,
    failedToolCalls: map<string, nat>,
    output: Option<string>,
    accumulated: string,          // text streamed so far
    toolCallsMade: nat,
    threwKillSwitch: bool,
    looks: nat,                   // how often the cancel token or the event channel was looked at
    sent: string)                 // model text forwarded on the stream

  // ---------------------------------------------------------------- the account of a turn

  /** The counters are those of the account; `pending` attempts are not yet in it. */
  ghost predicate Balanced(s: Turn, y: Tally, terms: Terms, damage: nat, pending: nat) {
    && s.journal == terms.Journal(y.rows)
    && s.toolCallCount == terms.base + y.attempts + pending
    && s.toolCallsMade == y.successes
    && terms.dailySpend + s.totalCost == terms.startSpend + y.spent
    && damage == terms.startDamage + y.damage
    && s.totalTokens == terms.startTokens + y.tokens
    && (if terms.streaming then s.accumulated == y.gathered else s.output == y.output)
    && Forwarded(s, y, terms)
  }

  /** There is some output to show for the turn. */
  predicate SomeOutput(s: Turn, terms: Terms) {
    if terms.streaming then s.accumulated != "" else s.output.Some?
  }

  /** The stream has carried the whole text of every answer, and some of one that is still awaited. */
  ghost predicate Forwarded(s: Turn, y: Tally, terms: Terms) {
    if !terms.streaming then s.sent == ""
    else if y.stage.Waiting? then y.spoken <= s.sent else s.sent == y.spoken
  }

  /** Holds while the turn goes on. */
  ghost predicate Running(s: Turn, y: Tally, terms: Terms, damage: nat, pending: nat) {
    && Balanced(s, y, terms, damage, pending)
    && s.conversation == terms.initial + y.transcript
    && s.consecutiveToolFailures == y.streak && GoesOn(y, terms)
    && s.failedToolCalls == y.tries
  }

  /** The gate behind an error really was closed; the breaker's is stated where the breaker is at hand. */
  ghost predicate GateBlocks(e: RunError, s: Turn, y: Tally, terms: Terms, damage: nat) {
    var sight := terms.sights(y.asks);
    && (e.RecursionDepthExceeded? ==> e.depth == s.recursionDepth >= terms.maxDepth == e.max)
    && (e.DamageThreshold? ==> e.count == damage >= terms.threshold == e.threshold)
    && (e.SpendingCapExceeded? ==> e.spent == terms.dailySpend + s.totalCost > terms.cap == e.cap)
    && (e.KillSwitchActive? ==> sight.flagged)
    && (e.AgentPaused? ==> sight.authority.Pause?)
    && (e.AgentQuarantined? ==> sight.authority.Quarantine?)
    && (e.PlatformKilled? ==> sight.authority.KillAllAgents?)
    && (e.KillGateClosed? ==> sight.closed)
  }

  /** The errors that can end a turn at each stage. */
  ghost predicate Fits(e: RunError, stage: Stage) {
    match stage
    case Idle => e.RaisedAtGate() || e.IsCancellation()
    case Waiting => e.ModelFailed? || e.IsCancellation()
    case Owing(_) => false
    case Finished(_) => false
    case Condemned => e.CredentialExfiltration?
    case Working(calls, _) =>
      || e.IsCancellation() || e.RepeatedToolFailures? || e.Panicked?
      || (if calls == [] then e.RaisedAtGate() else e.ToolCallLimit?)
    case Aborted(cause, _) =>
      (match cause
       case GaveUp(call) => e.RepeatedIdenticalCall? && e.tool == call.name
       case Rejected(call) => e.UnsupportedTool? && e.tool == call.name
       case _ => e.IsCancellation())
    case Astray => false
  }

  /** The look at the token or the channel that ended the turn really found it fired or closed. */
  predicate Stopped(e: RunError, terms: Terms, looks: nat) {
    || (e.Cancelled? && terms.cancellable && terms.fired(looks))
    || (e.StreamCancelled? && terms.streaming && terms.shut(looks))
  }

  /** Why a turn ended in an error, read off the account of its steps. */
  ghost predicate Explains(e: RunError, s: Turn, y: Tally, terms: Terms, damage: nat) {
    && Fits(e, y.stage) && GateBlocks(e, s, y, terms, damage)
    && (e.Cancelled? ==> terms.cancellable && terms.fired(s.looks))
    && (e.StreamCancelled? ==> terms.streaming && terms.shut(s.looks))
    && (e.Panicked? <==> IsCut(y.stage, terms))
    && (e.TellsOfOutput() ==> e.partialOutput == if terms.streaming then y.gathered != "" else y.output.Some?)
    && (e.ModelFailed? && !terms.streaming ==> !e.partialOutput)
    && (e.RepeatedToolFailures? ==> y.streak == 3)
    && (y.streak >= 3 ==> e.RepeatedToolFailures? || e.StreamCancelled? || e.Panicked?)
    && (e.ToolCallLimit? ==> s.toolCallCount >= terms.maxToolCalls)
    && (e.CredentialExfiltration? <==> s.threwKillSwitch)
  }

  /** The turn goes on, or an error ends it for a reason. */
  ghost predicate Settles(s: Turn, y: Tally, terms: Terms, damage: nat, r: Option<RunError>) {
    && Balanced(s, y, terms, damage, 0)
    && if r.None? then Running(s, y, terms, damage, 0)
       else Explains(r.value, s, y, terms, damage) && !r.value.RaisedAtGate() && !r.value.ModelFailed?
  }

  /** A round of tool calls leaves these alone. */
  ghost predicate SameRun(t: Turn, s: Turn) {
    && t.recursionDepth == s.recursionDepth && t.totalTokens == s.totalTokens && t.totalCost == s.totalCost
    && t.output == s.output && t.accumulated == s.accumulated && t.threwKillSwitch == s.threwKillSwitch
    && t.sent == s.sent
  }

  ghost function Moved(y: Tally, step: Option<Event>, base: nat): Tally {
    if step.None? then y else Advance(y, step.value, base)
  }

  /** `cut` says of each answer whether showing it panics. */
  ghost predicate KnowsPreviews(terms: Terms) {
    forall content {:trigger PreviewPanics(content)} ::
      terms.cut(content) <==> terms.streaming && PreviewPanics(content)
  }

  // ---------------------------------------------------------------- guard helpers

  method EnsureNotCancelled(terms: Terms, looks: nat) returns (r: Option<RunError>, next: nat)
    ensures r == if terms.cancellable && terms.fired(looks) then Some(Cancelled) else None
    ensures next == if r.None? then looks + 1 else looks
  {
    if terms.cancellable && terms.fired(looks) {
      return Some(Cancelled), looks;
    }
    r, next := None, looks + 1;
  }

  /** Sends a stream event; a closed channel ends the turn.  Without streaming nothing is sent. */
  method SendStreamEvent(terms: Terms, looks: nat) returns (r: Option<RunError>, next: nat)
    ensures r == if terms.streaming && terms.shut(looks) then Some(StreamCancelled) else None
    ensures next == if r.None? then looks + 1 else looks
  {
    if terms.streaming && terms.shut(looks) {
      return Some(StreamCancelled), looks;
    }
    r, next := None, looks + 1;
  }

  /** Shows an answer on the stream, if there is one. */
  method ShowAnswer(content: Content, terms: Terms, looks: nat) returns (r: Option<RunError>, next: nat)
    requires KnowsPreviews(terms)
    ensures r == Some(Panicked) <==> terms.cut(content)
    ensures r.Some? ==> terms.streaming
    ensures r.Some? ==> r.value.Panicked? || (r.value.StreamCancelled? && Stopped(r.value, terms, next))
    ensures r.None? ==> if terms.streaming then !terms.shut(looks) && next == looks + 1 else next == looks
  {
    ghost var panics := PreviewPanics(content);
    assert terms.cut(content) <==> terms.streaming && panics;
    if !terms.streaming {
      return None, looks;
    }
    var preview := Preview(ContentText(content));
    if preview.None? {
      return Some(Panicked), looks;
    }
    r, next := SendStreamEvent(terms, looks);
  }

  method NoteConsecutiveToolFailure(failures: nat, partialOutput: bool) returns (count: nat, r: Option<RunError>)
    ensures count == failures + 1
    ensures r == if count >= 3 then Some(RepeatedToolFailures(partialOutput)) else None
  {
    count := failures + 1;
    r := None;
    if count >= MAX_CONSECUTIVE_TOOL_FAILURES {
      r := Some(RepeatedToolFailures(partialOutput));
    }
  }

  method NoteToolCallAttempt(attempts: nat, max: nat, partialOutput: bool) returns (count: nat, r: Option<RunError>)
    ensures r.Some? <==> attempts >= max
    ensures r.Some? ==> count == attempts && r.value == ToolCallLimit(partialOutput)
    ensures r.None? ==> count == attempts + 1 <= max
  {
    count := attempts;
    if attempts >= max {
      return count, Some(ToolCallLimit(partialOutput));
    }
    count := attempts + 1;
    r := None;
  }

  method RecordFailedToolCall(failed: map<string, nat>, call: ToolCall) returns (recorded: map<string, nat>)
    ensures recorded == if Signature(call) in failed then failed else failed[Signature(call) := 1]
  {
    recorded := if Signature(call) in failed then failed else failed[Signature(call) := 1];
  }

  /** In a turn this never removes anything: a call that is run has no failed signature. */
  method ClearFailedToolCall(failed: map<string, nat>, call: ToolCall) returns (cleared: map<string, nat>)
    ensures Signature(call) !in cleared && forall s :: s != Signature(call) ==> (s in cleared <==> s in failed)
    ensures forall s :: s in cleared ==> cleared[s] == failed[s]
  {
    cleared := failed - {Signature(call)};
  }

  /** `Ok(true)` asks the caller to answer the call without running it. */
  method MaybeSuppressDuplicate(failed: map<string, nat>, call: ToolCall, partialOutput: bool)
    returns (noted: map<string, nat>, r: Result<bool, RunError>)
    ensures Signature(call) !in failed ==> r == Ok(false) && noted == failed
    ensures Signature(call) in failed ==>
              && noted == failed[Signature(call) := failed[Signature(call)] + 1]
              && r == if failed[Signature(call)] >= MAX_FAILED_DUPLICATE_TOOL_CALL_ATTEMPTS_PER_TURN
                      then Err(RepeatedIdenticalCall(call.name, partialOutput)) else Ok(true)
  {
    var signature := Signature(call);
    noted := failed;
    if signature !in failed {
      return noted, Ok(false);
    }
    noted := failed[signature := failed[signature] + 1];
    if noted[signature] > MAX_FAILED_DUPLICATE_TOOL_CALL_ATTEMPTS_PER_TURN {
      return noted, Err(RepeatedIdenticalCall(call.name, partialOutput));
    }
    r := Ok(true);
  }

  // ---------------------------------------------------------------- journal

  method PersistStepStarted(journal: seq<StepRow>, durable: bool, stepSeq: int, call: ToolCall)
    returns (rows: seq<StepRow>)
    ensures rows == if durable then InsertStarted(journal, stepSeq, call) else journal
  {
    rows := if durable then InsertStarted(journal, stepSeq, call) else journal;
  }

  method PersistStepFinished(journal: seq<StepRow>, durable: bool, stepSeq: int, status: StepStatus)
    returns (rows: seq<StepRow>)
    ensures rows == if durable then UpdateStatus(journal, stepSeq, status) else journal
  {
    rows := if durable then UpdateStatus(journal, stepSeq, status) else journal;
  }

  /** A tool that must not run twice is journaled as failed on a repeated attempt. */
  method RejectUnsupportedExactOnceTool(journal: seq<StepRow>, terms: Terms, stepSeq: int, call: ToolCall,
                                        partialOutput: bool)
    returns (rows: seq<StepRow>, r: Option<RunError>)
    requires Below(journal, stepSeq)
    ensures r.Some? <==> terms.repeated && ToolReliabilityClass(call).UnsupportedExactOnce?
    ensures r.Some? ==> r.value == UnsupportedTool(call.name, partialOutput)
    ensures rows == if r.Some? && terms.durable then journal + [StepRow(stepSeq, call, StepFailed)] else journal
  {
    rows := journal;
    if !terms.repeated || !ToolReliabilityClass(call).UnsupportedExactOnce? {
      return rows, None;
    }
    JournalStep(journal, stepSeq, call, StepFailed);
    rows := PersistStepStarted(rows, terms.durable, stepSeq, call);
    rows := PersistStepFinished(rows, terms.durable, stepSeq, StepFailed);
    r := Some(UnsupportedTool(call.name, partialOutput));
  }

  // ---------------------------------------------------------------- one call

  /** An attempt at `call` is being made: it is next, it is counted, and it may be counted. */
  ghost predicate Attempting(call: ToolCall, y: Tally, terms: Terms) {
    && NextIs(call, y, terms) && terms.base + y.attempts < terms.maxToolCalls
  }

  /** The call is the next one of a plan that was let pass. */
  ghost predicate NextIs(call: ToolCall, y: Tally, terms: Terms) {
    && y.asks > 0 && y.stage.Working? && y.stage.calls != [] && y.stage.calls[0] == call
    && (y.stage.latest.None? ==> terms.Denial(y.asks, y.stage.calls).None?)
  }

  /** Answers a call that failed before without running it. */
  method SuppressCall(s: Turn, call: ToolCall, terms: Terms, ghost y: Tally, ghost damage: nat)
    returns (t: Turn, r: Option<RunError>)
    requires KnowsPreviews(terms) && Repeating(s, call, y, terms, damage)
    ensures MayAct(y, Suppressed(call), terms)
    ensures Settles(t, Advance(y, Suppressed(call), terms.base), terms, damage, r) && SameRun(t, s)
    ensures terms.streaming && (terms.shut(s.looks) || terms.shut(s.looks + 1)) ==>
              r == Some(StreamCancelled) || r == Some(Panicked)
  {
    var answer, looks := DuplicateSuppressed(call.name), s.looks;
    r, looks := ShowAnswer(answer, terms, looks);
    if r.None? {
      r, looks := SendStreamEvent(terms, looks);
    }
    t := s.(looks := looks);
    if r.Some? {
      SuppressionCutShort(s, t, r.value, call, terms, y, damage);
      return;
    }
    var count;
    count, r := NoteConsecutiveToolFailure(s.consecutiveToolFailures, SomeOutput(s, terms));
    t := t.(conversation := s.conversation + [AnswerMessage(call, answer)], consecutiveToolFailures := count);
    SuppressionBooked(s, t, r, call, terms, y, damage);
  }

  /** A call that failed before is being attempted for the first time since. */
  ghost predicate Repeating(s: Turn, call: ToolCall, y: Tally, terms: Terms, damage: nat) {
    && Attempting(call, y, terms) && !s.threwKillSwitch
    && Signature(call) in y.tries && y.tries[Signature(call)] == 1
    && s.failedToolCalls == y.tries[Signature(call) := 2]
    && Running(s.(failedToolCalls := y.tries), y, terms, damage, 1)
  }

  lemma SuppressionCutShort(s: Turn, t: Turn, e: RunError, call: ToolCall, terms: Terms, y: Tally, damage: nat)
    requires Repeating(s, call, y, terms, damage) && t == s.(looks := t.looks)
    requires e == Panicked <==> terms.cut(DuplicateSuppressed(call.name))
    requires e.Panicked? || (e.StreamCancelled? && Stopped(e, terms, t.looks))
    ensures MayAct(y, Suppressed(call), terms)
    ensures Settles(t, Advance(y, Suppressed(call), terms.base), terms, damage, Some(e))
  {
  }

  lemma SuppressionBooked(s: Turn, t: Turn, r: Option<RunError>, call: ToolCall, terms: Terms, y: Tally, damage: nat)
    requires Repeating(s, call, y, terms, damage) && !terms.cut(DuplicateSuppressed(call.name))
    requires t == s.(looks := t.looks, consecutiveToolFailures := s.consecutiveToolFailures + 1,
                     conversation := s.conversation + [AnswerMessage(call, DuplicateSuppressed(call.name))])
    requires r == if t.consecutiveToolFailures >= 3 then Some(RepeatedToolFailures(SomeOutput(s, terms))) else None
    ensures MayAct(y, Suppressed(call), terms)
    ensures Settles(t, Advance(y, Suppressed(call), terms.base), terms, damage, r)
  {
    Associate(terms.initial, y.transcript, [AnswerMessage(call, DuplicateSuppressed(call.name))]);
  }

  datatype ToolOutcome = ToolCancelled | ToolStreamClosed | Returned(result: Result<string, string>)

  /** While a tool runs, the token may fire and the channel may close. */
  method InvokeTool(terms: Terms, looks: nat) returns (outcome: ToolOutcome)
    ensures outcome.ToolCancelled? ==> Stopped(Cancelled, terms, looks)
    ensures outcome.ToolStreamClosed? ==> Stopped(StreamCancelled, terms, looks)
  {
    outcome := *;
    if || (outcome.ToolCancelled? && !Stopped(Cancelled, terms, looks))
       || (outcome.ToolStreamClosed? && !Stopped(StreamCancelled, terms, looks)) {
      var result: Result<string, string> := *;
      outcome := Returned(result);
    }
  }

  function WithStep(terms: Terms, rows: seq<StepRow>, row: StepRow): seq<StepRow> {
    if terms.durable then terms.Journal(rows) + [row] else terms.journal
  }

  /** Inserting or closing the newest step leaves the journal of the account. */
  lemma StepBooked(terms: Terms, rows: seq<StepRow>, n: nat, call: ToolCall, status: StepStatus)
    requires Below(terms.Journal(rows), n)
    ensures terms.durable ==>
              && InsertStarted(terms.Journal(rows), n, call) == WithStep(terms, rows, StepRow(n, call, Started))
              && UpdateStatus(WithStep(terms, rows, StepRow(n, call, Started)), n, status)
                 == WithStep(terms, rows, StepRow(n, call, status))
    ensures WithStep(terms, rows, StepRow(n, call, status)) == terms.Journal(rows + [StepRow(n, call, status)])
  {
    JournalStep(terms.Journal(rows), n, call, status);
    Associate(terms.journal, rows, [StepRow(n, call, status)]);
  }

  /** Between opening the journal step of a call and closing it. */
  ghost predicate Opened(s: Turn, call: ToolCall, y: Tally, terms: Terms, damage: nat) {
    && Attempting(call, y, terms) && !s.threwKillSwitch
    && s.journal == WithStep(terms, y.rows, StepRow(s.toolCallCount, call, Started))
    && Below(terms.Journal(y.rows), s.toolCallCount)
    && Running(s.(journal := terms.Journal(y.rows)), y, terms, damage, 1)
    && Signature(call) !in y.tries
    && (terms.repeated ==> !ToolReliabilityClass(call).UnsupportedExactOnce?)
  }

  /**
   Books the success of a tool and reports it to the model.  The failed calls stay: this one is not
   among them.  Only a panic or a closed channel ends the turn here.
   */
  method SettleSuccess(s: Turn, call: ToolCall, text: string, terms: Terms, damage: DamageCounter, ghost y: Tally)
    returns (t: Turn, r: Option<RunError>)
    requires KnowsPreviews(terms) && Opened(s, call, y, terms, damage.count)
    modifies damage`count
    ensures MayAct(y, Executed(call, Ok(text)), terms) && t.failedToolCalls == s.failedToolCalls
    ensures Settles(t, Advance(y, Executed(call, Ok(text)), terms.base), terms, damage.count, r) && SameRun(t, s)
    ensures r.Some? ==> r.value.Panicked? || r.value.StreamCancelled?
  {
    StepBooked(terms, y.rows, s.toolCallCount, call, Committed);
    var rows := PersistStepFinished(s.journal, terms.durable, s.toolCallCount, Committed);
    var cleared := ClearFailedToolCall(s.failedToolCalls, call);
    assert cleared == s.failedToolCalls;
    var looks;
    if IsDestructive(call) {
      damage.Increment();
    }
    r, looks := ShowAnswer(Text(text), terms, s.looks);
    t := s.(journal := rows, failedToolCalls := cleared, consecutiveToolFailures := 0,
            toolCallsMade := s.toolCallsMade + 1, looks := looks);
    if r.None? {
      t := t.(conversation := s.conversation + [AnswerMessage(call, Text(text))]);
    }
    SuccessBooked(s, t, r, call, text, terms, damage.count, y);
  }

  lemma SuccessBooked(s: Turn, t: Turn, r: Option<RunError>, call: ToolCall, text: string, terms: Terms, damage: nat,
                      y: Tally)
    requires damage >= if IsDestructive(call) then 1 else 0
    requires Opened(s, call, y, terms, damage - if IsDestructive(call) then 1 else 0)
    requires t == s.(journal := terms.Journal(y.rows + [StepRow(s.toolCallCount, call, Committed)]),
                     consecutiveToolFailures := 0, toolCallsMade := s.toolCallsMade + 1, looks := t.looks,
                     conversation := if r.None? then s.conversation + [AnswerMessage(call, Text(text))]
                                     else s.conversation)
    requires r == Some(Panicked) <==> terms.cut(Text(text))
    requires r.Some? ==> r.value.Panicked? || (r.value.StreamCancelled? && Stopped(r.value, terms, t.looks))
    ensures MayAct(y, Executed(call, Ok(text)), terms)
    ensures Settles(t, Advance(y, Executed(call, Ok(text)), terms.base), terms, damage, r)
  {
    Associate(terms.initial, y.transcript, [AnswerMessage(call, Text(text))]);
  }

  /** Books the failure of a tool and reports it to the model. */
  method SettleFailure(s: Turn, call: ToolCall, error: string, terms: Terms, ghost y: Tally,
                       ghost damage: nat)
    returns (t: Turn, r: Option<RunError>)
    requires KnowsPreviews(terms) && Opened(s, call, y, terms, damage)
    ensures MayAct(y, Executed(call, Err(error)), terms)
    ensures Settles(t, Advance(y, Executed(call, Err(error)), terms.base), terms, damage, r) && SameRun(t, s)
  {
    StepBooked(terms, y.rows, s.toolCallCount, call, StepFailed);
    var rows := PersistStepFinished(s.journal, terms.durable, s.toolCallCount, StepFailed);
    var failed := RecordFailedToolCall(s.failedToolCalls, call);
    var looks;
    r, looks := ShowAnswer(ToolError(error), terms, s.looks);
    t := s.(journal := rows, failedToolCalls := failed, looks := looks);
    if r.Some? {
      FailureCutShort(s, t, r.value, call, error, terms, y, damage);
    } else {
      var count;
      count, r := NoteConsecutiveToolFailure(s.consecutiveToolFailures, SomeOutput(s, terms));
      t := t.(conversation := s.conversation + [AnswerMessage(call, ToolError(error))], consecutiveToolFailures := count);
      FailureBooked(s, t, r, call, error, terms, y, damage);
    }
  }

  /** What a failed call changes before its answer is shown. */
  ghost predicate FailureNoted(s: Turn, t: Turn, call: ToolCall, terms: Terms, y: Tally) {
    && t.journal == terms.Journal(y.rows + [StepRow(s.toolCallCount, call, StepFailed)])
    && t.failedToolCalls == s.failedToolCalls[Signature(call) := 1]
  }

  lemma FailureCutShort(s: Turn, t: Turn, e: RunError, call: ToolCall, error: string, terms: Terms, y: Tally, damage: nat)
    requires Opened(s, call, y, terms, damage) && FailureNoted(s, t, call, terms, y)
    requires t == s.(journal := t.journal, failedToolCalls := t.failedToolCalls, looks := t.looks)
    requires e == Panicked <==> terms.cut(ToolError(error))
    requires e.Panicked? || (e.StreamCancelled? && Stopped(e, terms, t.looks))
    ensures MayAct(y, Executed(call, Err(error)), terms)
    ensures Settles(t, Advance(y, Executed(call, Err(error)), terms.base), terms, damage, Some(e))
  {
  }

  lemma FailureBooked(s: Turn, t: Turn, r: Option<RunError>, call: ToolCall, error: string, terms: Terms, y: Tally,
                      damage: nat)
    requires Opened(s, call, y, terms, damage) && FailureNoted(s, t, call, terms, y) && !terms.cut(ToolError(error))
    requires t == s.(journal := t.journal, failedToolCalls := t.failedToolCalls, looks := t.looks,
                     conversation := s.conversation + [AnswerMessage(call, ToolError(error))],
                     consecutiveToolFailures := s.consecutiveToolFailures + 1)
    requires r == if t.consecutiveToolFailures >= 3 then Some(RepeatedToolFailures(SomeOutput(s, terms))) else None
    ensures MayAct(y, Executed(call, Err(error)), terms)
    ensures Settles(t, Advance(y, Executed(call, Err(error)), terms.base), terms, damage, r)
  {
    Associate(terms.initial, y.transcript, [AnswerMessage(call, ToolError(error))]);
  }

  /** A call that is cut short leaves its step in the journal as started. */
  lemma LeftOpen(s: Turn, e: RunError, call: ToolCall, y: Tally, terms: Terms, damage: nat)
    requires Opened(s, call, y, terms, damage) && Stopped(e, terms, s.looks)
    ensures MayAct(y, Interrupted(call), terms)
    ensures Settles(s, Advance(y, Interrupted(call), terms.base), terms, damage, Some(e))
  {
    StepBooked(terms, y.rows, s.toolCallCount, call, Started);
    var later := Advance(y, Interrupted(call), terms.base);
    assert later.rows == y.rows + [StepRow(s.toolCallCount, call, Started)];
    assert later.stage == Aborted(Interrupted(call), y.stage.calls) && later.streak == y.streak;
    assert Balanced(s, later, terms, damage, 0);
  }

  /** Runs a call whose journal step has been opened, and closes the step. */
  method ExecuteCall(s: Turn, call: ToolCall, terms: Terms, damage: DamageCounter, ghost y: Tally)
    returns (t: Turn, r: Option<RunError>, ghost step: Event)
    requires KnowsPreviews(terms) && Opened(s, call, y, terms, damage.count)
    modifies damage`count
    ensures MayAct(y, step, terms) && (step == Interrupted(call) || (step.Executed? && step.call == call))
    ensures r.None? ==> step.Executed?
    ensures terms.streaming && terms.shut(s.looks) ==> r == Some(StreamCancelled) && step == Interrupted(call)
    ensures Settles(t, Advance(y, step, terms.base), terms, damage.count, r) && SameRun(t, s)
  {
    step := Interrupted(call);
    var looks;
    r, looks := SendStreamEvent(terms, s.looks);
    t := s.(looks := looks);
    if r.Some? {
      LeftOpen(t, r.value, call, y, terms, damage.count);
      return;
    }
    var outcome := InvokeTool(terms, looks);
    match outcome
    case ToolCancelled =>
      LeftOpen(t, Cancelled, call, y, terms, damage.count);
      r := Some(Cancelled);
    case ToolStreamClosed =>
      LeftOpen(t, StreamCancelled, call, y, terms, damage.count);
      r := Some(StreamCancelled);
    case Returned(Ok(text)) =>
      step := Executed(call, Ok(text));
      t, r := SettleSuccess(t, call, text, terms, damage, y);
    case Returned(Err(error)) =>
      step := Executed(call, Err(error));
      t, r := SettleFailure(t, call, error, terms, y, damage.count);
  }

  /** What the loop knows of its own past: step numbers are new, and tries are 1 or 2. */
  ghost predicate PastKnown(y: Tally, terms: Terms) {
    Below(terms.Journal(y.rows), terms.base + y.attempts + 1) && forall s :: s in y.tries ==> 1 <= y.tries[s] <= 2
  }

  /** The body of the loop over the calls of one model answer. */
  method RunCall(s: Turn, call: ToolCall, terms: Terms, damage: DamageCounter, ghost y: Tally)
    returns (t: Turn, r: Option<RunError>, ghost step: Option<Event>)
    requires KnowsPreviews(terms) && Running(s, y, terms, damage.count, 0) && PastKnown(y, terms) && !s.threwKillSwitch
    requires NextIs(call, y, terms)
    modifies damage`count
    ensures step.Some? ==> MayAct(y, step.value, terms) && step.value.IsAttempt() && step.value.call == call
    ensures r.None? ==> step.Some? && AnswerOf(step.value).Some?
    ensures terms.cancellable && terms.fired(s.looks) ==> r == Some(Cancelled) && step.None?
    ensures Settles(t, Moved(y, step, terms.base), terms, damage.count, r) && SameRun(t, s)
  {
    step := None;
    var looks, count;
    r, looks := EnsureNotCancelled(terms, s.looks);
    t := s.(looks := looks);
    if r.Some? {
      return;
    }
    count, r := NoteToolCallAttempt(s.toolCallCount, terms.maxToolCalls, SomeOutput(s, terms));
    if r.Some? {
      return;
    }
    t, r, step := AttemptCall(t.(toolCallCount := count), call, terms, damage, y);
  }

  /** An attempt that has been counted: turned away, rejected, or run. */
  method AttemptCall(s: Turn, call: ToolCall, terms: Terms, damage: DamageCounter, ghost y: Tally)
    returns (t: Turn, r: Option<RunError>, ghost step: Option<Event>)
    requires KnowsPreviews(terms) && Running(s, y, terms, damage.count, 1) && PastKnown(y, terms) && !s.threwKillSwitch
    requires Attempting(call, y, terms)
    modifies damage`count
    ensures step.Some? && MayAct(y, step.value, terms) && step.value.IsAttempt() && step.value.call == call
    ensures r.None? ==> AnswerOf(step.value).Some?
    ensures Settles(t, Moved(y, step, terms.base), terms, damage.count, r) && SameRun(t, s)
  {
    var noted, duplicate := MaybeSuppressDuplicate(s.failedToolCalls, call, SomeOutput(s, terms));
    match duplicate {
      case Err(error) =>
        t, r, step := s.(failedToolCalls := noted), Some(error), Some(GaveUp(call));
      case Ok(true) =>
        step := Some(Suppressed(call));
        t, r := SuppressCall(s.(failedToolCalls := noted), call, terms, y, damage.count);
      case Ok(false) =>
        ghost var taken;
        t, r, taken := OpenAndExecute(s, call, terms, damage, y);
        step := Some(taken);
    }
  }

  /** Rejects a tool that must not run on a repeated attempt, or opens the journal step and runs the call. */
  method OpenAndExecute(s: Turn, call: ToolCall, terms: Terms, damage: DamageCounter,
                        ghost y: Tally)
    returns (t: Turn, r: Option<RunError>, ghost step: Event)
    requires KnowsPreviews(terms) && Running(s, y, terms, damage.count, 1) && PastKnown(y, terms) && !s.threwKillSwitch
    requires Attempting(call, y, terms) && Signature(call) !in y.tries
    modifies damage`count
    ensures MayAct(y, step, terms) && step.IsAttempt() && step.call == call && (r.None? ==> step.Executed?)
    ensures Settles(t, Advance(y, step, terms.base), terms, damage.count, r) && SameRun(t, s)
  {
    t, r := OpenStep(s, call, terms, y, damage.count);
    step := Rejected(call);
    if r.None? {
      t, r, step := ExecuteCall(t, call, terms, damage, y);
    }
  }

  method OpenStep(s: Turn, call: ToolCall, terms: Terms, ghost y: Tally, ghost damage: nat)
    returns (t: Turn, r: Option<RunError>)
    requires Running(s, y, terms, damage, 1) && PastKnown(y, terms) && !s.threwKillSwitch
    requires Attempting(call, y, terms) && Signature(call) !in y.tries
    ensures SameRun(t, s) && (r.None? ==> Opened(t, call, y, terms, damage))
    ensures r.Some? ==>
              && MayAct(y, Rejected(call), terms)
              && Settles(t, Advance(y, Rejected(call), terms.base), terms, damage, r)
  {
    var rows;
    rows, r := RejectUnsupportedExactOnceTool(s.journal, terms, s.toolCallCount, call, SomeOutput(s, terms));
    t := s.(journal := rows);
    if r.Some? {
      Turned(s, t, r.value, call, y, terms, damage);
    } else {
      rows := PersistStepStarted(rows, terms.durable, s.toolCallCount, call);
      t := s.(journal := rows);
      StepBooked(terms, y.rows, s.toolCallCount, call, Started);
      assert t.(journal := s.journal) == s;
    }
  }

  /** A rejected call is journaled as failed, and ends the turn. */
  lemma Turned(s: Turn, t: Turn, e: RunError, call: ToolCall, y: Tally, terms: Terms, damage: nat)
    requires Running(s, y, terms, damage, 1) && PastKnown(y, terms) && !s.threwKillSwitch
    requires Attempting(call, y, terms) && Signature(call) !in y.tries
    requires terms.repeated && ToolReliabilityClass(call).UnsupportedExactOnce?
    requires t == s.(journal := WithStep(terms, y.rows, StepRow(s.toolCallCount, call, StepFailed)))
    requires e == UnsupportedTool(call.name, SomeOutput(s, terms))
    ensures MayAct(y, Rejected(call), terms)
    ensures Settles(t, Advance(y, Rejected(call), terms.base), terms, damage, Some(e))
  {
    StepBooked(terms, y.rows, s.toolCallCount, call, StepFailed);
  }
}
