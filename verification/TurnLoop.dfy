/**
 The loops of the agent turn, `run_turn` and `run_turn_streaming`: gates, calls of the model, and the
 rounds of tool calls it requests.  What the model answers is arbitrary; what the gates see is given by
 `sights`, what the inspector and the plan validator find by `inspect` and `denies`, and when the cancel
 token fires and the event channel closes by `fired` and `shut`.
 */
module TurnLoop {
  import opened Wrappers
  import opened Seqs
  import opened CircuitBreakers
  import opened DamageCounters
  import opened TurnTrace
  import opened StreamAssembly
  import opened Previews
  import opened TurnSteps

  datatype RunContext = RunContext(recursionDepth: nat, toolCallCount: nat, totalTokens: nat, totalCost: real)

  datatype RunResult = RunResult(output: Option<string>, toolCallsMade: nat, totalTokens: nat, totalCost: real,
                                 haltedBy: Option<RunError>)

  /** A pass of the loop ends the turn with a result, or the loop comes round. */
  type Verdict = Option<Result<RunResult, RunError>>

  datatype Pricing = Pricing(inputPer1k: real, outputPer1k: real)

  /** Prices are per thousand tokens. */
  ghost predicate Priced(cost: real, usage: Usage, pricing: Pricing) {
    1000.0 * cost == usage.promptTokens as real * pricing.inputPer1k
                     + usage.completionTokens as real * pricing.outputPer1k
  }

  method PriceCall(usage: Usage, pricing: Pricing) returns (cost: real)
    ensures Priced(cost, usage, pricing)
  {
    cost := usage.promptTokens as real * pricing.inputPer1k / 1000.0 +
            usage.completionTokens as real * pricing.outputPer1k / 1000.0;
  }

  datatype ModelOutcome = ModelCancelled | ModelError(kind: FailureType) | Completed(response: Response, usage: Usage)

  /** One item of a model stream. */
  datatype StreamItem = Piece(chunk: Chunk) | Done(usage: Usage) | StreamError(kind: FailureType)

  datatype SegmentOutcome =
    | SegmentStopped(error: RunError)
    | SegmentFailed(kind: FailureType, partialOutput: bool)
    | Received(text: string, calls: seq<ToolCall>, usage: Usage)

  function InitialConversation(system: string, history: seq<Message>, user: string): seq<Message> {
    (if system == "" then [] else [Message(System, Text(system), None, None)]) +
    history + [Message(User, Text(user), None, None)]
  }

  /** The conversation starts with the system text, if there is one, and ends with the user's. */
  lemma ConversationBegins(system: string, history: seq<Message>, user: string)
    ensures var c := InitialConversation(system, history, user);
            && c != [] && c[|c| - 1] == Message(User, Text(user), None, None)
            && (if system == "" then c[..|c| - 1] == history
                else |c| >= 2 && c[0] == Message(System, Text(system), None, None) && c[1..|c| - 1] == history)
  {
  }

  // ---------------------------------------------------------------- what holds at the points of the loop

  /** Every step so far obeyed its guard, and `y` accounts for all of them. */
  ghost predicate Chronicled(h: History, y: Tally, terms: Terms) {
    Obeyed(h, terms) && y == Replay(h, terms.base)
  }

  ghost predicate Prepared(terms: Terms) {
    KnowsPreviews(terms) && terms.StartsSettled()
  }

  /** Whenever the loop comes round. */
  ghost predicate AtLoopHead(s: Turn, y: Tally, terms: Terms, damage: nat) {
    && Running(s, y, terms, damage, 0) && y.stage.AtRest()
    && s.recursionDepth == terms.startDepth + y.asks && !s.threwKillSwitch
  }

  /** Since the model was last asked, nothing has been done. */
  ghost predicate AfterAsking(s: Turn, y: Tally, terms: Terms, damage: nat) {
    && Running(s, y, terms, damage, 0)
    && y.asks > 0 && y.roundSuccesses == 0
    && s.recursionDepth + 1 == terms.startDepth + y.asks && !s.threwKillSwitch
  }

  /** The model has answered, and nothing has been done about it. */
  ghost predicate Holding(s: Turn, response: Response, y: Tally, terms: Terms, damage: nat) {
    && AfterAsking(s, y, terms, damage)
    && y.stage == if response.RequestsTools() then Owing(response) else Finished(response)
  }

  /** What stopped a turn, if it did not end with an answer. */
  function Stopper(r: Result<RunResult, RunError>): Option<RunError> {
    if r.Err? then Some(r.error) else r.value.haltedBy
  }

  /**
   The output of a turn: the latest text that was kept or, on the stream, all of them, which is nothing
   if they are empty and the last answer has no text.
   */
  function FinalOutput(y: Tally, terms: Terms): Option<string> {
    if !terms.streaming then y.output
    else if y.gathered == "" && !(y.stage.Finished? && y.stage.response.TextOnly?) then None
    else Some(y.gathered)
  }

  /**
   How a turn can end.  It succeeds without qualification exactly when the model's last answer
   requested no tools and was let through; it is halted with some output only by a closed gate.
   */
  ghost predicate Ends(r: Result<RunResult, RunError>, s: Turn, y: Tally, terms: Terms, damage: nat) {
    && Balanced(s, y, terms, damage, 0)
    && match r
       case Err(e) => Explains(e, s, y, terms, damage)
       case Ok(result) =>
         && result.toolCallsMade == s.toolCallsMade && result.totalCost == s.totalCost
         && result.totalTokens == s.totalTokens && !s.threwKillSwitch
         && match result.haltedBy
            case None => y.stage.Finished? && result.output == FinalOutput(y, terms)
            case Some(e) =>
              && e.RaisedAtGate() && GateBlocks(e, s, y, terms, damage)
              && result.output.Some? && result.output == FinalOutput(y, terms)
              && y.stage.AtRest() && !IsCut(y.stage, terms)
  }

  ghost predicate Passed(verdict: Verdict, s: Turn, y: Tally, terms: Terms, damage: nat) {
    match verdict
    case None => AtLoopHead(s, y, terms, damage)
    case Some(r) => Ends(r, s, y, terms, damage)
  }

  /** `later` goes on from `h`. */
  ghost predicate GoesOnFrom(later: History, h: History) {
    later == h || (later.Then? && GoesOnFrom(later.past, h))
  }

  lemma {:induction false} GoesOnFurther(c: History, b: History, a: History)
    requires GoesOnFrom(c, b) && GoesOnFrom(b, a)
    ensures GoesOnFrom(c, a)
  {
    if c != b {
      GoesOnFurther(c.past, b, a);
    }
  }

  // ---------------------------------------------------------------- gates

  datatype Gate = BreakerGate | RecursionGate | DamageGate | SpendingGate | KillSwitchGate | KillGate

  const GATES: seq<Gate> := [BreakerGate, RecursionGate, DamageGate, SpendingGate, KillSwitchGate, KillGate]

  ghost predicate IsOpen(gate: Gate, allowed: bool, s: Turn, terms: Terms, damage: nat, sight: Sight) {
    match gate
    case BreakerGate => allowed
    case RecursionGate => s.recursionDepth < terms.maxDepth
    case DamageGate => damage < terms.threshold
    case SpendingGate => terms.dailySpend + s.totalCost <= terms.cap
    case KillSwitchGate => !sight.flagged && sight.authority.Clear?
    case KillGate => !sight.closed
  }

  ghost predicate AllOpen(allowed: bool, s: Turn, terms: Terms, damage: nat, sight: Sight) {
    && IsOpen(BreakerGate, allowed, s, terms, damage, sight) && IsOpen(RecursionGate, allowed, s, terms, damage, sight)
    && IsOpen(DamageGate, allowed, s, terms, damage, sight) && IsOpen(SpendingGate, allowed, s, terms, damage, sight)
    && IsOpen(KillSwitchGate, allowed, s, terms, damage, sight) && IsOpen(KillGate, allowed, s, terms, damage, sight)
  }

  function GateOf(e: RunError): Option<Gate> {
    match e
    case CircuitBreakerOpen => Some(BreakerGate)
    case RecursionDepthExceeded(_, _) => Some(RecursionGate)
    case DamageThreshold(_, _) => Some(DamageGate)
    case SpendingCapExceeded(_, _) => Some(SpendingGate)
    case KillSwitchActive => Some(KillSwitchGate)
    case AgentPaused => Some(KillSwitchGate)
    case AgentQuarantined => Some(KillSwitchGate)
    case PlatformKilled => Some(KillSwitchGate)
    case KillGateClosed => Some(KillGate)
    case _ => None
  }

  method CheckKillState(sight: Sight) returns (r: Option<RunError>)
    ensures r.None? <==> !sight.flagged && sight.authority.Clear?
    ensures r.Some? ==> GateOf(r.value) == Some(KillSwitchGate)
    ensures r == Some(KillSwitchActive) <==> sight.flagged
    ensures r == Some(AgentPaused) ==> sight.authority.Pause?
    ensures r == Some(AgentQuarantined) ==> sight.authority.Quarantine?
    ensures r == Some(PlatformKilled) ==> sight.authority.KillAllAgents?
  {
    if sight.flagged {
      return Some(KillSwitchActive);
    }
    match sight.authority
    case Clear => r := None;
    case Pause => r := Some(AgentPaused);
    case Quarantine => r := Some(AgentQuarantined);
    case KillAllAgents => r := Some(PlatformKilled);
  }

  /** The clock is read, and never goes back. */
  function GateTime(clock: nat, sight: Sight): (now: nat)
    ensures clock <= now && sight.now <= now && (now == clock || now == sight.now)
  {
    if sight.now < clock then clock else sight.now
  }

  /**
   The gates are checked in a fixed order.  The error is that of the first closed one: all gates
   before it are open, it is closed, and the log of checks ends with it.
   */
  method CheckGates(s: Turn, terms: Terms, sight: Sight, breaker: CircuitBreaker, damage: DamageCounter)
    returns (r: Option<RunError>, checks: seq<Gate>)
    requires breaker.Valid() && damage.threshold == terms.threshold
    modifies breaker
    ensures breaker.Valid() && breaker.log == old(breaker.log) && breaker.clock == GateTime(old(breaker.clock), sight)
    ensures var allowed := Allows(breaker.log, breaker.threshold, breaker.cooldown, breaker.clock);
            && checks != [] && checks <= GATES
            && (forall i :: 0 <= i < |checks| - 1 ==> IsOpen(GATES[i], allowed, s, terms, damage.count, sight))
            && (r.None? ==> checks == GATES)
            && (r.None? <==> AllOpen(allowed, s, terms, damage.count, sight))
            && (r.Some? ==> GateOf(r.value) == Some(GATES[|checks| - 1])
                            && !IsOpen(GATES[|checks| - 1], allowed, s, terms, damage.count, sight))
    ensures r.Some? ==> r.value.RaisedAtGate() && SeesClosed(r.value, s, terms, damage.count, sight)
  {
    checks := [BreakerGate];
    var allowed := breaker.AllowsCall(GateTime(breaker.clock, sight));
    if !allowed {
      return Some(CircuitBreakerOpen), checks;
    }
    checks := checks + [RecursionGate];
    if s.recursionDepth >= terms.maxDepth {
      return Some(RecursionDepthExceeded(s.recursionDepth, terms.maxDepth)), checks;
    }
    checks := checks + [DamageGate];
    if damage.IsHalted() {
      return Some(DamageThreshold(damage.count, damage.threshold)), checks;
    }
    checks := checks + [SpendingGate];
    if terms.dailySpend + s.totalCost > terms.cap {
      return Some(SpendingCapExceeded(terms.dailySpend + s.totalCost, terms.cap)), checks;
    }
    checks := checks + [KillSwitchGate];
    r := CheckKillState(sight);
    if r.Some? {
      return;
    }
    checks := checks + [KillGate];
    r := if sight.closed then Some(KillGateClosed) else None;
  }

  /** As `GateBlocks`, for what the gates see now. */
  ghost predicate SeesClosed(e: RunError, s: Turn, terms: Terms, damage: nat, sight: Sight) {
    && (e.RecursionDepthExceeded? ==> e.depth == s.recursionDepth && e.max == terms.maxDepth)
    && (e.DamageThreshold? ==> e.count == damage && e.threshold == terms.threshold)
    && (e.SpendingCapExceeded? ==> e.spent == terms.dailySpend + s.totalCost && e.cap == terms.cap)
    && (e.KillSwitchActive? ==> sight.flagged)
    && (e.AgentPaused? ==> sight.authority.Pause?)
    && (e.AgentQuarantined? ==> sight.authority.Quarantine?)
    && (e.PlatformKilled? ==> sight.authority.KillAllAgents?)
  }

  /** The top of both loops: nothing but cancellation, a closed stream or a closed gate stops the turn here. */
  method PassGates(s: Turn, terms: Terms, breaker: CircuitBreaker, damage: DamageCounter, ghost y: Tally)
    returns (stop: Option<RunError>, looks: nat)
    requires AtLoopHead(s, y, terms, damage.count) && breaker.Valid() && damage.threshold == terms.threshold
    modifies breaker
    ensures breaker.Valid() && breaker.log == old(breaker.log)
    ensures stop.None? ==>
              && MayAsk(y, Asked(s.conversation, s.journal), terms)
              && breaker.clock == GateTime(old(breaker.clock), terms.sights(y.asks))
              && Allows(breaker.log, breaker.threshold, breaker.cooldown, breaker.clock)
    ensures stop.Some? ==> Explains(stop.value, s.(looks := looks), y, terms, damage.count)
    ensures terms.cancellable && terms.fired(s.looks) ==> stop == Some(Cancelled)
    ensures terms.streaming && terms.shut(s.looks + 1) ==> stop == Some(Cancelled) || stop == Some(StreamCancelled)
    ensures terms.streaming && terms.shut(s.looks + 2) ==> stop.Some?
    ensures stop == Some(Cancelled) ==> terms.fired(s.looks)
    ensures stop.Some? && stop.value.CircuitBreakerOpen? ==>
              !Allows(breaker.log, breaker.threshold, breaker.cooldown, breaker.clock)
  {
    stop, looks := EnsureNotCancelled(terms, s.looks);
    if stop.Some? {
      StoppedAtHead(s, looks, stop.value, y, terms, damage.count);
      return;
    }
    stop, looks := SendStreamEvent(terms, looks);
    if stop.Some? {
      StoppedAtHead(s, looks, stop.value, y, terms, damage.count);
      return;
    }
    var checks;
    stop, checks := CheckGates(s, terms, terms.sights(s.recursionDepth - terms.startDepth), breaker, damage);
    if stop.Some? {
      ClosedAtHead(s, looks, stop.value, GATES[|checks| - 1], y, terms, damage.count);
      return;
    }
    OpenAtHead(s, y, terms, damage.count);
    stop, looks := SendStreamEvent(terms, looks);
    if stop.Some? {
      StoppedAtHead(s, looks, stop.value, y, terms, damage.count);
    }
  }

  lemma StoppedAtHead(s: Turn, looks: nat, e: RunError, y: Tally, terms: Terms, damage: nat)
    requires AtLoopHead(s, y, terms, damage) && Stopped(e, terms, looks)
    ensures Explains(e, s.(looks := looks), y, terms, damage)
  {
  }

  lemma ClosedAtHead(s: Turn, looks: nat, e: RunError, gate: Gate, y: Tally, terms: Terms, damage: nat)
    requires AtLoopHead(s, y, terms, damage) && e.RaisedAtGate() && SeesClosed(e, s, terms, damage, terms.sights(y.asks))
    requires GateOf(e) == Some(gate)
    requires gate != BreakerGate ==> !IsOpen(gate, true, s, terms, damage, terms.sights(y.asks))
    ensures Explains(e, s.(looks := looks), y, terms, damage)
  {
  }

  lemma OpenAtHead(s: Turn, y: Tally, terms: Terms, damage: nat)
    requires AtLoopHead(s, y, terms, damage) && AllOpen(true, s, terms, damage, terms.sights(y.asks))
    ensures MayAsk(y, Asked(s.conversation, s.journal), terms)
  {
  }

  // ---------------------------------------------------------------- one round of tool calls

  /** The validator never denies a plan of fewer than two calls, so a refusal is always of two or more. */
  method ValidatePlan(calls: seq<ToolCall>, n: nat, terms: Terms) returns (denied: Option<string>)
    ensures denied == terms.Denial(n, calls)
    ensures denied.Some? ==> |calls| >= 2
  {
    denied := if |calls| >= 2 then terms.denies(n, calls) else None;
  }

  method DeniedAnswers(calls: seq<ToolCall>, reason: string) returns (errors: seq<Message>)
    ensures errors == MessagesOf(Refused(calls, reason))
  {
    errors := [];
    for i := 0 to |calls|
      invariant |errors| == i
      invariant forall k :: 0 <= k < i ==> errors[k] == AnswerMessage(calls[k], PlanDenied(reason))
    {
      errors := errors + [AnswerMessage(calls[i], PlanDenied(reason))];
    }
  }

  /** Feeds a denied plan back to the model: one error per call, and one failure. */
  method DenyPlan(s: Turn, calls: seq<ToolCall>, reason: string, terms: Terms, ghost y: Tally,
                  ghost damage: nat)
    returns (t: Turn, r: Option<RunError>)
    requires Running(s, y, terms, damage, 0) && y.asks > 0 && y.stage == Working(calls, None)
    requires terms.Denial(y.asks, calls) == Some(reason) && !s.threwKillSwitch
    ensures MayAct(y, Refused(calls, reason), terms)
    ensures Settles(t, Advance(y, Refused(calls, reason), terms.base), terms, damage, r)
    ensures SameRun(t, s)
  {
    var errors := DeniedAnswers(calls, reason);
    var count;
    count, r := NoteConsecutiveToolFailure(s.consecutiveToolFailures, SomeOutput(s, terms));
    t := s.(conversation := s.conversation + errors, consecutiveToolFailures := count);
    Associate(terms.initial, y.transcript, errors);
  }

  lemma LogAttempt(h: History, y: Tally, step: Event, terms: Terms)
    requires Chronicled(h, y, terms) && MayAct(y, step, terms) && step.IsAttempt()
    ensures var y' := Advance(y, step, terms.base);
            && Chronicled(Then(h, step), y', terms)
            && y'.asks == y.asks && y'.spent == y.spent && y'.attempts == y.attempts + 1
            && (AnswerOf(step).Some? ==> y.stage.Working? && y.stage.calls != []
                                         && y'.stage == Working(y.stage.calls[1..], AnswerOf(step)))
  {
  }

  /** In the middle of a round, with these calls still to be made. */
  ghost predicate InRound(s: Turn, h: History, y: Tally, terms: Terms, damage: nat, left: seq<ToolCall>) {
    && OnRound(s, h, y, terms, damage, left)
    && (y.stage.latest.None? ==> terms.Denial(y.asks, left).None?)
  }

  /** The same, before the plan has been validated. */
  ghost predicate OnRound(s: Turn, h: History, y: Tally, terms: Terms, damage: nat, left: seq<ToolCall>) {
    && Running(s, y, terms, damage, 0) && Chronicled(h, y, terms) && !s.threwKillSwitch
    && y.asks > 0 && y.stage.Working? && y.stage.calls == left
  }

  lemma PastIsKnown(h: History, terms: Terms)
    requires Obeyed(h, terms) && terms.StartsSettled()
    ensures PastKnown(Replay(h, terms.base), terms)
  {
    HistoryFacts(h, terms);
  }

  /** Makes the next call of a round. */
  method NextCall(s: Turn, left: seq<ToolCall>, terms: Terms, damage: DamageCounter,
                  ghost h: History, ghost y: Tally)
    returns (t: Turn, r: Option<RunError>, ghost h': History, ghost y': Tally)
    requires Prepared(terms) && left != [] && InRound(s, h, y, terms, damage.count, left)
    modifies damage`count
    ensures Chronicled(h', y', terms) && Settles(t, y', terms, damage.count, r) && SameRun(t, s)
    ensures h' == h || (h'.Then? && h'.past == h && h'.event.IsAttempt() && h'.event.call == left[0])
    ensures y'.asks == y.asks && y'.spent == y.spent
    ensures r.None? ==> InRound(t, h', y', terms, damage.count, left[1..]) && y'.attempts == y.attempts + 1
  {
    ghost var step;
    h', y' := h, y;
    PastIsKnown(h, terms);
    t, r, step := RunCall(s, left[0], terms, damage, y);
    if step.Some? {
      LogAttempt(h, y, step.value, terms);
      h', y' := Then(h, step.value), Advance(y, step.value, terms.base);
    }
  }

  /** Works through the calls of a plan in order: one attempt each, until an error ends the turn. */
  method RunCalls(s: Turn, calls: seq<ToolCall>, terms: Terms, damage: DamageCounter,
                  ghost h: History, ghost y: Tally)
    returns (t: Turn, r: Option<RunError>, ghost h': History, ghost y': Tally)
    requires Prepared(terms) && InRound(s, h, y, terms, damage.count, calls)
    modifies damage`count
    ensures Chronicled(h', y', terms) && Settles(t, y', terms, damage.count, r) && GoesOnFrom(h', h)
    ensures y'.asks == y.asks && y'.spent == y.spent && SameRun(t, s)
    ensures r.None? ==> InRound(t, h', y', terms, damage.count, []) && y'.attempts == y.attempts + |calls|
  {
    t, r, h', y' := s, None, h, y;
    var left := calls;
    while left != []
      invariant InRound(t, h', y', terms, damage.count, left) && r.None? && GoesOnFrom(h', h)
      invariant y'.asks == y.asks && y'.spent == y.spent && SameRun(t, s)
      invariant y'.attempts + |left| == y.attempts + |calls|
      decreases |left|
    {
      t, r, h', y' := NextCall(t, left, terms, damage, h', y');
      if r.Some? {
        return;
      }
      left := left[1..];
    }
  }

  /** Answers the calls of a plan: all of them with the denial, or one by one. */
  method CarryOut(s: Turn, calls: seq<ToolCall>, denied: Option<string>, terms: Terms,
                  damage: DamageCounter, ghost h: History, ghost y: Tally)
    returns (t: Turn, r: Option<RunError>, ghost h': History, ghost y': Tally)
    requires Prepared(terms) && OnRound(s, h, y, terms, damage.count, calls) && y.stage == Working(calls, None)
    requires denied == terms.Denial(y.asks, calls)
    modifies damage`count
    ensures Chronicled(h', y', terms) && Settles(t, y', terms, damage.count, r) && GoesOnFrom(h', h)
    ensures y'.asks == y.asks && y'.spent == y.spent && SameRun(t, s)
    ensures r.None? ==> InRound(t, h', y', terms, damage.count, [])
  {
    if denied.Some? {
      ghost var refused := Refused(calls, denied.value);
      t, r := DenyPlan(s, calls, denied.value, terms, y, damage.count);
      h', y' := Then(h, refused), Advance(y, refused, terms.base);
    } else {
      t, r, h', y' := RunCalls(s, calls, terms, damage, h, y);
    }
  }

  /**
   Plans the calls the model requested and works through them, unless the validator denies the plan.
   Without an error all of them have been answered, and the loop comes round one level deeper.
   */
  method RunToolRound(s: Turn, response: Response, terms: Terms, damage: DamageCounter,
                      ghost h: History, ghost y: Tally)
    returns (t: Turn, r: Option<RunError>, ghost h': History, ghost y': Tally)
    requires Prepared(terms) && Holding(s, response, y, terms, damage.count) && response.RequestsTools()
    requires Chronicled(h, y, terms)
    modifies damage`count
    ensures Chronicled(h', y', terms) && Settles(t, y', terms, damage.count, r) && !t.threwKillSwitch
    ensures y'.asks == y.asks && y'.spent == y.spent
    ensures GoesOnFrom(h', Then(h, Planned(response.PlanText(), response.PlanCalls())))
    ensures r.None? ==> AtLoopHead(t, y', terms, damage.count) && t.recursionDepth == s.recursionDepth + 1
  {
    var calls := response.PlanCalls();
    var denied := ValidatePlan(calls, s.recursionDepth + 1 - terms.startDepth, terms);
    ghost var planned := Planned(response.PlanText(), calls);
    h', y' := Then(h, planned), Advance(y, planned, terms.base);
    t := s.(conversation := s.conversation + [RequestMessage(response.PlanText(), calls)]);
    LogPlan(s, response, h, y, terms, damage.count);
    t, r, h', y' := CarryOut(t, calls, denied, terms, damage, h', y');
    if r.None? {
      ComesRound(t, h', y', terms, damage.count);
      t := t.(recursionDepth := t.recursionDepth + 1);
    }
  }

  lemma ComesRound(s: Turn, h: History, y: Tally, terms: Terms, damage: nat)
    requires InRound(s, h, y, terms, damage, []) && s.recursionDepth + 1 == terms.startDepth + y.asks
    ensures var t := s.(recursionDepth := s.recursionDepth + 1);
            AtLoopHead(t, y, terms, damage) && Settles(t, y, terms, damage, None)
  {
  }

  lemma LogPlan(s: Turn, response: Response, h: History, y: Tally, terms: Terms, damage: nat)
    requires Holding(s, response, y, terms, damage) && response.RequestsTools() && Chronicled(h, y, terms)
    ensures var text, calls := response.PlanText(), response.PlanCalls();
            var t := s.(conversation := s.conversation + [RequestMessage(text, calls)]);
            var y' := Advance(y, Planned(text, calls), terms.base);
            && OnRound(t, Then(h, Planned(text, calls)), y', terms, damage, calls)
            && y'.stage == Working(calls, None) && y'.asks == y.asks && y'.spent == y.spent
  {
    var e := Planned(response.PlanText(), response.PlanCalls());
    Associate(terms.initial, y.transcript, MessagesOf(e));
    assert y.rows + RowsOf(e, terms.base + y.attempts + 1) == y.rows;
  }

  // ---------------------------------------------------------------- the model's answer

  function Summary(s: Turn, output: Option<string>, haltedBy: Option<RunError>): RunResult {
    RunResult(output, s.toolCallsMade, s.totalTokens, s.totalCost, haltedBy)
  }

  /** Inspects the text that came with an answer.  A kill-all verdict throws the kill switch; other text is kept. */
  method InspectText(s: Turn, response: Response, verdict: Inspection, streaming: bool)
    returns (t: Turn, stop: Option<RunError>)
    requires !s.threwKillSwitch
    ensures stop == if response.HasText() && verdict.KillAll? then Some(CredentialExfiltration) else None
    ensures t == Inspected(s, response, verdict, streaming)
  {
    t, stop := s, None;
    if response.TextOnly? || response.Mixed? {
      var final := response.text;
      match verdict {
        case KillAll => return s.(threwKillSwitch := true), Some(CredentialExfiltration);
        case Warning(redacted) => final := redacted;
        case Clean =>
      }
      t := if streaming then s.(accumulated := s.accumulated + final) else s.(output := Some(final));
    }
  }

  /** The turn when the text of an answer has been inspected. */
  ghost function Inspected(s: Turn, response: Response, verdict: Inspection, streaming: bool): Turn {
    var e := Answered(response, 0.0, 0, verdict);
    match KeptText(e)
    case None => s.(threwKillSwitch := e.IsKilled())
    case Some(text) => if streaming then s.(accumulated := s.accumulated + text) else s.(output := Some(text))
  }

  /** What both loops do with an answer that passed: they finish, or run the tools it requests. */
  method ActOn(s: Turn, response: Response, terms: Terms, damage: DamageCounter, ghost h: History, ghost y: Tally)
    returns (verdict: Verdict, t: Turn, ghost h': History, ghost y': Tally)
    requires Prepared(terms) && Holding(s, response, y, terms, damage.count) && Chronicled(h, y, terms)
    modifies damage`count
    ensures Chronicled(h', y', terms) && Passed(verdict, t, y', terms, damage.count) && GoesOnFrom(h', h)
    ensures y'.asks == y.asks && y'.spent == y.spent
    ensures verdict.None? ==> response.RequestsTools() && t.recursionDepth == s.recursionDepth + 1
    ensures verdict.Some? && Stopper(verdict.value).Some? ==>
              verdict.value.Err? && !verdict.value.error.RaisedAtGate() && !verdict.value.error.ModelFailed?
  {
    t, h', y' := s, h, y;
    if !response.RequestsTools() {
      var output := if !terms.streaming then s.output else if response.Empty? then Streamed(s) else Some(s.accumulated);
      return Some(Ok(Summary(s, output, None))), t, h', y';
    }
    var stop;
    t, stop, h', y' := RunToolRound(s, response, terms, damage, h, y);
    GoesOnFurther(h', Then(h, Planned(response.PlanText(), response.PlanCalls())), h);
    verdict := if stop.Some? then Some(Err(stop.value)) else None;
  }

  function Streamed(s: Turn): Option<string> {
    if s.accumulated == "" then None else Some(s.accumulated)
  }

  // ---------------------------------------------------------------- calls of the model

  /** The call failed, or it was cancelled before it could report. */
  predicate FailsWith(verdict: Verdict, heard: seq<CallRecord>) {
    && verdict.Some? && verdict.value.Err?
    && match verdict.value.error
       case ModelFailed(_) => |heard| == 1 && heard[0].Failed?
       case Cancelled => heard == []
       case StreamCancelled => heard == []
       case _ => false
  }

  predicate IsModelFailure(verdict: Verdict) {
    verdict.Some? && verdict.value.Err? && verdict.value.error.ModelFailed?
  }

  /**
   What one call of the model comes to.  Without an answer nothing is billed, and the breaker hears of
   a failure, once, unless the call was cancelled.  With an answer the breaker hears of it once, its
   cost is added once, and the history goes on from it.
   */
  ghost predicate ComesTo(answer: Option<Response>, cost: real, tokens: nat, verdict: Verdict, heard: seq<CallRecord>,
                          terms: Terms, h: History, y: Tally, h': History, y': Tally)
  {
    && y'.asks == y.asks
    && if answer.None? then FailsWith(verdict, heard) && h' == h && y' == y
       else
         && heard == [Succeeded] && !IsModelFailure(verdict) && y'.spent == y.spent + cost
         && GoesOnFrom(h', Then(h, Answered(answer.value, cost, tokens, terms.Verdict(y.asks, answer.value))))
         && (verdict.None? ==> answer.value.RequestsTools())
  }

  /** Books a completion and acts on it. */
  method TakeAnswer(s: Turn, response: Response, usage: Usage, cost: real, terms: Terms, breaker: CircuitBreaker,
                    damage: DamageCounter, ghost h: History, ghost y: Tally)
    returns (verdict: Verdict, t: Turn, ghost h': History, ghost y': Tally)
    requires Prepared(terms) && breaker.Valid() && Chronicled(h, y, terms)
    requires AfterAsking(s, y, terms, damage.count) && y.stage.Waiting? && y.lastCost == 0.0
    requires terms.streaming ==> s.sent == y.spoken + response.Words()
    modifies breaker, damage`count
    ensures breaker.Valid() && breaker.log == old(breaker.log) + [Succeeded]
    ensures Chronicled(h', y', terms) && Passed(verdict, t, y', terms, damage.count)
    ensures ComesTo(Some(response), cost, usage.totalTokens, verdict, [Succeeded], terms, h, y, h', y')
    ensures verdict.None? ==> t.recursionDepth == s.recursionDepth + 1
    ensures verdict.Some? ==> Stopper(verdict.value) != Some(CircuitBreakerOpen)
  {
    breaker.RecordSuccess();
    var stop;
    t, stop, h', y' := BookAnswer(s, response, usage, cost, terms, h, y, damage.count);
    if stop.Some? {
      verdict := Some(Err(stop.value));
    } else {
      verdict, t, h', y' := ActOn(t, response, terms, damage, h', y');
    }
  }

  /** Books tokens and cost of an answer, and has its text inspected. */
  method BookAnswer(s: Turn, response: Response, usage: Usage, cost: real, terms: Terms, ghost h: History,
                    ghost y: Tally, ghost damage: nat)
    returns (t: Turn, stop: Option<RunError>, ghost h': History, ghost y': Tally)
    requires AfterAsking(s, y, terms, damage) && y.stage.Waiting? && y.lastCost == 0.0 && Chronicled(h, y, terms)
    requires terms.streaming ==> s.sent == y.spoken + response.Words()
    ensures h' == Then(h, Answered(response, cost, usage.totalTokens, terms.Verdict(y.asks, response)))
    ensures Chronicled(h', y', terms) && y'.asks == y.asks && y'.spent == y.spent + cost
    ensures t.recursionDepth == s.recursionDepth
    ensures stop.Some? ==> stop.value == CredentialExfiltration
    ensures Judged(t, response, stop.Some?, y', terms, damage)
  {
    var n: nat := s.recursionDepth + 1 - terms.startDepth;
    t := s.(totalTokens := s.totalTokens + usage.totalTokens, totalCost := s.totalCost + cost);
    var judgement := if response.TextOnly? || response.Mixed? then terms.inspect(n, response.text) else Clean;
    assert judgement == terms.Verdict(y.asks, response);
    t, stop := InspectText(t, response, judgement, terms.streaming);
    LogAnswer(s, t, response, cost, usage.totalTokens, h, y, terms, damage);
    ghost var answered := Answered(response, cost, usage.totalTokens, judgement);
    h', y' := Then(h, answered), Advance(y, answered, terms.base);
  }

  lemma LogAnswer(s: Turn, t: Turn, response: Response, cost: real, tokens: nat, h: History, y: Tally, terms: Terms,
                  damage: nat)
    requires AfterAsking(s, y, terms, damage) && y.stage.Waiting? && y.lastCost == 0.0 && Chronicled(h, y, terms)
    requires t == Inspected(s.(totalTokens := s.totalTokens + tokens, totalCost := s.totalCost + cost), response,
                            terms.Verdict(y.asks, response), terms.streaming)
    requires terms.streaming ==> s.sent == y.spoken + response.Words()
    ensures var e := Answered(response, cost, tokens, terms.Verdict(y.asks, response));
            var y' := Advance(y, e, terms.base);
            && Chronicled(Then(h, e), y', terms) && y'.spent == y.spent + cost && y'.asks == y.asks
            && Judged(t, response, e.IsKilled(), y', terms, damage)
  {
    var e := Answered(response, cost, tokens, terms.Verdict(y.asks, response));
    AnswerAdvances(y, e, terms);
    var y' := Advance(y, e, terms.base);
    assert Chronicled(Then(h, e), y', terms);
    AnswerBalances(s, t, e, y, y', terms, damage);
  }

  /** An answer that was condemned ends the turn; any other is held to be acted on. */
  ghost predicate Judged(t: Turn, response: Response, condemned: bool, y: Tally, terms: Terms, damage: nat) {
    if condemned then Ends(Err(CredentialExfiltration), t, y, terms, damage) else Holding(t, response, y, terms, damage)
  }

  /** What an answer changes in the account. */
  ghost predicate AnsweredBy(y: Tally, e: Event, y': Tally) {
    && e.Answered?
    && y' == y.(stage := y'.stage, spent := y.spent + e.cost, lastCost := e.cost, tokens := y.tokens + e.tokens,
                spoken := y.spoken + e.response.Words(), output := y'.output, gathered := y'.gathered)
    && y'.stage == (if e.IsKilled() then Condemned
                    else if e.response.RequestsTools() then Owing(e.response) else Finished(e.response))
    && match KeptText(e)
       case None => y'.output == y.output && y'.gathered == y.gathered
       case Some(text) => y'.output == Some(text) && y'.gathered == y.gathered + text
  }

  lemma AnswerAdvances(y: Tally, e: Event, terms: Terms)
    requires e.Answered? && y.stage.Waiting?
    ensures AnsweredBy(y, e, Advance(y, e, terms.base))
  {
    assert y.transcript + MessagesOf(e) == y.transcript;
    assert y.rows + RowsOf(e, terms.base + y.attempts + 1) == y.rows;
    assert y.spoken + "" == y.spoken;
  }

  lemma AnswerBalances(s: Turn, t: Turn, e: Event, y: Tally, y': Tally, terms: Terms, damage: nat)
    requires AfterAsking(s, y, terms, damage) && y.stage.Waiting? && AnsweredBy(y, e, y')
    requires t == Inspected(s.(totalTokens := s.totalTokens + e.tokens, totalCost := s.totalCost + e.cost), e.response,
                            e.verdict, terms.streaming)
    requires terms.streaming ==> s.sent == y.spoken + e.response.Words()
    ensures Judged(t, e.response, e.IsKilled(), y', terms, damage)
  {
    assert Balanced(t, y', terms, damage, 0);
  }

  lemma NoAnswer(s: Turn, e: RunError, y: Tally, terms: Terms, damage: nat)
    requires AfterAsking(s, y, terms, damage) && y.stage.Waiting?
    requires e.ModelFailed? || Stopped(e, terms, s.looks)
    requires e.ModelFailed? && !terms.streaming ==> !e.partialOutput
    ensures Ends(Err(e), s, y, terms, damage)
  {
  }

  method NoteModelFailure(kind: FailureType, breaker: CircuitBreaker)
    requires breaker.Valid()
    modifies breaker
    ensures breaker.Valid() && breaker.log == old(breaker.log) + [Failed(kind, breaker.clock)]
  {
    var now: nat := *;
    breaker.RecordClassifiedFailure(kind, if now < breaker.clock then breaker.clock else now);
  }

  method InvokeModel(terms: Terms, looks: nat) returns (outcome: ModelOutcome, pricing: Pricing)
    ensures outcome.ModelCancelled? ==> Stopped(Cancelled, terms, looks)
  {
    outcome, pricing := *, *;
    if outcome.ModelCancelled? && !Stopped(Cancelled, terms, looks) {
      var response: Response, usage: Usage := *, *;
      outcome := Completed(response, usage);
    }
  }

  /** Calls the model and acts on its answer. */
  method CallModel(s: Turn, terms: Terms, breaker: CircuitBreaker, damage: DamageCounter, ghost h: History, ghost y: Tally)
    returns (verdict: Verdict, t: Turn, ghost h': History, ghost y': Tally, ghost heard: seq<CallRecord>,
             ghost answer: Option<Response>, ghost cost: real, ghost usage: Usage, ghost pricing: Pricing)
    requires Prepared(terms) && breaker.Valid() && Chronicled(h, y, terms)
    requires !terms.streaming && AfterAsking(s, y, terms, damage.count) && y.stage.Waiting? && y.lastCost == 0.0
    modifies breaker, damage`count
    ensures breaker.Valid() && breaker.log == old(breaker.log) + heard
    ensures Chronicled(h', y', terms) && Passed(verdict, t, y', terms, damage.count)
    ensures ComesTo(answer, cost, usage.totalTokens, verdict, heard, terms, h, y, h', y')
    ensures answer.Some? ==> Priced(cost, usage, pricing)
    ensures verdict.None? ==> t.recursionDepth == s.recursionDepth + 1
    ensures verdict.Some? ==> Stopper(verdict.value) != Some(CircuitBreakerOpen)
  {
    t, h', y', heard, answer, cost, usage := s, h, y, [], None, 0.0, Usage(0, 0, 0);
    var outcome, prices := InvokeModel(terms, s.looks);
    pricing := prices;
    match outcome
    case ModelCancelled =>
      NoAnswer(s, Cancelled, y, terms, damage.count);
      verdict := Some(Err(Cancelled));
    case ModelError(kind) =>
      NoAnswer(s, ModelFailed(false), y, terms, damage.count);
      NoteModelFailure(kind, breaker);
      heard := [Failed(kind, breaker.clock)];
      verdict := Some(Err(ModelFailed(false)));
    case Completed(response, used) =>
      var price := PriceCall(used, prices);
      heard, answer, cost, usage := [Succeeded], Some(response), price, used;
      verdict, t, h', y' := TakeAnswer(s, response, used, price, terms, breaker, damage, h, y);
  }

  // ---------------------------------------------------------------- streaming

  /** While the next item is awaited, the channel may close and the token may fire. */
  method AwaitItem(terms: Terms, looks: nat) returns (r: Option<RunError>)
    ensures r.Some? ==> Stopped(r.value, terms, looks)
  {
    r := *;
    if r.Some? && !Stopped(r.value, terms, looks) {
      r := None;
    }
  }

  /** A piece of text or the start of a call was among these. */
  ghost predicate SomethingSent(chunks: seq<Chunk>) {
    exists i :: 0 <= i < |chunks| && !chunks[i].ToolCallDelta?
  }

  lemma SentSnoc(chunks: seq<Chunk>, chunk: Chunk)
    ensures SomethingSent(chunks + [chunk]) <==> SomethingSent(chunks) || !chunk.ToolCallDelta?
  {
    var longer := chunks + [chunk];
    assert longer[|chunks|] == chunk && forall i :: 0 <= i < |chunks| ==> longer[i] == chunks[i];
  }

  /** How often token and channel are looked at for these pieces: once for each, and once more to send it. */
  function LooksFor(chunks: seq<Chunk>): nat {
    if chunks == [] then 0
    else LooksFor(chunks[..|chunks| - 1]) + if chunks[|chunks| - 1].ToolCallDelta? then 1 else 2
  }

  /** The look at which a piece is sent. */
  function SendLook(start: nat, chunks: seq<Chunk>, i: nat): nat
    requires i < |chunks|
  {
    start + LooksFor(chunks[..i]) + 1
  }

  /** Every piece that is sent found the channel open. */
  ghost predicate AllGotThrough(terms: Terms, start: nat, chunks: seq<Chunk>) {
    forall i :: 0 <= i < |chunks| && !chunks[i].ToolCallDelta? ==> !terms.shut(SendLook(start, chunks, i))
  }

  lemma LookSnoc(terms: Terms, start: nat, chunks: seq<Chunk>, chunk: Chunk)
    ensures LooksFor(chunks + [chunk]) == LooksFor(chunks) + if chunk.ToolCallDelta? then 1 else 2
    ensures AllGotThrough(terms, start, chunks) && (chunk.ToolCallDelta? || !terms.shut(start + LooksFor(chunks) + 1)) ==>
              AllGotThrough(terms, start, chunks + [chunk])
  {
    var longer := chunks + [chunk];
    assert longer[..|chunks|] == chunks && longer[|chunks|] == chunk;
    if AllGotThrough(terms, start, chunks) && (chunk.ToolCallDelta? || !terms.shut(start + LooksFor(chunks) + 1)) {
      forall i | 0 <= i < |longer| && !longer[i].ToolCallDelta?
        ensures !terms.shut(SendLook(start, longer, i))
      {
        if i < |chunks| {
          SameLook(start, chunks, chunk, i);
        }
      }
    }
  }

  lemma SameLook(start: nat, chunks: seq<Chunk>, chunk: Chunk, i: nat)
    requires i < |chunks|
    ensures (chunks + [chunk])[i] == chunks[i] && SendLook(start, chunks + [chunk], i) == SendLook(start, chunks, i)
  {
    assert (chunks + [chunk])[..i] == chunks[..i];
  }

  /** Reads one streamed answer of the model, forwarding every piece of it: `sent` is the text that got through. */
  method ReceiveSegment(items: seq<StreamItem>, parse: string -> string, terms: Terms, start: nat)
    returns (outcome: SegmentOutcome, looks: nat, sent: string, ghost chunks: seq<Chunk>)
    ensures outcome.SegmentStopped? ==> Stopped(outcome.error, terms, looks)
    ensures |chunks| <= |items| && forall i :: 0 <= i < |chunks| ==> items[i] == Piece(chunks[i])
    ensures outcome.SegmentFailed? ==>
              && |chunks| < |items| && items[|chunks|] == StreamError(outcome.kind)
              && (outcome.partialOutput <==> SomethingSent(chunks))
    ensures !outcome.SegmentStopped? ==> sent == TextOf(chunks)
    ensures terms.streaming && !outcome.SegmentStopped? ==>
              forall i :: 0 <= i < |chunks| && !chunks[i].ToolCallDelta? ==> !terms.shut(SendLook(start, chunks, i))
    ensures outcome.Received? ==>
              && (if |chunks| < |items| then items[|chunks|] == Done(outcome.usage) else outcome.usage == Usage(0, 0, 0))
              && outcome.text == TextOf(chunks)
              && exists drafts :: Gathered(drafts, chunks) && Assembled(outcome.calls, drafts, parse)
  {
    var usage, segment := Usage(0, 0, 0), Segment("", "", false, map[], start);
    chunks := [];
    var i := 0;
    while true
      invariant |chunks| == i <= |items| && forall k :: 0 <= k < i ==> items[k] == Piece(chunks[k])
      invariant Holds(segment, chunks, start, terms)
      decreases |items| - i
    {
      var stop := AwaitItem(terms, segment.looks);
      if stop.Some? {
        return SegmentStopped(stop.value), segment.looks, segment.sent, chunks;
      }
      if i == |items| {
        break;
      }
      match items[i]
      case Done(total) =>
        usage := total;
        break;
      case StreamError(kind) =>
        return SegmentFailed(kind, segment.emitted), segment.looks + 1, segment.sent, chunks;
      case Piece(chunk) =>
        segment, stop := TakePiece(segment, chunk, chunks, start, terms);
        chunks := chunks + [chunk];
        i := i + 1;
        if stop.Some? {
          return SegmentStopped(stop.value), segment.looks, segment.sent, chunks;
        }
    }
    var calls := Assemble(segment.drafts, parse);
    outcome, looks, sent := Received(segment.text, calls, usage), segment.looks + 1, segment.sent;
  }

  /** What has been received of an answer, and what of its text has been sent on. */
  datatype Segment = Segment(text: string, sent: string, emitted: bool, drafts: map<string, Draft>, looks: nat)

  ghost predicate Holds(segment: Segment, chunks: seq<Chunk>, start: nat, terms: Terms) {
    && segment.text == segment.sent == TextOf(chunks) && Gathered(segment.drafts, chunks)
    && (segment.emitted <==> SomethingSent(chunks))
    && segment.looks == start + LooksFor(chunks) && (terms.streaming ==> AllGotThrough(terms, start, chunks))
  }

  /** Adds a piece to the segment and sends it on; fragments of arguments are not sent. */
  method TakePiece(segment: Segment, chunk: Chunk, ghost chunks: seq<Chunk>, ghost start: nat, terms: Terms)
    returns (taken: Segment, stop: Option<RunError>)
    requires Holds(segment, chunks, start, terms)
    ensures stop.None? ==> Holds(taken, chunks + [chunk], start, terms)
    ensures stop.Some? ==> Stopped(stop.value, terms, taken.looks)
    ensures terms.streaming && !chunk.ToolCallDelta? && terms.shut(segment.looks + 1) ==> stop == Some(StreamCancelled)
  {
    SentSnoc(chunks, chunk);
    LookSnoc(terms, start, chunks, chunk);
    assert (chunks + [chunk])[..|chunks|] == chunks;
    var drafts := Gather(segment.drafts, chunk, chunks);
    taken, stop := segment.(drafts := drafts, looks := segment.looks + 1), None;
    if chunk.TextDelta? {
      taken := taken.(text := segment.text + chunk.text);
    }
    if !chunk.ToolCallDelta? {
      var looks;
      stop, looks := SendStreamEvent(terms, taken.looks);
      taken := taken.(emitted := true, looks := looks);
      if stop.None? && chunk.TextDelta? {
        taken := taken.(sent := segment.sent + chunk.text);
      }
    }
    assert TextOf(chunks) + "" == TextOf(chunks);
  }

  /** The answer that a received segment amounts to. */
  function SegmentResponse(text: string, calls: seq<ToolCall>): Response {
    if calls == [] then if text == "" then Empty else TextOnly(text)
    else if text == "" then ToolCalls(calls) else Mixed(text, calls)
  }

  /** The answer has the text and the calls that were received, and the shape that goes with them. */
  lemma SegmentMeaning(text: string, calls: seq<ToolCall>)
    ensures var response := SegmentResponse(text, calls);
            && response.Words() == text && response.PlanCalls() == calls
            && (response.Empty? <==> text == "" && calls == [])
            && (response.TextOnly? <==> text != "" && calls == [])
            && (response.Mixed? <==> text != "" && calls != [])
  {
  }

  /** Forwarding text changes nothing else that is known of the turn. */
  lemma HeardSome(s: Turn, t: Turn, y: Tally, terms: Terms, damage: nat)
    requires AfterAsking(s, y, terms, damage) && y.stage.Waiting? && terms.streaming
    requires t == s.(looks := t.looks, sent := t.sent) && s.sent <= t.sent
    ensures AfterAsking(t, y, terms, damage)
  {
  }

  /** Streams an answer from the model and acts on it.  Streamed answers cost nothing. */
  method StreamModel(s: Turn, terms: Terms, parse: string -> string, breaker: CircuitBreaker, damage: DamageCounter,
                     ghost h: History, ghost y: Tally)
    returns (verdict: Verdict, t: Turn, ghost h': History, ghost y': Tally, ghost heard: seq<CallRecord>,
             ghost answer: Option<Response>, ghost tokens: nat)
    requires Prepared(terms) && breaker.Valid() && Chronicled(h, y, terms)
    requires terms.streaming && s.sent == y.spoken
    requires AfterAsking(s, y, terms, damage.count) && y.stage.Waiting? && y.lastCost == 0.0
    modifies breaker, damage`count
    ensures breaker.Valid() && breaker.log == old(breaker.log) + heard
    ensures Chronicled(h', y', terms) && Passed(verdict, t, y', terms, damage.count)
    ensures ComesTo(answer, 0.0, tokens, verdict, heard, terms, h, y, h', y')
    ensures verdict.None? ==> t.recursionDepth == s.recursionDepth + 1
    ensures verdict.Some? ==> Stopper(verdict.value) != Some(CircuitBreakerOpen)
  {
    t, h', y', heard, answer, tokens := s, h, y, [], None, 0;
    var items: seq<StreamItem> := *;
    var outcome, looks, sent;
    ghost var chunks;
    outcome, looks, sent, chunks := ReceiveSegment(items, parse, terms, s.looks);
    t := s.(looks := looks, sent := s.sent + sent);
    HeardSome(s, t, y, terms, damage.count);
    match outcome
    case SegmentStopped(error) =>
      NoAnswer(t, error, y, terms, damage.count);
      verdict := Some(Err(error));
    case SegmentFailed(kind, emitted) =>
      NoAnswer(t, ModelFailed(emitted), y, terms, damage.count);
      NoteModelFailure(kind, breaker);
      heard := [Failed(kind, breaker.clock)];
      verdict := Some(Err(ModelFailed(emitted)));
    case Received(text, calls, usage) =>
      var response := SegmentResponse(text, calls);
      SegmentMeaning(text, calls);
      heard, answer, tokens := [Succeeded], Some(response), usage.totalTokens;
      var price := PriceCall(usage, Pricing(0.0, 0.0));
      assert price == 0.0;
      verdict, t, h', y' := TakeAnswer(t, response, usage, price, terms, breaker, damage, h, y);
  }

  // ---------------------------------------------------------------- the loops

  function Completions(n: nat): seq<CallRecord> {
    if n == 0 then [] else Completions(n - 1) + [Succeeded]
  }

  /**
   What the breaker has heard when a turn is over: every call of the model but the last has completed,
   and the last one told its outcome, unless it was cancelled.
   */
  ghost predicate Told(r: Result<RunResult, RunError>, heard: seq<CallRecord>, asks: nat) {
    || (heard == Completions(asks) && !IsModelFailure(Some(r)))
    || (asks > 0 && exists last :: heard == Completions(asks - 1) + last && FailsWith(Some(r), last))
  }

  /** What one pass of a loop adds to what the breaker has heard. */
  ghost predicate Adds(verdict: Verdict, heard: seq<CallRecord>, asks: nat, asksNow: nat) {
    if asksNow == asks then verdict.Some? && heard == [] && !IsModelFailure(verdict)
    else asksNow == asks + 1 && (FailsWith(verdict, heard) || (heard == [Succeeded] && !IsModelFailure(verdict)))
  }

  lemma TellOn(log: seq<CallRecord>, heard: seq<CallRecord>, asks: nat, verdict: Verdict, last: seq<CallRecord>,
               asksNow: nat)
    requires heard == Completions(asks) && Adds(verdict, last, asks, asksNow)
    ensures log + heard + last == log + (heard + last)
    ensures if verdict.None? then heard + last == Completions(asksNow) else Told(verdict.value, heard + last, asksNow)
  {
    if asksNow == asks {
      assert heard + last == heard;
    }
  }

  /**
   What is known when a turn is over, whatever ended it: the events obey all promises and bounds, the
   counters are theirs, and an error has its reason.  The turn succeeds without qualification exactly
   when its last event is an answer that requests no tools and the inspector let it through; and it
   panics exactly when its last event is the answer to a call that cannot be shown.
   */
  ghost predicate Concluded(r: Result<RunResult, RunError>, t: Turn, trace: seq<Event>, heard: seq<CallRecord>,
                            terms: Terms, damage: nat)
  {
    var y := TallyOf(trace, terms.base);
    && Lawful(trace, terms) && WithinBounds(y, terms) && Ends(r, t, y, terms, damage) && Told(r, heard, y.asks)
    && (r.Ok? && r.value.haltedBy.None? <==> EndsWithAnswer(trace))
    && (r == Err(CredentialExfiltration) <==> EndsCondemned(trace))
    && (r == Err(Panicked) <==> FinalAnswer(trace).Some? && terms.cut(FinalAnswer(trace).value))
  }

  lemma Conclude(r: Result<RunResult, RunError>, t: Turn, h: History, y: Tally, heard: seq<CallRecord>, terms: Terms,
                 damage: nat)
    requires Chronicled(h, y, terms) && Ends(r, t, y, terms, damage) && Told(r, heard, y.asks) && terms.StartsSettled()
    ensures Concluded(r, t, Events(h), heard, terms, damage)
  {
    var trace := Events(h);
    HistoryIsGuarded(h, terms);
    GuardedIsLawful(trace, terms);
    GuardedIsBounded(trace, terms);
    GuardedOnCourse(trace, terms);
    LastWord(r, t, trace, y, terms, damage);
  }

  /** How the last event decides the result. */
  lemma LastWord(r: Result<RunResult, RunError>, t: Turn, trace: seq<Event>, y: Tally, terms: Terms, damage: nat)
    requires Ends(r, t, y, terms, damage) && !StageOf(trace).Astray? && y.stage == StageOf(trace)
    ensures r.Ok? && r.value.haltedBy.None? <==> EndsWithAnswer(trace)
    ensures r == Err(CredentialExfiltration) <==> EndsCondemned(trace)
    ensures r == Err(Panicked) <==> FinalAnswer(trace).Some? && terms.cut(FinalAnswer(trace).value)
  {
    LastStage(trace);
  }

  /** The text of this event closes what was sent. */
  ghost predicate WasSent(e: Event, sent: string) {
    e.Answered? && |e.response.Words()| <= |sent| && sent[|sent| - |e.response.Words()|..] == e.response.Words()
  }

  /** When the inspector kills an answer, the stream has already carried all of its text. */
  lemma KilledTextWasSent(r: Result<RunResult, RunError>, t: Turn, trace: seq<Event>, heard: seq<CallRecord>,
                          terms: Terms, damage: nat)
    requires Concluded(r, t, trace, heard, terms, damage) && terms.streaming && t.threwKillSwitch
    ensures r == Err(CredentialExfiltration) && trace != [] && WasSent(trace[|trace| - 1], t.sent)
  {
    var y := TallyOf(trace, terms.base);
    StageIsTallied(trace, terms.base);
    assert trace != [];
    assert y == Advance(TallyOf(trace[..|trace| - 1], terms.base), trace[|trace| - 1], terms.base);
  }

  /** A turn that is stopped before the model is asked: with some output, a closed gate only halts it. */
  function Halted(t: Turn, e: RunError, streaming: bool): Result<RunResult, RunError> {
    var output := if streaming then Streamed(t) else t.output;
    if e.RaisedAtGate() && output.Some? then Ok(Summary(t, output, Some(e))) else Err(e)
  }

  lemma HaltedEnds(s: Turn, t: Turn, e: RunError, y: Tally, terms: Terms, damage: nat)
    requires AtLoopHead(s, y, terms, damage) && t == s.(looks := t.looks) && Explains(e, t, y, terms, damage)
    ensures Ends(Halted(t, e, terms.streaming), t, y, terms, damage)
    ensures Stopper(Halted(t, e, terms.streaming)) == Some(e) && !IsModelFailure(Some(Halted(t, e, terms.streaming)))
    ensures Halted(t, e, terms.streaming).Ok? <==>
            e.RaisedAtGate() && if terms.streaming then y.gathered != "" else y.output.Some?
  {
  }

  class AgentRunner {
    const breaker: CircuitBreaker
    const damage: DamageCounter
    const maxRecursionDepth: nat
    const maxToolCallCount: nat
    const spendingCap: real
    const dailySpend: real
    const executionId: Option<string>
    const executionAttempt: int
    const journalWorks: bool        // the journal of the execution can be written
    const cancellable: bool         // a cancel token was supplied
    const parse: string -> string   // reads a call's argument text, `{}` if it is not JSON
    const sights: nat -> Sight
    const inspect: (nat, string) -> Inspection
    const denies: (nat, seq<ToolCall>) -> Option<string>
    const fired: nat -> bool
    const shut: nat -> bool

    constructor (breaker: CircuitBreaker, damage: DamageCounter, maxRecursionDepth: nat, maxToolCallCount: nat,
                 spendingCap: real, dailySpend: real, executionId: Option<string>, executionAttempt: int,
                 journalWorks: bool, cancellable: bool, parse: string -> string, sights: nat -> Sight,
                 inspect: (nat, string) -> Inspection, denies: (nat, seq<ToolCall>) -> Option<string>,
                 fired: nat -> bool, shut: nat -> bool)
      ensures this.breaker == breaker && this.damage == damage && this.sights == sights
      ensures this.maxRecursionDepth == maxRecursionDepth && this.maxToolCallCount == maxToolCallCount
      ensures this.spendingCap == spendingCap && this.dailySpend == dailySpend
      ensures this.executionId == executionId && this.executionAttempt == executionAttempt
      ensures this.journalWorks == journalWorks && this.cancellable == cancellable
      ensures this.fired == fired && this.shut == shut && this.inspect == inspect && this.denies == denies
    {
      this.breaker, this.damage := breaker, damage;
      this.maxRecursionDepth, this.maxToolCallCount := maxRecursionDepth, maxToolCallCount;
      this.spendingCap, this.dailySpend := spendingCap, dailySpend;
      this.executionId, this.executionAttempt := executionId, executionAttempt;
      this.journalWorks, this.cancellable := journalWorks, cancellable;
      this.inspect, this.denies := inspect, denies;
      this.parse, this.sights, this.fired, this.shut := parse, sights, fired, shut;
    }

    function Cuts(streaming: bool): Content -> bool {
      (content: Content) => streaming && PreviewPanics(content)
    }

    function TermsOf(ctx: RunContext, journal: seq<StepRow>, initial: seq<Message>, streaming: bool, count: nat,
                     threshold: nat): Terms
    {
      Terms(initial, journal, executionId.Some? && journalWorks, executionId.Some? && executionAttempt > 1, cancellable,
            streaming, ctx.toolCallCount, maxToolCallCount, ctx.recursionDepth, maxRecursionDepth,
            dailySpend, dailySpend + ctx.totalCost, spendingCap, count, threshold, ctx.totalTokens,
            sights, inspect, denies, fired, shut,
            Cuts(streaming))
    }

    static function Start(ctx: RunContext, journal: seq<StepRow>, initial: seq<Message>): Turn {
      Turn(ctx.recursionDepth, ctx.toolCallCount, ctx.totalTokens, ctx.totalCost, journal, initial, 0, map[], None, "", 0,
           false, 0, "")
    }

    /** The breaker stops a turn only when it does not allow a call. */
    ghost predicate BreakerAgrees(r: Result<RunResult, RunError>)
      reads breaker
    {
      Stopper(r) == Some(CircuitBreakerOpen) ==>
        !Allows(breaker.log, breaker.threshold, breaker.cooldown, breaker.clock)
    }

    /** What a turn does, in terms of the runner's own settings and the context it was given. */
    ghost predicate KeepsWithin(ctx: RunContext, journal: seq<StepRow>, initial: seq<Message>, damageBefore: nat, t: Turn,
                                trace: seq<Event>)
    {
      var y := TallyOf(trace, ctx.toolCallCount);
      && (y.asks > 0 ==> ctx.recursionDepth + y.asks <= maxRecursionDepth)
      && (y.attempts > 0 ==> ctx.toolCallCount + y.attempts <= maxToolCallCount)
      && t.toolCallCount == ctx.toolCallCount + y.attempts
      && t.totalTokens == ctx.totalTokens + y.tokens && t.totalCost == ctx.totalCost + y.spent
      && t.journal == (if executionId.Some? && journalWorks then journal + y.rows else journal)
      && (forall i :: 0 <= i < |trace| && trace[i].Asked? ==> AskedWithin(ctx, initial, damageBefore, trace, i))
      && (forall i :: 0 <= i < |trace| && trace[i].Starts() && executionId.Some? && executionAttempt > 1 ==>
                        trace[i].call.name in REPEATABLE)
      && (forall i :: 0 <= i < |trace| && trace[i].Rejected? ==>
                        executionId.Some? && executionAttempt > 1 && trace[i].call.name !in REPEATABLE)
    }

    ghost predicate AskedWithin(ctx: RunContext, initial: seq<Message>, damageBefore: nat, trace: seq<Event>, i: nat)
      requires i < |trace| && trace[i].Asked?
    {
      var y := TallyOf(trace[..i], ctx.toolCallCount);
      && trace[i].request == initial + y.transcript
      && dailySpend + ctx.totalCost + y.spent <= spendingCap && damageBefore + y.damage < damage.threshold
      && !sights(y.asks).flagged && sights(y.asks).authority == Clear && !sights(y.asks).closed
    }

    lemma InWords(ctx: RunContext, journal: seq<StepRow>, initial: seq<Message>, streaming: bool, damageBefore: nat,
                  r: Result<RunResult, RunError>, t: Turn, trace: seq<Event>, heard: seq<CallRecord>, damageNow: nat)
      requires Concluded(r, t, trace, heard, TermsOf(ctx, journal, initial, streaming, damageBefore, damage.threshold),
                         damageNow)
      ensures KeepsWithin(ctx, journal, initial, damageBefore, t, trace)
    {
      forall i | 0 <= i < |trace|
        ensures trace[i].Asked? ==> AskedWithin(ctx, initial, damageBefore, trace, i)
      {
      }
      assert forall i :: 0 <= i < |trace| ==>
                           ExactOnceAt(trace[i], TermsOf(ctx, journal, initial, streaming, damageBefore, damage.threshold));
    }

    /** One pass of a loop; without a verdict the loop comes round again. */
    method TurnOnce(s: Turn, terms: Terms, ghost h: History, ghost y: Tally)
      returns (verdict: Verdict, t: Turn, ghost h': History, ghost y': Tally, ghost heard: seq<CallRecord>)
      requires Prepared(terms) && AtLoopHead(s, y, terms, damage.count) && Chronicled(h, y, terms)
      requires breaker.Valid() && damage.threshold == terms.threshold
      modifies breaker, damage`count
      ensures breaker.Valid() && breaker.log == old(breaker.log) + heard && Adds(verdict, heard, y.asks, y'.asks)
      ensures Chronicled(h', y', terms) && Passed(verdict, t, y', terms, damage.count)
      ensures verdict.None? ==> s.recursionDepth < t.recursionDepth <= terms.maxDepth
      ensures verdict.Some? ==> BreakerAgrees(verdict.value)
      ensures terms.cancellable && terms.fired(s.looks) ==> verdict == Some(Err(Cancelled)) && h' == h
      ensures terms.streaming && terms.shut(s.looks + 1) && !(terms.cancellable && terms.fired(s.looks)) ==>
                verdict == Some(Err(StreamCancelled)) && h' == h
      ensures y'.asks > y.asks ==>
                Allows(old(breaker.log), breaker.threshold, breaker.cooldown,
                       GateTime(old(breaker.clock), terms.sights(y.asks)))
    {
      t, h', y', heard := s, h, y, [];
      var stop, looks := PassGates(s, terms, breaker, damage, y);
      t := s.(looks := looks);
      if stop.Some? {
        verdict := Some(Halted(t, stop.value, terms.streaming));
        HaltedEnds(s, t, stop.value, y, terms, damage.count);
        return;
      }
      verdict, t, h', y', heard := AskModel(t, terms, h, y);
    }

    /** Asks the model, once the gates have let the turn pass. */
    method AskModel(s: Turn, terms: Terms, ghost h: History, ghost y: Tally)
      returns (verdict: Verdict, t: Turn, ghost h': History, ghost y': Tally, ghost heard: seq<CallRecord>)
      requires Prepared(terms) && AtLoopHead(s, y, terms, damage.count) && Chronicled(h, y, terms)
      requires MayAsk(y, Asked(s.conversation, s.journal), terms) && breaker.Valid()
      modifies breaker, damage`count
      ensures breaker.Valid() && breaker.log == old(breaker.log) + heard && Adds(verdict, heard, y.asks, y'.asks)
      ensures Chronicled(h', y', terms) && Passed(verdict, t, y', terms, damage.count) && y'.asks == y.asks + 1
      ensures verdict.None? ==> t.recursionDepth == s.recursionDepth + 1 <= terms.maxDepth
      ensures verdict.Some? ==> Stopper(verdict.value) != Some(CircuitBreakerOpen)
    {
      ghost var asked := Asked(s.conversation, s.journal);
      ghost var answer;
      LogAsked(s, h, y, terms, damage.count);
      h', y' := Then(h, asked), Advance(y, asked, terms.base);
      if terms.streaming {
        ghost var tokens;
        verdict, t, h', y', heard, answer, tokens := StreamModel(s, terms, parse, breaker, damage, h', y');
      } else {
        ghost var cost, usage, pricing;
        verdict, t, h', y', heard, answer, cost, usage, pricing := CallModel(s, terms, breaker, damage, h', y');
      }
    }

    /** Both loops. */
    method RunLoop(ctx: RunContext, journal: seq<StepRow>, initial: seq<Message>, streaming: bool)
      returns (r: Result<RunResult, RunError>, t: Turn, ghost trace: seq<Event>, ghost heard: seq<CallRecord>)
      requires breaker.Valid() && Settled(journal) && Below(journal, ctx.toolCallCount + 1)
      modifies breaker, damage`count
      ensures var terms := TermsOf(ctx, journal, initial, streaming, old(damage.count), damage.threshold);
              Concluded(r, t, trace, heard, terms, damage.count)
      ensures KeepsWithin(ctx, journal, initial, old(damage.count), t, trace)
      ensures streaming && shut(1) && !(cancellable && fired(0)) ==> r == Err(StreamCancelled) && trace == []
      ensures cancellable && fired(0) ==> r == Err(Cancelled) && trace == []
      ensures TallyOf(trace, ctx.toolCallCount).asks > 0 ==>
                Allows(old(breaker.log), breaker.threshold, breaker.cooldown, GateTime(old(breaker.clock), sights(0)))
      ensures breaker.Valid() && breaker.log == old(breaker.log) + heard && BreakerAgrees(r)
    {
      var terms := TermsOf(ctx, journal, initial, streaming, damage.count, damage.threshold);
      StartsAtHead(ctx, journal, initial, streaming, damage.count);
      ghost var h, y;
      r, t, h, y, heard := Loop(Start(ctx, journal, initial), terms);
      trace := Events(h);
      HistoryIsGuarded(h, terms);
      Conclude(r, t, h, y, heard, terms, damage.count);
      InWords(ctx, journal, initial, streaming, old(damage.count), r, t, trace, heard, damage.count);
    }

    lemma StartsAtHead(ctx: RunContext, journal: seq<StepRow>, initial: seq<Message>, streaming: bool, count: nat)
      requires Settled(journal) && Below(journal, ctx.toolCallCount + 1)
      ensures var terms := TermsOf(ctx, journal, initial, streaming, count, damage.threshold);
              Prepared(terms) && AtLoopHead(Start(ctx, journal, initial), NOTHING, terms, count)
    {
      assert initial + [] == initial && journal + [] == journal;
    }

    /** Passes until one ends the turn. */
    method Loop(s: Turn, terms: Terms)
      returns (r: Result<RunResult, RunError>, t: Turn, ghost h: History, ghost y: Tally, ghost heard: seq<CallRecord>)
      requires Prepared(terms) && AtLoopHead(s, NOTHING, terms, damage.count) && s.looks == 0
      requires breaker.Valid() && damage.threshold == terms.threshold
      modifies breaker, damage`count
      ensures Chronicled(h, y, terms) && Ends(r, t, y, terms, damage.count) && Told(r, heard, y.asks)
      ensures terms.cancellable && terms.fired(0) ==> r == Err(Cancelled) && h == Beginning
      ensures terms.streaming && terms.shut(1) && !(terms.cancellable && terms.fired(0)) ==>
                r == Err(StreamCancelled) && h == Beginning
      ensures y.asks > 0 ==>
                Allows(old(breaker.log), breaker.threshold, breaker.cooldown,
                       GateTime(old(breaker.clock), terms.sights(0)))
      ensures breaker.Valid() && breaker.log == old(breaker.log) + heard && BreakerAgrees(r)
    {
      t, h, y, heard := s, Beginning, NOTHING, [];
      var verdict: Verdict := None;
      while verdict.None?
        invariant Chronicled(h, y, terms) && Passed(verdict, t, y, terms, damage.count)
        invariant breaker.Valid() && breaker.log == old(breaker.log) + heard
        invariant if verdict.None? then heard == Completions(y.asks) else Told(verdict.value, heard, y.asks)
        invariant verdict.Some? ==> BreakerAgrees(verdict.value)
        invariant terms.cancellable && terms.fired(0) ==>
                    h == Beginning && if verdict.None? then t.looks == 0 else verdict.value == Err(Cancelled)
        invariant terms.streaming && terms.shut(1) && !(terms.cancellable && terms.fired(0)) ==>
                    h == Beginning && if verdict.None? then t.looks == 0 else verdict.value == Err(StreamCancelled)
        invariant y.asks == 0 && verdict.None? ==> breaker.clock == old(breaker.clock) && heard == []
        invariant y.asks > 0 ==>
                    Allows(old(breaker.log), breaker.threshold, breaker.cooldown,
                           GateTime(old(breaker.clock), terms.sights(0)))
        decreases verdict.None?, terms.maxDepth - t.recursionDepth
      {
        ghost var last, asks := [], y.asks;
        verdict, t, h, y, last := TurnOnce(t, terms, h, y);
        TellOn(old(breaker.log), heard, asks, verdict, last, y.asks);
        heard := heard + last;
      }
      r := verdict.value;
    }

    /** `run_turn`. */
    method RunTurn(ctx: RunContext, journal: seq<StepRow>, system: string, history: seq<Message>, user: string)
      returns (r: Result<RunResult, RunError>, t: Turn, ghost trace: seq<Event>, ghost heard: seq<CallRecord>)
      requires breaker.Valid() && Settled(journal) && Below(journal, ctx.toolCallCount + 1)
      modifies breaker, damage`count
      ensures var initial := InitialConversation(system, history, user);
              var terms := TermsOf(ctx, journal, initial, false, old(damage.count), damage.threshold);
              Concluded(r, t, trace, heard, terms, damage.count)
      ensures KeepsWithin(ctx, journal, InitialConversation(system, history, user), old(damage.count), t, trace)
      ensures Stopper(r) != Some(Panicked) && Stopper(r) != Some(StreamCancelled)
      ensures t.sent == "" && (t.threwKillSwitch ==> r == Err(CredentialExfiltration))
      ensures cancellable && fired(0) ==> r == Err(Cancelled) && trace == []
      ensures TallyOf(trace, ctx.toolCallCount).asks > 0 ==>
                Allows(old(breaker.log), breaker.threshold, breaker.cooldown, GateTime(old(breaker.clock), sights(0)))
      ensures breaker.Valid() && breaker.log == old(breaker.log) + heard && BreakerAgrees(r)
    {
      r, t, trace, heard := RunLoop(ctx, journal, InitialConversation(system, history, user), false);
    }

    /** `run_turn_streaming`: it panics exactly when a tool's answer cannot be cut at 200 bytes. */
    method RunTurnStreaming(ctx: RunContext, journal: seq<StepRow>, system: string, history: seq<Message>, user: string)
      returns (r: Result<RunResult, RunError>, t: Turn, ghost trace: seq<Event>, ghost heard: seq<CallRecord>)
      requires breaker.Valid() && Settled(journal) && Below(journal, ctx.toolCallCount + 1)
      modifies breaker, damage`count
      ensures var initial := InitialConversation(system, history, user);
              var terms := TermsOf(ctx, journal, initial, true, old(damage.count), damage.threshold);
              Concluded(r, t, trace, heard, terms, damage.count)
      ensures KeepsWithin(ctx, journal, InitialConversation(system, history, user), old(damage.count), t, trace)
      ensures r == Err(Panicked) <==> FinalAnswer(trace).Some? && PreviewPanics(FinalAnswer(trace).value)
      ensures shut(1) && !(cancellable && fired(0)) ==> r == Err(StreamCancelled) && trace == []
      ensures TallyOf(trace, ctx.toolCallCount).spoken <= t.sent
      ensures t.threwKillSwitch ==>
                r == Err(CredentialExfiltration) && trace != [] && WasSent(trace[|trace| - 1], t.sent)
      ensures cancellable && fired(0) ==> r == Err(Cancelled) && trace == []
      ensures TallyOf(trace, ctx.toolCallCount).asks > 0 ==>
                Allows(old(breaker.log), breaker.threshold, breaker.cooldown, GateTime(old(breaker.clock), sights(0)))
      ensures breaker.Valid() && breaker.log == old(breaker.log) + heard && BreakerAgrees(r)
    {
      var initial := InitialConversation(system, history, user);
      ghost var terms := TermsOf(ctx, journal, initial, true, damage.count, damage.threshold);
      r, t, trace, heard := RunLoop(ctx, journal, initial, true);
      if t.threwKillSwitch {
        KilledTextWasSent(r, t, trace, heard, terms, damage.count);
      }
    }
  }

  lemma LogAsked(s: Turn, h: History, y: Tally, terms: Terms, damage: nat)
    requires AtLoopHead(s, y, terms, damage) && Chronicled(h, y, terms)
    requires MayAsk(y, Asked(s.conversation, s.journal), terms)
    ensures var e := Asked(s.conversation, s.journal);
            var y' := Advance(y, e, terms.base);
            && AfterAsking(s, y', terms, damage) && Chronicled(Then(h, e), y', terms)
            && (terms.streaming ==> s.sent == y'.spoken)
            && y'.stage.Waiting? && y'.lastCost == 0.0 && y'.asks == y.asks + 1
  {
    var e := Asked(s.conversation, s.journal);
    assert y.transcript + MessagesOf(e) == y.transcript;
    assert y.rows + RowsOf(e, terms.base + y.attempts + 1) == y.rows;
  }
}
