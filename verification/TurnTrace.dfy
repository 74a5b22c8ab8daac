/**
 What one agent turn does, as the list of its observable steps, and what such a list must satisfy.

 `TurnLoop` runs the loops of the agent runner; every step of a run appends one `Event`.
 The promises about whole turns are predicates of the event list alone, stated here.
 */
module TurnTrace {
  import opened Wrappers

  const MAX_CONSECUTIVE_TOOL_FAILURES: nat := 3
  const MAX_FAILED_DUPLICATE_TOOL_CALL_ATTEMPTS_PER_TURN: nat := 2

  // ---------------------------------------------------------------- messages

  /** A tool call requested by the model; `arguments` is its JSON text. */
  datatype ToolCall = ToolCall(id: string, name: string, arguments: string)

  /** An answer of the model. */
  datatype Response = Empty | TextOnly(text: string) | ToolCalls(calls: seq<ToolCall>)
                    | Mixed(text: string, calls: seq<ToolCall>)
  {
    predicate RequestsTools() {
      ToolCalls? || Mixed?
    }

    predicate HasText() {
      TextOnly? || Mixed?
    }

    function Words(): string {
      if HasText() then text else ""
    }

    /** The text under which the requested calls enter the conversation. */
    function PlanText(): string {
      if Mixed? then text else ""
    }

    function PlanCalls(): seq<ToolCall> {
      if RequestsTools() then calls else []
    }
  }

  /** What the output inspector finds in a text. */
  datatype Inspection = KillAll | Warning(redacted: string) | Clean

  /** The identity under which failing calls are remembered. */
  function Signature(call: ToolCall): string {
    call.name + "::" + call.arguments
  }

  datatype Role = System | User | Assistant | Tool

  /** Message text; the three error texts written by the loop itself are kept symbolic. */
  datatype Content =
    | Text(text: string)
    | PlanDenied(reason: string)
    | DuplicateSuppressed(tool: string)
    | ToolError(error: string)

  datatype Message = Message(role: Role, content: Content, toolCalls: Option<seq<ToolCall>>,
                             toolCallId: Option<string>)

  function RequestMessage(text: string, calls: seq<ToolCall>): Message {
    Message(Assistant, Text(text), Some(calls), None)
  }

  function AnswerMessage(call: ToolCall, content: Content): Message {
    Message(Tool, content, None, Some(call.id))
  }

  ghost predicate IsRequest(m: Message) {
    m.role == Assistant && m.toolCalls.Some? && m.toolCallId == None
  }

  ghost predicate Answers(ms: seq<Message>, calls: seq<ToolCall>) {
    && |ms| == |calls|
    && forall i :: 0 <= i < |ms| ==>
                     ms[i].role == Tool && ms[i].toolCalls == None && ms[i].toolCallId == Some(calls[i].id)
  }

  /** Each assistant message with tool calls is followed by one answer per call, in order. */
  ghost predicate Blocks(ms: seq<Message>)
    decreases |ms|
  {
    ms == [] ||
    (&& IsRequest(ms[0])
     && var n := |ms[0].toolCalls.value|;
        n + 1 <= |ms| && Answers(ms[1..n + 1], ms[0].toolCalls.value) && Blocks(ms[n + 1..]))
  }

  lemma {:induction false} BlocksAppend(ms: seq<Message>, text: string, calls: seq<ToolCall>, answers: seq<Message>)
    requires Blocks(ms) && Answers(answers, calls)
    ensures Blocks(ms + ([RequestMessage(text, calls)] + answers))
    decreases |ms|
  {
    var block := [RequestMessage(text, calls)] + answers;
    if ms == [] {
      OneBlock(text, calls, answers);
      assert ms + block == block;
    } else {
      var n := |ms[0].toolCalls.value|;
      BlocksAppend(ms[n + 1..], text, calls, answers);
      assert (ms + block)[0] == ms[0];
      assert (ms + block)[1..n + 1] == ms[1..n + 1];
      assert (ms + block)[n + 1..] == ms[n + 1..] + block;
    }
  }

  lemma OneBlock(text: string, calls: seq<ToolCall>, answers: seq<Message>)
    requires Answers(answers, calls)
    ensures Blocks([RequestMessage(text, calls)] + answers)
  {
    var block := [RequestMessage(text, calls)] + answers;
    assert block[1..|calls| + 1] == answers;
    assert block[|calls| + 1..] == [];
  }

  // ---------------------------------------------------------------- the durable step journal

  datatype StepStatus = Started | Committed | StepFailed

  datatype StepRow = StepRow(stepSeq: int, call: ToolCall, status: StepStatus)

  datatype ReliabilityClass = ReplaySafe | JournaledSideEffecting | UnsupportedExactOnce

  function ToolReliabilityClass(call: ToolCall): ReliabilityClass {
    if call.name in {"read_file", "list_dir", "read_memories", "web_fetch", "web_search"} then ReplaySafe
    else if call.name == "write_file" then JournaledSideEffecting
    else UnsupportedExactOnce
  }

  predicate IsDestructive(call: ToolCall) {
    call.name == "write_file" || call.name == "shell"
  }

  /** `INSERT OR IGNORE`: a row with this number stays as it is. */
  function InsertStarted(rows: seq<StepRow>, stepSeq: int, call: ToolCall): seq<StepRow> {
    if exists i :: 0 <= i < |rows| && rows[i].stepSeq == stepSeq then rows
    else rows + [StepRow(stepSeq, call, Started)]
  }

  /** `UPDATE ... WHERE step_seq = ? AND status = 'started'`. */
  function UpdateStatus(rows: seq<StepRow>, stepSeq: int, status: StepStatus): seq<StepRow> {
    if rows == [] then []
    else
      var last := rows[|rows| - 1];
      UpdateStatus(rows[..|rows| - 1], stepSeq, status) +
      [if last.stepSeq == stepSeq && last.status.Started? then last.(status := status) else last]
  }

  ghost predicate Increasing(rows: seq<StepRow>) {
    forall i, j :: 0 <= i < j < |rows| ==> rows[i].stepSeq < rows[j].stepSeq
  }

  ghost predicate Below(rows: seq<StepRow>, n: int) {
    forall i :: 0 <= i < |rows| ==> rows[i].stepSeq < n
  }

  /** Step numbers increase strictly, and every step that was started has its one verdict. */
  ghost predicate Settled(rows: seq<StepRow>) {
    Increasing(rows) && forall i :: 0 <= i < |rows| ==> !rows[i].status.Started?
  }

  // ---------------------------------------------------------------- events

  datatype Event =
    | Asked(request: seq<Message>, rows: seq<StepRow>)
      // the model was called with `request` while the journal held `rows`
    | Answered(response: Response, cost: real, tokens: nat, verdict: Inspection)
      // it answered, cost and tokens were booked, and its text was inspected
    | Planned(text: string, calls: seq<ToolCall>)
      // its tool calls entered the conversation
    | Refused(calls: seq<ToolCall>, reason: string)
      // the plan validator denied all of them
    | Executed(call: ToolCall, outcome: Result<string, string>)
      // the tool ran to its end
    | Suppressed(call: ToolCall)
      // a call that failed before was answered without running it
    | GaveUp(call: ToolCall)
      // the same call came a third time
    | Rejected(call: ToolCall)
      // journaled as failed without running it
    | Interrupted(call: ToolCall)
      // journaled as started, cancelled before a result
  {
    predicate IsAttempt() {
      Executed? || Suppressed? || GaveUp? || Rejected? || Interrupted?
    }

    predicate Fails() {
      Executed? && outcome.Err?
    }

    /** The tool may have begun to act. */
    predicate Starts() {
      Executed? || Interrupted?
    }

    predicate IsFailureEvent() {
      Refused? || Suppressed? || Fails()
    }

    predicate IsSuccess() {
      Executed? && outcome.Ok?
    }

    /** The inspector condemned the answer. */
    predicate IsKilled() {
      Answered? && response.HasText() && verdict.KillAll?
    }
  }

  /** The text that is kept of an answer: all of it, or what the inspector left. */
  function KeptText(e: Event): Option<string> {
    if !e.Answered? || !e.response.HasText() then None
    else
      match e.verdict
      case KillAll => None
      case Warning(redacted) => Some(redacted)
      case Clean => Some(e.response.text)
  }

  /** The answer an event gives to a call that was run or suppressed. */
  function AnswerOf(e: Event): Option<Content> {
    match e
    case Executed(_, outcome) => Some(if outcome.Ok? then Text(outcome.value) else ToolError(outcome.error))
    case Suppressed(call) => Some(DuplicateSuppressed(call.name))
    case _ => None
  }

  /** The messages an event contributes to the conversation. */
  function MessagesOf(e: Event): seq<Message> {
    match e
    case Planned(text, calls) => [Message(Assistant, Text(text), Some(calls), None)]
    case Refused(calls, reason) =>
      seq(|calls|, i requires 0 <= i < |calls| => Message(Tool, PlanDenied(reason), None, Some(calls[i].id)))
    case Executed(call, outcome) =>
      var content := if outcome.Ok? then Text(outcome.value) else ToolError(outcome.error);
      [Message(Tool, content, None, Some(call.id))]
    case Suppressed(call) => [Message(Tool, DuplicateSuppressed(call.name), None, Some(call.id))]
    case _ => []
  }

  /** The journal rows an event leaves when its attempt has number `n`. */
  function RowsOf(e: Event, n: int): seq<StepRow> {
    match e
    case Executed(call, outcome) => [StepRow(n, call, if outcome.Ok? then Committed else StepFailed)]
    case Rejected(call) => [StepRow(n, call, StepFailed)]
    case Interrupted(call) => [StepRow(n, call, Started)]
    case _ => []
  }

  // ---------------------------------------------------------------- the protocol

  /** Where a turn stands. */
  datatype Stage =
    | Idle                                                       // nothing has been asked
    | Waiting                                                    // the model has been asked
    | Owing(response: Response)                                  // it requested tools, which are to be planned
    | Working(calls: seq<ToolCall>, latest: Option<Content>)     // calls still to answer, and the latest answer
    | Finished(response: Response)                               // it answered without requesting tools
    | Condemned                                                  // its answer was condemned by the inspector
    | Aborted(cause: Event, calls: seq<ToolCall>)                   // an attempt ended the turn; calls still open
    | Astray                                                     // the protocol was broken
  {
    function Awaiting(): seq<ToolCall> {
      if Working? || Aborted? then calls else []
    }

    /** The model may be asked again. */
    predicate AtRest() {
      Idle? || (Working? && calls == [])
    }
  }

  /**
   The protocol of a turn.  The model is asked, it answers, and the tools it requests, with just that
   text and these calls, are planned; the plan is refused as a whole, if it has two calls or more, or
   its calls are attempted one by one in order; then the model is asked again.
   */
  function After(s: Stage, e: Event): Stage {
    if e.Asked? then
      if s.AtRest() then Waiting else Astray
    else if e.Answered? then
      if !s.Waiting? then Astray
      else if e.IsKilled() then Condemned
      else if e.response.RequestsTools() then Owing(e.response)
      else Finished(e.response)
    else if e.Planned? then
      if s.Owing? && e.text == s.response.PlanText() && e.calls == s.response.PlanCalls() then Working(e.calls, None)
      else Astray
    else if e.Refused? then
      if s.Working? && s.latest.None? && s.calls == e.calls && |e.calls| >= 2 then Working([], None) else Astray
    else if !s.Working? || s.calls == [] || s.calls[0] != e.call then Astray
    else if AnswerOf(e).Some? then Working(s.calls[1..], AnswerOf(e))
    else Aborted(e, s.calls)
  }

  function StageOf(t: seq<Event>): Stage {
    if t == [] then Idle else After(StageOf(t[..|t| - 1]), t[|t| - 1])
  }

  /** How often each failed signature has been tried. */
  function Tries(tries: map<string, nat>, e: Event): map<string, nat> {
    match e
    case Executed(call, Err(_)) => tries[Signature(call) := 1]
    case Suppressed(call) => tries[Signature(call) := 2]
    case _ => tries
  }

  /** The running account of a turn. */
  datatype Tally = Tally(
    transcript: seq<Message>,   // messages added to the initial conversation
    stage: Stage,               // where the protocol stands
    rows: seq<StepRow>,         // journal rows of a durable turn
    attempts: nat,              // tool call attempts
    asks: nat,                  // calls of the model
    spent: real,                // cost of all completions
    lastCost: real,             // cost of the latest completion
    damage: nat,                // destructive tools run to success
    successes: nat,             // tools run to success
    streak: nat,                // failure events since the last success
    roundSuccesses: nat,        // tools run to success since the model was last asked
    roundCalls: nat,            // calls in the model's latest answer
    tries: map<string, nat>,    // failed signatures
    spoken: string,             // the texts of all answers
    tokens: nat,                // tokens of all completions
    output: Option<string>,     // the latest text that was kept
    gathered: string)           // all texts that were kept

  const NOTHING := Tally([], Idle, [], 0, 0, 0.0, 0.0, 0, 0, 0, 0, 0, map[], "", 0, None, "")

  /** Attempts are numbered from `base + 1`. */
  function Advance(y: Tally, e: Event, base: nat): Tally {
    Tally(
      y.transcript + MessagesOf(e),
      After(y.stage, e),
      y.rows + RowsOf(e, base + y.attempts + 1),
      y.attempts + if e.IsAttempt() then 1 else 0,
      y.asks + if e.Asked? then 1 else 0,
      y.spent + if e.Answered? then e.cost else 0.0,
      if e.Asked? then 0.0 else if e.Answered? then e.cost else y.lastCost,
      y.damage + if e.IsSuccess() && IsDestructive(e.call) then 1 else 0,
      y.successes + if e.IsSuccess() then 1 else 0,
      if e.IsSuccess() then 0 else y.streak + if e.IsFailureEvent() then 1 else 0,
      if e.Asked? then 0 else y.roundSuccesses + if e.IsSuccess() then 1 else 0,
      if e.Asked? then 0 else if e.Planned? then |e.calls| else y.roundCalls,
      Tries(y.tries, e),
      if e.Answered? && e.response.Words() != "" then y.spoken + e.response.Words() else y.spoken,
      y.tokens + if e.Answered? then e.tokens else 0,
      if KeptText(e).Some? then KeptText(e) else y.output,
      if KeptText(e).Some? then y.gathered + KeptText(e).value else y.gathered)
  }

  function TallyOf(t: seq<Event>, base: nat): Tally {
    if t == [] then NOTHING else Advance(TallyOf(t[..|t| - 1], base), t[|t| - 1], base)
  }

  // ---------------------------------------------------------------- promises about a turn

  datatype KillState = Clear | Pause | Quarantine | KillAllAgents

  /** What the gates see outside the turn when they are checked: the clock and the kill switches. */
  datatype Sight = Sight(now: nat, flagged: bool, authority: KillState, closed: bool) {
    predicate IsClear() {
      !flagged && authority.Clear? && !closed
    }
  }

  /**
   What a turn starts from and is held to.  `sights` tells what the gates see before the model is
   asked for the n-th time, `inspect` and `denies` what the inspector and the plan validator say about
   its n-th answer, `fired` and `shut` whether the cancel token has fired and the event channel
   is closed when they are looked at for the n-th time, and `cut` which answers cannot be shown on the
   stream.
   */
  datatype Terms = Terms(initial: seq<Message>, journal: seq<StepRow>,
                         durable: bool, repeated: bool, cancellable: bool, streaming: bool,
                         base: nat, maxToolCalls: nat, startDepth: nat, maxDepth: nat,
                         dailySpend: real, startSpend: real, cap: real, startDamage: nat, threshold: nat,
                         startTokens: nat, sights: nat -> Sight, inspect: (nat, string) -> Inspection,
                         denies: (nat, seq<ToolCall>) -> Option<string>, fired: nat -> bool, shut: nat -> bool,
                         cut: Content -> bool)
  {
    /** The verdict on the n-th answer; one without text is not inspected. */
    function Verdict(n: nat, response: Response): Inspection {
      if response.HasText() then inspect(n, response.text) else Clean
    }

    /** The validator denies the n-th plan.  It lets pass any plan of fewer than two calls. */
    function Denial(n: nat, calls: seq<ToolCall>): Option<string> {
      if |calls| >= 2 then denies(n, calls) else None
    }

    /** The journal when these rows have been added in the turn. */
    function Journal(rows: seq<StepRow>): seq<StepRow> {
      if durable then journal + rows else journal
    }

    /** The turn starts behind the steps in the journal, which are all settled. */
    ghost predicate StartsSettled() {
      Settled(journal) && Below(journal, base + 1)
    }
  }

  /** Every request extends the initial conversation by complete blocks that report what happened. */
  ghost predicate RequestsShaped(t: seq<Event>, terms: Terms) {
    forall i :: 0 <= i < |t| && t[i].Asked? ==>
                  var said := TallyOf(t[..i], terms.base).transcript;
                  t[i].request == terms.initial + said && Blocks(said)
  }

  /** A signature that failed is never started again. */
  ghost predicate NeverRetried(t: seq<Event>) {
    forall i, j :: 0 <= i < j < |t| && t[i].Fails() && t[j].Starts() ==> Signature(t[i].call) != Signature(t[j].call)
  }

  /**
   Suppression happens at most once per signature and only to signatures that failed;
   the turn gives up only on a signature that was suppressed before.
   */
  ghost predicate SuppressedOnce(t: seq<Event>) {
    && (forall i, j :: 0 <= i < j < |t| && t[i].Suppressed? && t[j].Suppressed? ==>
                         Signature(t[i].call) != Signature(t[j].call))
    && (forall j :: 0 <= j < |t| && t[j].Suppressed? ==>
                      exists i :: 0 <= i < j && t[i].Fails() && Signature(t[i].call) == Signature(t[j].call))
    && (forall j :: 0 <= j < |t| && t[j].GaveUp? ==>
                      exists i :: 0 <= i < j && t[i].Suppressed? && Signature(t[i].call) == Signature(t[j].call))
  }

  predicate SameCall(a: ToolCall, b: ToolCall) {
    a.name == b.name && a.arguments == b.arguments
  }

  /** The same tool failed with the same arguments before. */
  ghost predicate FailedBefore(t: seq<Event>, j: nat)
    requires j < |t| && t[j].IsAttempt()
  {
    exists i :: 0 <= i < j && t[i].Fails() && SameCall(t[i].call, t[j].call)
  }

  ghost predicate SuppressedBefore(t: seq<Event>, j: nat)
    requires j < |t| && t[j].IsAttempt()
  {
    exists i :: 0 <= i < j && t[i].Suppressed? && SameCall(t[i].call, t[j].call)
  }

  /** A call that failed before is suppressed, or the turn gives up on it. */
  ghost predicate RepeatsAreCaught(t: seq<Event>) {
    forall j :: 0 <= j < |t| && t[j].IsAttempt() && FailedBefore(t, j) ==> t[j].Suppressed? || t[j].GaveUp?
  }

  /** No other call is: the first repetition is suppressed, and only the next one is given up on. */
  ghost predicate OnlyRepeatsAreCaught(t: seq<Event>) {
    && (forall j :: 0 <= j < |t| && t[j].Suppressed? ==> FailedBefore(t, j) && !SuppressedBefore(t, j))
    && (forall j :: 0 <= j < |t| && t[j].GaveUp? ==> FailedBefore(t, j) && SuppressedBefore(t, j))
  }

  /** No tool name holds a colon. */
  predicate PlainNames(t: seq<Event>) {
    forall i :: 0 <= i < |t| && t[i].IsAttempt() ==> ':' !in t[i].call.name
  }

  /** The turn goes on only while fewer than three failures have come in a row. */
  ghost predicate StreaksBelowLimit(t: seq<Event>, terms: Terms) {
    forall i :: 0 <= i < |t| ==> TallyOf(t[..i], terms.base).streak < 3
  }

  /** Giving up, rejecting and interrupting end the turn. */
  ghost predicate EndsAtAbort(t: seq<Event>) {
    forall i :: 0 <= i < |t| - 1 ==> !t[i].GaveUp? && !t[i].Rejected? && !t[i].Interrupted?
  }

  /** Whenever the model is asked, the journal is exactly that of the steps so far, all settled. */
  ghost predicate JournalSettled(t: seq<Event>, terms: Terms) {
    forall i :: 0 <= i < |t| && t[i].Asked? ==>
                  t[i].rows == terms.Journal(TallyOf(t[..i], terms.base).rows) && Settled(t[i].rows)
  }

  /** The tools that may run again: those that only read, and the one whose effect is journaled. */
  const REPEATABLE: set<string> :=
    {"read_file", "list_dir", "read_memories", "web_fetch", "web_search", "write_file"}

  /** On a repeated durable attempt a tool without exactly-once support is rejected, never started. */
  ghost predicate ExactOnceRespected(t: seq<Event>, terms: Terms) {
    forall i :: 0 <= i < |t| ==> ExactOnceAt(t[i], terms)
  }

  predicate ExactOnceAt(e: Event, terms: Terms) {
    && (e.Starts() && terms.repeated ==> e.call.name in REPEATABLE)
    && (e.Rejected? ==> terms.repeated && e.call.name !in REPEATABLE)
  }

  /** Every text is inspected: the verdict is that of the inspector. */
  ghost predicate TextsInspected(t: seq<Event>, terms: Terms) {
    forall i :: 0 <= i < |t| && t[i].Answered? ==>
                  t[i].verdict == terms.Verdict(TallyOf(t[..i], terms.base).asks, t[i].response)
  }

  /** A plan of two or more calls is refused exactly when the validator denies it, and for its reason. */
  ghost predicate PlansValidated(t: seq<Event>, terms: Terms) {
    forall i :: 0 < i < |t| && t[i - 1].Planned? ==>
                  var denial := terms.Denial(TallyOf(t[..i], terms.base).asks, t[i - 1].calls);
                  && (t[i].Refused? <==> denial.Some?)
                  && (t[i].Refused? ==> t[i].reason == denial.value)
  }

  /** The model is asked only within the spending cap and below the damage threshold. */
  ghost predicate AskedWithinLimits(t: seq<Event>, terms: Terms) {
    forall i :: 0 <= i < |t| && t[i].Asked? ==>
                  var y := TallyOf(t[..i], terms.base);
                  terms.startSpend + y.spent <= terms.cap && terms.startDamage + y.damage < terms.threshold
  }

  /** The kill switches are off whenever the model is asked. */
  ghost predicate AskedWhenClear(t: seq<Event>, terms: Terms) {
    forall i :: 0 <= i < |t| && t[i].Asked? ==> terms.sights(TallyOf(t[..i], terms.base).asks).IsClear()
  }

  /** An answer that cannot be shown is the last event. */
  ghost predicate ShownUnlessLast(t: seq<Event>, terms: Terms) {
    forall i :: 0 <= i < |t| - 1 && AnswerOf(t[i]).Some? ==> !terms.cut(AnswerOf(t[i]).value)
  }

  ghost predicate Lawful(t: seq<Event>, terms: Terms) {
    && !StageOf(t).Astray?
    && RequestsShaped(t, terms)
    && NeverRetried(t) && SuppressedOnce(t)
    && RepeatsAreCaught(t) && (PlainNames(t) ==> OnlyRepeatsAreCaught(t))
    && StreaksBelowLimit(t, terms)
    && EndsAtAbort(t)
    && JournalSettled(t, terms)
    && ExactOnceRespected(t, terms)
    && TextsInspected(t, terms) && PlansValidated(t, terms)
    && AskedWithinLimits(t, terms) && AskedWhenClear(t, terms)
    && ShownUnlessLast(t, terms)
  }

  /**
   The bounds at any point of a turn: calls of the model, tool attempts, the length of a failure
   streak, and by how much spend and damage can overshoot.
   */
  predicate WithinBounds(y: Tally, terms: Terms) {
    && (y.asks == 0 || terms.startDepth + y.asks <= terms.maxDepth)
    && (y.attempts == 0 || terms.base + y.attempts <= terms.maxToolCalls)
    && y.streak <= 3
    && (y.asks == 0 ==> y == NOTHING)
    && (y.asks > 0 ==> terms.startSpend + y.spent <= terms.cap + y.lastCost)
    && (y.asks > 0 ==> terms.startDamage + y.damage < terms.threshold + y.roundSuccesses)
    && y.roundSuccesses + |y.stage.Awaiting()| <= y.roundCalls
  }

  // ---------------------------------------------------------------- guards, step by step

  /** The latest answer could not be shown. */
  predicate IsCut(s: Stage, terms: Terms) {
    s.Working? && s.latest.Some? && terms.cut(s.latest.value)
  }

  /** The turn can go on: fewer than three failures in a row, and the latest answer could be shown. */
  predicate GoesOn(y: Tally, terms: Terms) {
    y.streak < MAX_CONSECUTIVE_TOOL_FAILURES && !IsCut(y.stage, terms)
  }

  /** The guards of the steps taken between two calls of the model. */
  predicate MayAct(y: Tally, e: Event, terms: Terms) {
    && !e.Asked?
    && y.asks > 0 && GoesOn(y, terms) && !After(y.stage, e).Astray?
    && (e.IsAttempt() ==> terms.base + y.attempts < terms.maxToolCalls)
    && (e.Starts() || e.Rejected? ==> Signature(e.call) !in y.tries)
    && (e.Starts() && terms.repeated ==> !ToolReliabilityClass(e.call).UnsupportedExactOnce?)
    && (e.Rejected? ==> terms.repeated && ToolReliabilityClass(e.call).UnsupportedExactOnce?)
    && (e.Suppressed? ==> Signature(e.call) in y.tries && y.tries[Signature(e.call)] == 1)
    && (e.GaveUp? ==> Signature(e.call) in y.tries && y.tries[Signature(e.call)] == 2)
    && (e.Answered? ==> y.lastCost == 0.0 && e.verdict == terms.Verdict(y.asks, e.response))
    && (e.Refused? ==> terms.Denial(y.asks, e.calls) == Some(e.reason))
    && (e.IsAttempt() && y.stage.Working? && y.stage.latest.None? ==> terms.Denial(y.asks, y.stage.calls).None?)
    && (e.Planned? ==> y.roundSuccesses == 0)
  }

  /** The guard of a call of the model. */
  predicate MayAsk(y: Tally, e: Event, terms: Terms) {
    && e.Asked?
    && GoesOn(y, terms) && y.stage.AtRest()
    && e.request == terms.initial + y.transcript
    && e.rows == terms.Journal(y.rows)
    && terms.startDepth + y.asks < terms.maxDepth
    && terms.startSpend + y.spent <= terms.cap
    && terms.startDamage + y.damage < terms.threshold
    && terms.sights(y.asks).IsClear()
  }

  /** The condition under which the loop may take step `e` when the account stands at `y`. */
  predicate MayFollow(y: Tally, e: Event, terms: Terms) {
    MayAct(y, e, terms) || MayAsk(y, e, terms)
  }

  predicate Guarded(t: seq<Event>, terms: Terms) {
    t == [] ||
    (Guarded(t[..|t| - 1], terms) && MayFollow(TallyOf(t[..|t| - 1], terms.base), t[|t| - 1], terms))
  }

  // ---------------------------------------------------------------- lemmas

  lemma {:induction false} GuardedPrefix(t: seq<Event>, terms: Terms, i: nat)
    requires Guarded(t, terms) && i < |t|
    ensures Guarded(t[..i], terms) && MayFollow(TallyOf(t[..i], terms.base), t[i], terms)
    decreases |t|
  {
    if i < |t| - 1 {
      GuardedPrefix(t[..|t| - 1], terms, i);
      assert t[..|t| - 1][..i] == t[..i];
    }
  }

  /** `tries` knows exactly the signatures that failed, and 2 marks those that were suppressed. */
  lemma {:induction false} TriesMeaning(t: seq<Event>, terms: Terms, s: string)
    requires Guarded(t, terms)
    ensures TriesMatch(TallyOf(t, terms.base).tries, s, FailedIn(t, s), SuppressedIn(t, s))
  {
    if t != [] {
      var before, e := t[..|t| - 1], t[|t| - 1];
      TriesMeaning(before, terms, s);
      OccurrenceSnoc(before, e, s);
      assert before + [e] == t;
      var y := TallyOf(before, terms.base);
      GuardOfTries(y, e, terms);
      TriesStep(y.tries, e, s, FailedIn(before, s), SuppressedIn(before, s));
      assert TallyOf(t, terms.base).tries == Tries(y.tries, e);
    }
  }

  lemma GuardOfTries(y: Tally, e: Event, terms: Terms)
    requires MayFollow(y, e, terms)
    ensures e.Fails() ==> Signature(e.call) !in y.tries
    ensures e.Suppressed? ==> Signature(e.call) in y.tries
  {
  }

  predicate TriesMatch(tries: map<string, nat>, s: string, failed: bool, suppressed: bool) {
    && (s in tries <==> failed)
    && (failed ==> tries[s] == if suppressed then 2 else 1)
    && (suppressed ==> failed)
  }

  lemma TriesStep(tries: map<string, nat>, e: Event, s: string, failed: bool, suppressed: bool)
    requires TriesMatch(tries, s, failed, suppressed)
    requires e.Fails() ==> Signature(e.call) !in tries
    requires e.Suppressed? ==> Signature(e.call) in tries
    ensures TriesMatch(Tries(tries, e), s, failed || (e.Fails() && Signature(e.call) == s),
                       suppressed || (e.Suppressed? && Signature(e.call) == s))
  {
  }

  ghost predicate FailedIn(t: seq<Event>, s: string) {
    exists i :: 0 <= i < |t| && t[i].Fails() && Signature(t[i].call) == s
  }

  ghost predicate SuppressedIn(t: seq<Event>, s: string) {
    exists i :: 0 <= i < |t| && t[i].Suppressed? && Signature(t[i].call) == s
  }

  lemma OccurrenceSnoc(t: seq<Event>, e: Event, s: string)
    ensures FailedIn(t + [e], s) <==> FailedIn(t, s) || (e.Fails() && Signature(e.call) == s)
    ensures SuppressedIn(t + [e], s) <==> SuppressedIn(t, s) || (e.Suppressed? && Signature(e.call) == s)
  {
    var u := t + [e];
    assert u[|t|] == e && forall i :: 0 <= i < |t| ==> u[i] == t[i];
  }

  /** Complete blocks, then at most one block with `awaiting` still to be answered. */
  ghost predicate Partial(ms: seq<Message>, awaiting: seq<ToolCall>) {
    if awaiting == [] then Blocks(ms)
    else exists done, text, calls, answers :: PartialBlock(ms, awaiting, done, text, calls, answers)
  }

  ghost predicate PartialBlock(ms: seq<Message>, awaiting: seq<ToolCall>, done: seq<Message>, text: string,
                               calls: seq<ToolCall>, answers: seq<Message>)
  {
    && ms == done + ([RequestMessage(text, calls)] + answers) && Blocks(done)
    && |answers| <= |calls| && Answers(answers, calls[..|answers|]) && awaiting == calls[|answers|..]
  }

  /** Answering the first of the awaited calls. */
  lemma AnswerNext(ms: seq<Message>, awaiting: seq<ToolCall>, content: Content)
    requires awaiting != [] && Partial(ms, awaiting)
    ensures Partial(ms + [AnswerMessage(awaiting[0], content)], awaiting[1..])
  {
    var done, text, calls, answers :| PartialBlock(ms, awaiting, done, text, calls, answers);
    var m := AnswerMessage(awaiting[0], content);
    var n := |answers|;
    assert calls[..n + 1] == calls[..n] + [calls[n]] && calls[n + 1..] == awaiting[1..];
    assert ms + [m] == done + ([RequestMessage(text, calls)] + (answers + [m]));
    if n + 1 == |calls| {
      assert calls[..n + 1] == calls;
      BlocksAppend(done, text, calls, answers + [m]);
    } else {
      assert PartialBlock(ms + [m], awaiting[1..], done, text, calls, answers + [m]);
    }
  }

  lemma BeginBlock(ms: seq<Message>, text: string, calls: seq<ToolCall>)
    requires Blocks(ms)
    ensures Partial(ms + [RequestMessage(text, calls)], calls)
  {
    var m := RequestMessage(text, calls);
    assert ms + ([m] + []) == ms + [m] && calls[..0] == [] && calls[0..] == calls;
    if calls == [] {
      BlocksAppend(ms, text, calls, []);
    } else {
      assert PartialBlock(ms + [m], calls, ms, text, calls, []);
    }
  }

  /** Denying a plan answers all of it. */
  lemma DenyCalls(ms: seq<Message>, awaiting: seq<ToolCall>, reason: string)
    requires Partial(ms, awaiting)
    ensures Blocks(ms + MessagesOf(Refused(awaiting, reason)))
  {
    var errors := MessagesOf(Refused(awaiting, reason));
    if awaiting == [] {
      assert ms + errors == ms;
    } else {
      var done, text, calls, answers :| PartialBlock(ms, awaiting, done, text, calls, answers);
      assert ms + errors == done + ([RequestMessage(text, calls)] + (answers + errors));
      BlocksAppend(done, text, calls, answers + errors);
    }
  }

  /** At every point of a turn the transcript is made of blocks, the last perhaps unfinished. */
  lemma {:induction false} TranscriptShape(t: seq<Event>, terms: Terms)
    requires Guarded(t, terms)
    ensures var y := TallyOf(t, terms.base); Partial(y.transcript, y.stage.Awaiting())
  {
    if t != [] {
      var e := t[|t| - 1];
      var y := TallyOf(t[..|t| - 1], terms.base);
      TranscriptShape(t[..|t| - 1], terms);
      ShapeStep(y.transcript, y.stage, e);
    }
  }

  lemma ShapeStep(ms: seq<Message>, s: Stage, e: Event)
    requires Partial(ms, s.Awaiting()) && !After(s, e).Astray?
    ensures Partial(ms + MessagesOf(e), After(s, e).Awaiting())
  {
    var awaiting := s.Awaiting();
    match e
    case Planned(text, calls) => BeginBlock(ms, text, calls);
    case Refused(calls, reason) => DenyCalls(ms, calls, reason);
    case Executed(call, outcome) =>
      AnswerNext(ms, awaiting, if outcome.Ok? then Text(outcome.value) else ToolError(outcome.error));
    case Suppressed(call) => AnswerNext(ms, awaiting, DuplicateSuppressed(call.name));
    case _ =>
      assert ms + MessagesOf(e) == ms;
  }

  /** Guards obeyed step by step add up to the promises about the whole turn. */
  lemma GuardedIsLawful(t: seq<Event>, terms: Terms)
    requires Guarded(t, terms) && terms.StartsSettled()
    ensures Lawful(t, terms)
  {
    GuardedOnCourse(t, terms);
    GuardedLimits(t, terms);
    GuardedSignatures(t, terms);
    GuardedRepeats(t, terms);
    GuardedVerdicts(t, terms);
    GuardedAborts(t, terms);
    GuardedRequests(t, terms);
    GuardedShown(t, terms);
  }

  lemma GuardedLimits(t: seq<Event>, terms: Terms)
    requires Guarded(t, terms)
    ensures AskedWithinLimits(t, terms) && AskedWhenClear(t, terms)
    ensures ExactOnceRespected(t, terms) && StreaksBelowLimit(t, terms)
  {
    forall i | 0 <= i < |t|
      ensures var y := TallyOf(t[..i], terms.base);
              y.streak < 3 && (t[i].Asked? ==> MayAsk(y, t[i], terms)) && ExactOnceAt(t[i], terms)
    {
      GuardedPrefix(t, terms, i);
      OneGuard(TallyOf(t[..i], terms.base), t[i], terms);
    }
  }

  lemma OneGuard(y: Tally, e: Event, terms: Terms)
    requires MayFollow(y, e, terms)
    ensures y.streak < 3 && (e.Asked? ==> MayAsk(y, e, terms)) && ExactOnceAt(e, terms)
  {
    if e.Starts() || e.Rejected? {
      ClassMeaning(e.call);
    }
  }

  lemma ClassMeaning(call: ToolCall)
    ensures ToolReliabilityClass(call).UnsupportedExactOnce? <==> call.name !in REPEATABLE
  {
  }

  lemma {:induction false} StageIsTallied(t: seq<Event>, base: nat)
    ensures TallyOf(t, base).stage == StageOf(t)
  {
    if t != [] {
      StageIsTallied(t[..|t| - 1], base);
    }
  }

  lemma GuardedOnCourse(t: seq<Event>, terms: Terms)
    requires Guarded(t, terms)
    ensures !StageOf(t).Astray? && TallyOf(t, terms.base).stage == StageOf(t)
  {
    StageIsTallied(t, terms.base);
  }

  lemma GuardedShown(t: seq<Event>, terms: Terms)
    requires Guarded(t, terms)
    ensures ShownUnlessLast(t, terms)
  {
    forall i | 0 <= i < |t| - 1 && AnswerOf(t[i]).Some?
      ensures !terms.cut(AnswerOf(t[i]).value)
    {
      GuardedPrefix(t, terms, i);
      GuardedPrefix(t, terms, i + 1);
      assert t[..i + 1][..i] == t[..i];
      LatestAnswer(TallyOf(t[..i], terms.base).stage, t[i]);
    }
  }

  lemma LatestAnswer(s: Stage, e: Event)
    requires AnswerOf(e).Some? && !After(s, e).Astray?
    ensures After(s, e).Working? && After(s, e).latest == AnswerOf(e)
  {
  }

  // ---------------------------------------------------------------- what the protocol means

  /** The stages a turn goes through. */
  ghost predicate Passes(t: seq<Event>, stages: seq<Stage>) {
    && |stages| == |t| + 1 && stages[0] == Idle
    && forall n :: 0 <= n < |t| ==> PassesAt(t, stages, n)
  }

  ghost predicate PassesAt(t: seq<Event>, stages: seq<Stage>, n: nat)
    requires n < |t| && |stages| == |t| + 1
  {
    stages[n + 1] == After(stages[n], t[n]) && !stages[n + 1].Astray?
  }

  lemma {:induction false} OnCourse(t: seq<Event>) returns (stages: seq<Stage>)
    requires !StageOf(t).Astray?
    ensures Passes(t, stages) && stages[|t|] == StageOf(t)
  {
    if t == [] {
      stages := [Idle];
    } else {
      var front := t[..|t| - 1];
      var before := OnCourse(front);
      stages := before + [StageOf(t)];
      forall n | 0 <= n < |t|
        ensures PassesAt(t, stages, n)
      {
        assert n < |front| ==> PassesAt(front, before, n);
      }
    }
  }

  /** An answer that requests tools is acted on next, with just its text and its calls; any other ends the turn. */
  lemma AnswersAreActedOn(t: seq<Event>, i: nat)
    requires !StageOf(t).Astray? && i < |t| && t[i].Answered?
    ensures i > 0 && t[i - 1].Asked?
    ensures i + 1 < |t| ==>
              && !t[i].IsKilled()
              && match t[i].response
                 case ToolCalls(calls) => t[i + 1] == Planned("", calls)
                 case Mixed(text, calls) => t[i + 1] == Planned(text, calls)
                 case _ => false
  {
    var stages := OnCourse(t);
    assert PassesAt(t, stages, i) && (i > 0 ==> PassesAt(t, stages, i - 1)) && (i + 1 < |t| ==> PassesAt(t, stages, i + 1));
  }

  /** The turn ends with an answer that requests no tools and passed the inspector. */
  predicate EndsWithAnswer(t: seq<Event>) {
    && t != [] && t[|t| - 1].Answered?
    && (t[|t| - 1].response.Empty? || (t[|t| - 1].response.TextOnly? && !t[|t| - 1].verdict.KillAll?))
  }

  /** The turn ends with an answer that the inspector condemned. */
  predicate EndsCondemned(t: seq<Event>) {
    && t != [] && t[|t| - 1].Answered?
    && (t[|t| - 1].response.TextOnly? || t[|t| - 1].response.Mixed?) && t[|t| - 1].verdict.KillAll?
  }

  /** The turn ends with the answer to a call. */
  function FinalAnswer(t: seq<Event>): Option<Content> {
    if t == [] then None else AnswerOf(t[|t| - 1])
  }

  /** What the last stage says about the last event. */
  lemma LastStage(t: seq<Event>)
    requires !StageOf(t).Astray?
    ensures StageOf(t).Finished? <==> EndsWithAnswer(t)
    ensures StageOf(t).Finished? ==> StageOf(t).response == t[|t| - 1].response
    ensures StageOf(t).Condemned? <==> EndsCondemned(t)
    ensures FinalAnswer(t) == if StageOf(t).Working? then StageOf(t).latest else None
  {
  }

  /** Nothing is planned that the model did not just request. */
  lemma PlansAreRequested(t: seq<Event>, i: nat)
    requires !StageOf(t).Astray? && i < |t| && t[i].Planned?
    ensures i > 0 && t[i - 1].Answered? && t[i - 1].response.RequestsTools()
    ensures t[i] == Planned(t[i - 1].response.PlanText(), t[i - 1].response.PlanCalls())
  {
    var stages := OnCourse(t);
    assert PassesAt(t, stages, i) && (i > 0 ==> PassesAt(t, stages, i - 1));
  }

  /** A plan is refused only at once and as a whole, and after that the model is asked again. */
  lemma RefusalsAnswerPlans(t: seq<Event>, i: nat)
    requires !StageOf(t).Astray? && i < |t| && t[i].Refused?
    ensures i > 0 && t[i - 1].Planned? && t[i - 1].calls == t[i].calls && |t[i].calls| >= 2
    ensures i + 1 < |t| ==> t[i + 1].Asked?
  {
    var stages := OnCourse(t);
    assert PassesAt(t, stages, i) && (i > 0 ==> PassesAt(t, stages, i - 1)) && (i + 1 < |t| ==> PassesAt(t, stages, i + 1));
  }

  /** The calls of a plan that is not refused are attempted one by one in their order; only then is the model asked. */
  lemma CallsAreAttemptedInOrder(t: seq<Event>, i: nat, k: nat)
    requires !StageOf(t).Astray? && i < |t| && t[i].Planned? && i + 1 + k < |t| && k <= |t[i].calls|
    requires !t[i + 1].Refused?
    ensures if k < |t[i].calls| then t[i + 1 + k].IsAttempt() && t[i + 1 + k].call == t[i].calls[k]
            else t[i + 1 + k].Asked?
  {
    var stages := OnCourse(t);
    WorkGoesOn(t, stages, i, k);
    assert PassesAt(t, stages, i + 1 + k);
    NextInWork(stages[i + 1 + k], t[i].calls, k, t[i + 1 + k]);
  }

  /** `k` of the calls of a plan have been answered. */
  predicate InWork(s: Stage, calls: seq<ToolCall>, k: nat) {
    s.Working? && k <= |calls| && s.calls == calls[k..] && (k > 0 ==> s.latest.Some?)
  }

  lemma NextInWork(s: Stage, calls: seq<ToolCall>, k: nat, e: Event)
    requires InWork(s, calls, k) && !After(s, e).Astray? && (k == 0 ==> !e.Refused?)
    ensures if k < |calls| then e.IsAttempt() && e.call == calls[k] else e.Asked?
  {
  }

  lemma WorkStep(s: Stage, calls: seq<ToolCall>, k: nat, e: Event, next: Event)
    requires InWork(s, calls, k) && k < |calls| && e.IsAttempt() && !After(s, e).Astray?
    requires !After(After(s, e), next).Astray?
    ensures InWork(After(s, e), calls, k + 1)
  {
    assert calls[k..][1..] == calls[k + 1..];
  }

  lemma {:induction false} WorkGoesOn(t: seq<Event>, stages: seq<Stage>, i: nat, k: nat)
    requires Passes(t, stages) && i < |t| && t[i].Planned? && i + 1 + k < |t| && k <= |t[i].calls|
    requires !t[i + 1].Refused?
    ensures InWork(stages[i + 1 + k], t[i].calls, k)
    decreases k
  {
    if k == 0 {
      assert PassesAt(t, stages, i);
      assert t[i].calls[0..] == t[i].calls;
    } else {
      WorkGoesOn(t, stages, i, k - 1);
      var n := i + k;
      assert PassesAt(t, stages, n) && PassesAt(t, stages, n + 1);
      NextInWork(stages[n], t[i].calls, k - 1, t[n]);
      WorkStep(stages[n], t[i].calls, k - 1, t[n], t[n + 1]);
    }
  }

  lemma GuardedRequests(t: seq<Event>, terms: Terms)
    requires Guarded(t, terms) && terms.StartsSettled()
    ensures RequestsShaped(t, terms) && JournalSettled(t, terms)
  {
    GuardedAborts(t, terms);
    forall i | 0 <= i < |t| && t[i].Asked?
      ensures var y := TallyOf(t[..i], terms.base);
              && t[i].request == terms.initial + y.transcript && Blocks(y.transcript)
              && t[i].rows == terms.Journal(y.rows) && Settled(t[i].rows)
    {
      GuardedPrefix(t, terms, i);
      TranscriptShape(t[..i], terms);
      forall k | 0 <= k < i
        ensures !t[..i][k].Interrupted?
      {
        assert k < |t| - 1;
      }
      JournalIsSettled(t[..i], terms.base);
      JournalBounds(t[..i], terms.base);
      SettledAfter(terms, TallyOf(t[..i], terms.base).rows);
    }
  }

  /** Settled steps behind settled steps. */
  lemma SettledAfter(terms: Terms, rows: seq<StepRow>)
    requires terms.StartsSettled() && Settled(rows)
    requires forall i :: 0 <= i < |rows| ==> terms.base < rows[i].stepSeq
    ensures Settled(terms.Journal(rows))
  {
  }

  lemma GuardedAborts(t: seq<Event>, terms: Terms)
    requires Guarded(t, terms)
    ensures EndsAtAbort(t)
  {
    GuardedOnCourse(t, terms);
    AbortsAreLast(t);
  }

  lemma AbortsAreLast(t: seq<Event>)
    requires !StageOf(t).Astray?
    ensures EndsAtAbort(t)
  {
    var stages := OnCourse(t);
    forall i | 0 <= i < |t| - 1
      ensures !t[i].GaveUp? && !t[i].Rejected? && !t[i].Interrupted?
    {
      assert PassesAt(t, stages, i) && PassesAt(t, stages, i + 1);
    }
  }

  lemma GuardedVerdicts(t: seq<Event>, terms: Terms)
    requires Guarded(t, terms)
    ensures TextsInspected(t, terms) && PlansValidated(t, terms)
  {
    forall i | 0 <= i < |t|
      ensures t[i].Answered? ==> t[i].verdict == terms.Verdict(TallyOf(t[..i], terms.base).asks, t[i].response)
    {
      GuardedPrefix(t, terms, i);
    }
    forall i | 0 < i < |t| && t[i - 1].Planned?
      ensures var denial := terms.Denial(TallyOf(t[..i], terms.base).asks, t[i - 1].calls);
              (t[i].Refused? <==> denial.Some?) && (t[i].Refused? ==> t[i].reason == denial.value)
    {
      GuardedPrefix(t, terms, i);
      assert t[..i][..i - 1] == t[..i - 1] && t[..i][i - 1] == t[i - 1];
      GuardedPrefix(t, terms, i - 1);
      BehindAPlan(TallyOf(t[..i - 1], terms.base), t[i - 1], t[i], terms);
    }
  }

  /** What may follow a plan: its refusal, if it is denied, or the attempt at its first call. */
  lemma BehindAPlan(y: Tally, plan: Event, e: Event, terms: Terms)
    requires plan.Planned? && !After(y.stage, plan).Astray?
    requires MayFollow(Advance(y, plan, terms.base), e, terms)
    ensures var denial := terms.Denial(Advance(y, plan, terms.base).asks, plan.calls);
            (e.Refused? <==> denial.Some?) && (e.Refused? ==> e.reason == denial.value)
  {
  }

  // ---------------------------------------------------------------- what is counted as damage

  /** The writes and shell commands that succeeded. */
  function Destructions(t: seq<Event>): nat {
    if t == [] then 0
    else
      var e := t[|t| - 1];
      Destructions(t[..|t| - 1]) +
      if e.Executed? && e.outcome.Ok? && (e.call.name == "write_file" || e.call.name == "shell") then 1 else 0
  }

  lemma {:induction false} DamageMeaning(t: seq<Event>, base: nat)
    ensures TallyOf(t, base).damage == Destructions(t)
  {
    if t != [] {
      DamageMeaning(t[..|t| - 1], base);
    }
  }

  lemma GuardedSignatures(t: seq<Event>, terms: Terms)
    requires Guarded(t, terms)
    ensures NeverRetried(t) && SuppressedOnce(t)
  {
    forall i, j | 0 <= i < j < |t| && t[j].IsAttempt()
      ensures t[i].Fails() && t[j].Starts() ==> Signature(t[i].call) != Signature(t[j].call)
      ensures t[i].Suppressed? && t[j].Suppressed? ==> Signature(t[i].call) != Signature(t[j].call)
    {
      AttemptBySignature(t, terms, j);
      assert t[..j][i] == t[i];
    }
    forall j | 0 <= j < |t| && (t[j].Suppressed? || t[j].GaveUp?)
      ensures exists i :: 0 <= i < j && t[i].Fails() && Signature(t[i].call) == Signature(t[j].call)
      ensures t[j].GaveUp? ==>
                exists i :: 0 <= i < j && t[i].Suppressed? && Signature(t[i].call) == Signature(t[j].call)
    {
      AttemptBySignature(t, terms, j);
      assert forall i :: 0 <= i < j ==> t[..j][i] == t[i];
    }
  }

  /** How an attempt is treated, by what happened to its signature before. */
  ghost predicate CaughtBySignature(t: seq<Event>, j: nat)
    requires j < |t| && t[j].IsAttempt()
  {
    var s := Signature(t[j].call);
    && (t[j].Starts() || t[j].Rejected? ==> !FailedIn(t[..j], s))
    && (t[j].Suppressed? ==> FailedIn(t[..j], s) && !SuppressedIn(t[..j], s))
    && (t[j].GaveUp? ==> FailedIn(t[..j], s) && SuppressedIn(t[..j], s))
  }

  lemma AttemptBySignature(t: seq<Event>, terms: Terms, j: nat)
    requires Guarded(t, terms) && j < |t| && t[j].IsAttempt()
    ensures CaughtBySignature(t, j)
  {
    GuardedPrefix(t, terms, j);
    TriesMeaning(t[..j], terms, Signature(t[j].call));
  }

  /**
   The same in terms of tools and arguments: a call that failed is always caught when it comes again,
   and, as long as no tool name holds a colon, nothing else is.
   */
  lemma GuardedRepeats(t: seq<Event>, terms: Terms)
    requires Guarded(t, terms)
    ensures RepeatsAreCaught(t) && (PlainNames(t) ==> OnlyRepeatsAreCaught(t))
  {
    forall j | 0 <= j < |t| && t[j].IsAttempt()
      ensures CaughtByCall(t, j)
    {
      AttemptBySignature(t, terms, j);
      BySignatureIsByCall(t, j);
    }
  }

  ghost predicate CaughtByCall(t: seq<Event>, j: nat)
    requires j < |t| && t[j].IsAttempt()
  {
    && (FailedBefore(t, j) ==> t[j].Suppressed? || t[j].GaveUp?)
    && (PlainNames(t) && t[j].Suppressed? ==> FailedBefore(t, j) && !SuppressedBefore(t, j))
    && (PlainNames(t) && t[j].GaveUp? ==> FailedBefore(t, j) && SuppressedBefore(t, j))
  }

  lemma BySignatureIsByCall(t: seq<Event>, j: nat)
    requires j < |t| && t[j].IsAttempt() && CaughtBySignature(t, j)
    ensures CaughtByCall(t, j)
  {
    var s := Signature(t[j].call);
    assert forall i :: 0 <= i < j ==> t[..j][i] == t[i];
    assert FailedBefore(t, j) ==> FailedIn(t[..j], s);
    assert SuppressedBefore(t, j) ==> SuppressedIn(t[..j], s);
    if PlainNames(t) {
      if i :| 0 <= i < j && t[..j][i].Fails() && Signature(t[..j][i].call) == s {
        SignaturesTellApart(t[i].call, t[j].call);
      }
      if i :| 0 <= i < j && t[..j][i].Suppressed? && Signature(t[..j][i].call) == s {
        SignaturesTellApart(t[i].call, t[j].call);
      }
    }
  }

  /** Signatures tell calls apart whose tool names hold no colon. */
  lemma SignaturesTellApart(a: ToolCall, b: ToolCall)
    requires ':' !in a.name && ':' !in b.name
    ensures Signature(a) == Signature(b) <==> SameCall(a, b)
  {
    var s, s' := Signature(a), Signature(b);
    assert s[|a.name|] == ':' && s'[|b.name|] == ':';
    assert |a.name| < |b.name| ==> s'[|a.name|] == b.name[|a.name|];
    assert |b.name| < |a.name| ==> s[|b.name|] == a.name[|b.name|];
    if s == s' {
      assert s[..|a.name|] == a.name && s'[..|b.name|] == b.name;
      assert s[|a.name| + 2..] == a.arguments && s'[|b.name| + 2..] == b.arguments;
    }
  }

  /** With a colon they do not: tool `a` with `:x` and tool `a:` with `x` are different calls of one signature. */
  lemma ColonsCollide(one: ToolCall, two: ToolCall)
    requires one.arguments == [':'] + two.arguments && two.name == one.name + [':']
    ensures Signature(one) == Signature(two) && !SameCall(one, two)
  {
    assert |one.name| < |two.name|;
  }

  /** So once the one has failed, the other is never run. */
  lemma CollidingCalls(t: seq<Event>, terms: Terms)
    requires Guarded(t, terms)
    ensures forall i, j :: 0 <= i < j < |t| && t[i].Fails() && t[j].IsAttempt()
                           && t[i].call.arguments == [':'] + t[j].call.arguments && t[j].call.name == t[i].call.name + [':']
                           ==> t[j].Suppressed? || t[j].GaveUp?
  {
    forall i, j | 0 <= i < j < |t| && t[i].Fails() && t[j].IsAttempt()
                  && t[i].call.arguments == [':'] + t[j].call.arguments && t[j].call.name == t[i].call.name + [':']
      ensures t[j].Suppressed? || t[j].GaveUp?
    {
      ColonsCollide(t[i].call, t[j].call);
      AttemptBySignature(t, terms, j);
      assert t[..j][i] == t[i];
    }
  }

  /** An event leaves at most one row, under its own number, and only if it is an attempt. */
  lemma RowOfAttempt(e: Event, n: int)
    ensures |RowsOf(e, n)| <= 1
    ensures RowsOf(e, n) != [] ==> e.IsAttempt() && RowsOf(e, n)[0].stepSeq == n
  {
  }

  lemma {:induction false} JournalBounds(t: seq<Event>, base: nat)
    ensures var y := TallyOf(t, base);
            Increasing(y.rows) && forall i :: 0 <= i < |y.rows| ==> base < y.rows[i].stepSeq <= base + y.attempts
  {
    if t != [] {
      JournalBounds(t[..|t| - 1], base);
      RowOfAttempt(t[|t| - 1], base + TallyOf(t[..|t| - 1], base).attempts + 1);
    }
  }

  lemma {:induction false} JournalIsSettled(t: seq<Event>, base: nat)
    requires forall i :: 0 <= i < |t| ==> !t[i].Interrupted?
    ensures Settled(TallyOf(t, base).rows)
  {
    JournalBounds(t, base);
    if t != [] {
      JournalIsSettled(t[..|t| - 1], base);
    }
  }

  lemma {:induction false} GuardedIsBounded(t: seq<Event>, terms: Terms)
    requires Guarded(t, terms)
    ensures WithinBounds(TallyOf(t, terms.base), terms)
  {
    if t != [] {
      GuardedIsBounded(t[..|t| - 1], terms);
      StaysBounded(TallyOf(t[..|t| - 1], terms.base), t[|t| - 1], terms);
    }
  }

  lemma StaysBounded(y: Tally, e: Event, terms: Terms)
    requires WithinBounds(y, terms) && MayFollow(y, e, terms)
    ensures WithinBounds(Advance(y, e, terms.base), terms)
  {
  }

  lemma {:induction false} UpdateMisses(rows: seq<StepRow>, n: int, status: StepStatus)
    requires Below(rows, n)
    ensures UpdateStatus(rows, n, status) == rows
  {
    if rows != [] {
      UpdateMisses(rows[..|rows| - 1], n, status);
    }
  }

  /** A number that is taken keeps its row, and a step that has its verdict keeps it. */
  lemma {:induction false} RowsAreKept(rows: seq<StepRow>, n: int, call: ToolCall, status: StepStatus, i: nat)
    requires i < |rows|
    ensures rows[i].stepSeq == n ==> InsertStarted(rows, n, call) == rows
    ensures |UpdateStatus(rows, n, status)| == |rows|
    ensures UpdateStatus(rows, n, status)[i] ==
            if rows[i].stepSeq == n && rows[i].status == Started then rows[i].(status := status) else rows[i]
  {
    var front := rows[..|rows| - 1];
    if i < |front| {
      RowsAreKept(front, n, call, status, i);
    } else if front != [] {
      RowsAreKept(front, n, call, status, 0);
    }
  }

  /** Inserting and then closing the newest step touches no other row. */
  lemma JournalStep(rows: seq<StepRow>, n: int, call: ToolCall, status: StepStatus)
    requires Below(rows, n)
    ensures InsertStarted(rows, n, call) == rows + [StepRow(n, call, Started)]
    ensures UpdateStatus(rows + [StepRow(n, call, Started)], n, status) == rows + [StepRow(n, call, status)]
  {
    UpdateMisses(rows, n, status);
    assert (rows + [StepRow(n, call, Started)])[..|rows|] == rows;
  }

  function StreakOf(t: seq<Event>): nat {
    if t == [] || t[|t| - 1].IsSuccess() then 0
    else StreakOf(t[..|t| - 1]) + if t[|t| - 1].IsFailureEvent() then 1 else 0
  }

  lemma {:induction false} StreakIsTallied(t: seq<Event>, base: nat)
    ensures TallyOf(t, base).streak == StreakOf(t)
  {
    if t != [] {
      StreakIsTallied(t[..|t| - 1], base);
    }
  }

  /** A streak is what it says: the number of failures since the last success, or since the beginning. */
  lemma StreakIsTrailing(t: seq<Event>, base: nat) returns (k: nat)
    ensures k <= |t| && TallyOf(t, base).streak == FailuresIn(t[k..])
    ensures (forall i :: k <= i < |t| ==> !t[i].IsSuccess()) && (k == 0 || t[k - 1].IsSuccess())
  {
    StreakIsTallied(t, base);
    k := StreakStarts(t);
  }

  lemma {:induction false} StreakStarts(t: seq<Event>) returns (k: nat)
    ensures k <= |t| && StreakOf(t) == FailuresIn(t[k..])
    ensures (forall i :: k <= i < |t| ==> !t[i].IsSuccess()) && (k == 0 || t[k - 1].IsSuccess())
  {
    if t == [] || t[|t| - 1].IsSuccess() {
      k := |t|;
      assert t[k..] == [];
    } else {
      var before, e := t[..|t| - 1], t[|t| - 1];
      k := StreakStarts(before);
      FailuresSnoc(before[k..], e);
      SuffixSnoc(t, k);
      assert FailuresIn(t[k..]) == StreakOf(t);
      assert forall i :: 0 <= i < |before| ==> before[i] == t[i];
    }
  }

  lemma SuffixSnoc(t: seq<Event>, k: nat)
    requires k < |t|
    ensures t[k..] == t[..|t| - 1][k..] + [t[|t| - 1]]
  {
  }

  lemma FailuresSnoc(t: seq<Event>, e: Event)
    ensures FailuresIn(t + [e]) == FailuresIn(t) + if e.IsFailureEvent() then 1 else 0
  {
    assert (t + [e])[..|t|] == t;
  }

  function FailuresIn(t: seq<Event>): nat {
    if t == [] then 0 else FailuresIn(t[..|t| - 1]) + if t[|t| - 1].IsFailureEvent() then 1 else 0
  }

  // ---------------------------------------------------------------- histories

  /** The same account kept as a list, which is how the loop writes it down. */
  datatype History = Beginning | Then(past: History, event: Event)

  function Events(h: History): seq<Event> {
    match h
    case Beginning => []
    case Then(past, e) => Events(past) + [e]
  }

  function Replay(h: History, base: nat): Tally {
    match h
    case Beginning => NOTHING
    case Then(past, e) => Advance(Replay(past, base), e, base)
  }

  predicate Obeyed(h: History, terms: Terms) {
    match h
    case Beginning => true
    case Then(past, e) => Obeyed(past, terms) && MayFollow(Replay(past, terms.base), e, terms)
  }

  lemma {:induction false} HistoryIsGuarded(h: History, terms: Terms)
    requires Obeyed(h, terms)
    ensures Replay(h, terms.base) == TallyOf(Events(h), terms.base)
    ensures Guarded(Events(h), terms)
  {
    if h.Then? {
      HistoryIsGuarded(h.past, terms);
      assert Events(h)[..|Events(h)| - 1] == Events(h.past);
    }
  }

  /** What the loop needs to know of its own past: step numbers are fresh, and tries are 1 or 2. */
  lemma {:induction false} HistoryFacts(h: History, terms: Terms)
    requires Obeyed(h, terms)
    ensures var y := Replay(h, terms.base);
            Below(y.rows, terms.base + y.attempts + 1) && forall s :: s in y.tries ==> 1 <= y.tries[s] <= 2
  {
    if h.Then? {
      HistoryFacts(h.past, terms);
    }
  }
}
