/** The chat tool loop of the OpenAI-compatible adapter: model turns around HTTP 429 retries, over one growing
    conversation and one token ledger. The HTTP endpoint and the tool handlers are arbitrary. */
module ChatLoop {
  import opened Collections
  import Texts

  // ---- The conversation and the environment ----

  /** A tool call of the model; a call that cannot be parsed has no name or id. */
  datatype Call = Unparsed | Call(name: string, id: string)

  datatype Message =
    | System(text: string)
    | User(text: string)
    | Assistant(content: Option<string>, calls: seq<Call>)
    | Tool(id: string, output: string)

  /** Measured input and output tokens. */
  type Tokens = (nat, nat)

  datatype Body =
    | Unusable
    | Completion(content: Option<string>, calls: seq<Call>, usage: Option<Tokens>, truncated: bool)

  /** What came of one post: no response, cancellation of the case while it was sent or waited for, or a response with
      the provider code the adapter may keep, empty if there is none. */
  datatype Reply =
    | Broken(timedOut: bool)
    | Interrupted
    | Responded(status: int, code: string, body: Body, retryAfter: Option<real>)

  datatype Handled = Returned(output: string) | WrongArguments | Reraised | Raised | Abandoned

  /** `reply(n)` answers the n-th post; `handle(n, i)` is what the handler of call `i` of that answer does. */
  datatype Environment = Environment(reply: nat -> Reply, handle: (nat, nat) -> Handled)

  datatype Config = Config(
    instructions: string, prompt: string, tools: set<string>,
    maxCalls: nat, maxAttempts: nat, allowance: Tokens, initialDelay: real, maxDelay: real)
  {
    predicate Legal() { maxCalls >= 1 && maxAttempts >= 1 && 0.0 <= initialDelay <= maxDelay }
  }

  datatype Exchange = Exchange(request: seq<Message>, reply: Reply)

  predicate Limited(r: Reply) { r.Responded? && r.status == 429 }

  predicate Completed(r: Reply) { r.Responded? && r.status == 200 }

  /** Replies after which nobody knows what the provider consumed. */
  predicate Unknowable(r: Reply) {
    r.Broken? || (r.Responded? && r.status != 200 && (r.status == 408 || !(400 <= r.status <= 499)))
  }

  // ---- The wait before a retry ----

  /** The initial delay, doubled n times. */
  function Doubled(initial: real, n: nat): real {
    if n == 0 then initial else 2.0 * Doubled(initial, n - 1)
  }

  /** `retry_delay_seconds` */
  function RetryDelay(failed: nat, retryAfter: Option<real>, initial: real, maximum: real): real {
    if retryAfter.None? then
      var fallback := Doubled(initial, if failed >= 1 then failed - 1 else 0);
      if fallback < maximum then fallback else maximum
    else
      var asked := if retryAfter.value > 0.0 then retryAfter.value else 0.0;
      if asked < maximum then asked else maximum
  }

  // ---- The ledger ----

  datatype RateLimit = RateLimit(status: int, code: string)

  /** What an adapter response says of the calls it made. */
  datatype Usage = Usage(tokens: Option<Tokens>, modelCalls: nat, unknownCalls: nat, limits: seq<RateLimit>)

  datatype Totals = Totals(
    modelCalls: nat, input: nat, output: nat, known: bool, unknownCalls: nat, limits: seq<RateLimit>)
  {
    function Reported(): Usage {
      Usage(if known then Some((input, output)) else None, modelCalls, unknownCalls, limits)
    }

    function Charged(allowance: Tokens): Totals {
      var t := this.(unknownCalls := unknownCalls + 1);
      if known then t.(input := input + allowance.0, output := output + allowance.1) else t
    }
  }

  const NOTHING := Totals(0, 0, 0, true, 0, [])

  class Ledger {
    var modelCalls: nat
    var inputTokens: nat
    var outputTokens: nat
    var usageKnown: bool
    var unknownCalls: nat
    var rateLimitEvents: seq<RateLimit>

    function View(): Totals
      reads this
    {
      Totals(modelCalls, inputTokens, outputTokens, usageKnown, unknownCalls, rateLimitEvents)
    }

    constructor ()
      ensures View() == NOTHING
    {
      modelCalls, inputTokens, outputTokens, usageKnown, unknownCalls, rateLimitEvents := 0, 0, 0, true, 0, [];
    }

    method NoteRetryable(status: int, code: string)
      modifies this
      ensures View() == old(View()).(limits := old(View()).limits + [RateLimit(status, code)])
    {
      rateLimitEvents := rateLimitEvents + [RateLimit(status, code)];
    }

    method AddUsage(usage: Option<Tokens>)
      modifies this
      ensures View() == Counted(old(View()), usage)
    {
      if usage.None? {
        usageKnown := false;
        return;
      }
      inputTokens := inputTokens + usage.value.0;
      outputTokens := outputTokens + usage.value.1;
    }

    method ChargeUnknownCall(allowance: Tokens) returns (priced: bool)
      modifies this
      ensures View() == old(View()).Charged(allowance)
      ensures priced == View().known
    {
      unknownCalls := unknownCalls + 1;
      if !usageKnown { return false; }
      inputTokens := inputTokens + allowance.0;
      outputTokens := outputTokens + allowance.1;
      return true;
    }

  }

  function Counted(t: Totals, usage: Option<Tokens>): Totals {
    if usage.None? then t.(known := false)
    else t.(input := t.input + usage.value.0, output := t.output + usage.value.1)
  }

  /** What one reply does to the ledger. */
  function Booked(c: Config, t: Totals, r: Reply): Totals {
    if Limited(r) then t.(limits := t.limits + [RateLimit(r.status, r.code)])
    else if r.Interrupted? then t.(known := false)
    else if Completed(r) then
      Counted(t.(modelCalls := t.modelCalls + 1), if r.body.Unusable? then None else r.body.usage)
    else if Unknowable(r) then t.Charged(c.allowance)
    else t
  }

  function TotalsOf(c: Config, log: seq<Exchange>): Totals {
    if log == [] then NOTHING else Booked(c, TotalsOf(c, log[..|log| - 1]), log[|log| - 1].reply)
  }

  // ---- The loop as a log of exchanges ----

  function Opening(c: Config): seq<Message> {
    (if |c.instructions| > 0 then [System(c.instructions)] else []) + [User(c.prompt)]
  }

  predicate Answers(c: Config, env: Environment, n: nat, i: nat, call: Call) {
    call.Call? && call.name in c.tools && env.handle(n, i).Returned?
  }

  /** The first call from position `i` on that gets no answer, or the number of calls. */
  function FirstUnanswered(c: Config, env: Environment, n: nat, calls: seq<Call>, i: nat): (stuck: nat)
    requires i <= |calls|
    ensures i <= stuck <= |calls|
    ensures stuck < |calls| ==> !Answers(c, env, n, stuck, calls[stuck])
    ensures forall k | i <= k < stuck :: Answers(c, env, n, k, calls[k])
    decreases |calls| - i
  {
    if i < |calls| && Answers(c, env, n, i, calls[i]) then FirstUnanswered(c, env, n, calls, i + 1) else i
  }

  function AnswerTo(env: Environment, n: nat, i: nat, call: Call): Message {
    Tool(if call.Call? then call.id else [], if env.handle(n, i).Returned? then env.handle(n, i).output else [])
  }

  function AnswersTo(env: Environment, n: nat, calls: seq<Call>): seq<Message> {
    seq(|calls|, i requires 0 <= i < |calls| => AnswerTo(env, n, i, calls[i]))
  }

  /** The messages of the post that follows `log`. */
  function NextRequest(c: Config, env: Environment, log: seq<Exchange>): seq<Message> {
    if log == [] then Opening(c)
    else
      var last := log[|log| - 1];
      if Completed(last.reply) && last.reply.body.Completion? then
        var body := last.reply.body;
        last.request + [Assistant(body.content, body.calls)] + AnswersTo(env, |log| - 1, body.calls)
      else last.request
  }

  /** How many posts in a row were answered 429 at the end of the log. */
  function LimitedTail(log: seq<Exchange>): nat {
    if log == [] || !Limited(log[|log| - 1].reply) then 0 else 1 + LimitedTail(log[..|log| - 1])
  }

  /** Whether the loop posts again after `log`. */
  predicate GoesOn(c: Config, env: Environment, log: seq<Exchange>) {
    if log == [] then c.maxCalls >= 1
    else
      var reply := log[|log| - 1].reply;
      if Limited(reply) then LimitedTail(log) < c.maxAttempts
      else
        && Completed(reply) && reply.body.Completion? && reply.body.calls != []
        && TotalsOf(c, log).modelCalls < c.maxCalls
        && FirstUnanswered(c, env, |log| - 1, reply.body.calls, 0) == |reply.body.calls|
  }

  /** A log the loop can produce: each post follows from those before it. */
  predicate Follows(c: Config, env: Environment, log: seq<Exchange>) {
    log == [] ||
    var done := log[..|log| - 1];
    && GoesOn(c, env, done)
    && log[|log| - 1] == Exchange(NextRequest(c, env, done), env.reply(|done|))
    && Follows(c, env, done)
  }

  // ---- How it ends ----

  datatype Code =
    | RateLimited | TimedOut | ConnectionError | HttpRedirect | Http5xx | Http4xx | UnknownError
    | MalformedResponse | ModelBehavior | OutputTruncated | MaxTurnsExceeded | ToolError

  datatype FailureKind = ProviderFailure | TimeoutFailure | AssertionFailure | ToolFailure

  datatype Category = ProviderFault | EvaluationFault | ToolFault

  /** `complete` is the error's claim that its usage is complete; `providerCode` is empty unless a status error kept
      one. */
  datatype Outcome =
    | Answer(text: string, usage: Usage, toolCalls: nat)
    | Failed(code: Code, kind: FailureKind, category: Category, ambiguous: bool, safe: bool,
             usage: Usage, complete: bool, providerCode: string)
    | HandlerFailed
    | Cancelled

  function Failure(code: Code, kind: FailureKind, ambiguous: bool, t: Totals): Outcome {
    Failed(code, kind, ProviderFault, ambiguous, false, t.Reported(), t.known, "")
  }

  function StatusFailure(status: int, providerCode: string, t: Totals): Outcome {
    var error := (code: Code, kind: FailureKind, ambiguous: bool, safe: bool) =>
      Failed(code, kind, ProviderFault, ambiguous, safe, t.Reported(), t.known, providerCode);
    if status == 429 then error(RateLimited, ProviderFailure, false, true)
    else if status == 408 then error(TimedOut, TimeoutFailure, true, false)
    else if 300 <= status < 400 then error(HttpRedirect, ProviderFailure, true, false)
    else if 500 <= status <= 599 then error(Http5xx, ProviderFailure, true, false)
    else if 400 <= status <= 499 then error(Http4xx, ProviderFailure, false, false)
    else error(UnknownError, ProviderFailure, true, false)
  }

  function MaxTurns(t: Totals): Outcome {
    Failed(MaxTurnsExceeded, AssertionFailure, EvaluationFault, false, false, t.Reported(), t.known, "")
  }

  function ToolRaised(t: Totals): Outcome {
    Failed(ToolError, ToolFailure, ToolFault, false, false, t.Reported(), t.known, "")
  }

  function NoResponse(timedOut: bool, t: Totals): Outcome {
    if timedOut then Failure(TimedOut, TimeoutFailure, true, t) else Failure(ConnectionError, ProviderFailure, true, t)
  }

  function UnansweredCall(c: Config, env: Environment, n: nat, i: nat, call: Call, t: Totals): Outcome {
    if call.Unparsed? || call.name !in c.tools then Failure(ModelBehavior, ProviderFailure, true, t)
    else
      match env.handle(n, i)
      case Reraised => HandlerFailed
      case Abandoned => Cancelled
      case Raised => ToolRaised(t)
      case _ => Failure(ModelBehavior, ProviderFailure, true, t)
  }

  /** The tool calls of the last reply. */
  function LastCalls(log: seq<Exchange>): nat {
    if log == [] then 0
    else
      var reply := log[|log| - 1].reply;
      if Completed(reply) && reply.body.Completion? then |reply.body.calls| else 0
  }

  /** The tool calls answered before the last post. */
  function ToolCalls(log: seq<Exchange>): nat {
    if log == [] then 0 else ToolCalls(log[..|log| - 1]) + LastCalls(log[..|log| - 1])
  }

  /** White space as Python's `str.strip` removes it. */
  predicate Stripped(text: string) {
    forall i | 0 <= i < |text| :: Texts.IsSpace(text[i]) || 0x1C <= text[i] as int <= 0x1F
  }

  function FinalText(body: Body, t: Totals, toolCalls: nat): Outcome
    requires body.Completion?
  {
    if body.truncated && (body.content.None? || Stripped(body.content.value))
    then Failure(OutputTruncated, ProviderFailure, false, t)
    else if body.content.None? then Failure(ModelBehavior, ProviderFailure, true, t)
    else Answer(body.content.value, t.Reported(), toolCalls)
  }

  function OutcomeOf(c: Config, env: Environment, log: seq<Exchange>): Outcome
    requires log != [] && !GoesOn(c, env, log)
  {
    var n := |log| - 1;
    var t := TotalsOf(c, log);
    match log[n].reply
    case Broken(timedOut) => NoResponse(timedOut, t)
    case Interrupted => Cancelled
    case Responded(status, code, body, _) =>
      if status != 200 then StatusFailure(status, code, t)
      else if body.Unusable? then Failure(MalformedResponse, ProviderFailure, true, t)
      else if body.calls == [] then FinalText(body, t, ToolCalls(log))
      else if t.modelCalls >= c.maxCalls then MaxTurns(t)
      else
        var i := FirstUnanswered(c, env, n, body.calls, 0);
        UnansweredCall(c, env, n, i, body.calls[i], t)
  }

  /** The time slept before the posts of a log: a delay after each 429 that was followed by another post. */
  function Slept(c: Config, log: seq<Exchange>): real {
    if |log| <= 1 then 0.0
    else
      var done := log[..|log| - 1];
      Slept(c, done) + DelayAfter(c, done)
  }

  function DelayAfter(c: Config, log: seq<Exchange>): real
    requires log != []
  {
    var reply := log[|log| - 1].reply;
    if Limited(reply) then RetryDelay(LimitedTail(log), reply.retryAfter, c.initialDelay, c.maxDelay) else 0.0
  }

  // ---- The code ----

  class Conversation {
    var messages: seq<Message>

    constructor (c: Config)
      ensures messages == Opening(c)
    {
      messages := [];
      if |c.instructions| > 0 { messages := [System(c.instructions)]; }
      messages := messages + [User(c.prompt)];
    }
  }

  /** `_execute_tools`: answer the calls in order, stopping at the first that cannot be answered. */
  method ExecuteTools(
    c: Config, env: Environment, n: nat, calls: seq<Call>, conversation: Conversation, ledger: Ledger)
    returns (failure: Option<Outcome>, executed: nat)
    modifies conversation
    ensures executed == FirstUnanswered(c, env, n, calls, 0)
    ensures executed == |calls| ==>
      failure.None? && conversation.messages == old(conversation.messages) + AnswersTo(env, n, calls)
    ensures executed < |calls| ==>
      failure == Some(UnansweredCall(c, env, n, executed, calls[executed], ledger.View()))
  {
    executed := 0;
    while executed < |calls|
      invariant executed <= |calls|
      invariant FirstUnanswered(c, env, n, calls, executed) == FirstUnanswered(c, env, n, calls, 0)
      invariant conversation.messages == old(conversation.messages) + AnswersTo(env, n, calls)[..executed]
    {
      var call := calls[executed];
      if call.Unparsed? { return Some(Failure(ModelBehavior, ProviderFailure, true, ledger.View())), executed; }
      if call.name !in c.tools { return Some(Failure(ModelBehavior, ProviderFailure, true, ledger.View())), executed; }
      match env.handle(n, executed)
      case Reraised => return Some(HandlerFailed), executed;
      case Abandoned => return Some(Cancelled), executed;
      case WrongArguments => return Some(Failure(ModelBehavior, ProviderFailure, true, ledger.View())), executed;
      case Raised => return Some(ToolRaised(ledger.View())), executed;
      case Returned(output) =>
        conversation.messages := conversation.messages + [Tool(call.id, output)];
        executed := executed + 1;
    }
    failure := None;
  }

  /** Appending the reply to the next post keeps a log a log. */
  lemma LogGrows(c: Config, env: Environment, log: seq<Exchange>, e: Exchange)
    requires Follows(c, env, log) && GoesOn(c, env, log)
    requires e == Exchange(NextRequest(c, env, log), env.reply(|log|))
    ensures Follows(c, env, log + [e]) && TotalsOf(c, log + [e]) == Booked(c, TotalsOf(c, log), e.reply)
    ensures LimitedTail(log + [e]) == if Limited(e.reply) then LimitedTail(log) + 1 else 0
    ensures ToolCalls(log + [e]) == ToolCalls(log) + LastCalls(log)
    ensures (log + [e])[..|log|] == log
  {
  }

  /** Before a chat call: the log so far goes on, and the conversation and the ledger say what it says. */
  predicate Ready(c: Config, env: Environment, log: seq<Exchange>, messages: seq<Message>, totals: Totals) {
    && Follows(c, env, log) && GoesOn(c, env, log)
    && messages == NextRequest(c, env, log) && totals == TotalsOf(c, log)
  }

  /** `_post_with_retry`: repeat one chat call while it is rate limited, sleeping in between. The reply is booked when
      it is a 429 or when no response arrived; otherwise the caller books it. */
  method PostWithRetry(
    c: Config, env: Environment, conversation: Conversation, ledger: Ledger, before: seq<Exchange>, sleptBefore: real)
    returns (log: seq<Exchange>, slept: real)
    requires Ready(c, env, before, conversation.messages, ledger.View())
    requires LimitedTail(before) == 0 && c.maxAttempts >= 1 && sleptBefore == Slept(c, before)
    modifies ledger
    ensures Follows(c, env, log) && |log| > |before| && slept == Slept(c, log)
    ensures log[|log| - 1].request == conversation.messages
    ensures ToolCalls(log) == ToolCalls(before) + LastCalls(before)
    ensures ledger.modelCalls == old(ledger.modelCalls)
    ensures Limited(log[|log| - 1].reply) ==> !GoesOn(c, env, log)
    ensures Posted(c, log, ledger.View())
  {
    log, slept := before, sleptBefore;
    var tries := 0;
    while true
      invariant Ready(c, env, log, conversation.messages, ledger.View())
      invariant LimitedTail(log) == tries < c.maxAttempts && ledger.modelCalls == old(ledger.modelCalls)
      invariant |log| >= |before| && ToolCalls(log) + LastCalls(log) == ToolCalls(before) + LastCalls(before)
      invariant slept == SleptUpTo(c, log)
      decreases c.maxAttempts - tries
    {
      tries := tries + 1;
      var reply := env.reply(|log|);
      var exchange := Exchange(conversation.messages, reply);
      LogGrows(c, env, log, exchange);
      SleepGrows(c, log, exchange);
      log := log + [exchange];
      if reply.Broken? {
        var _ := ledger.ChargeUnknownCall(c.allowance);
        return;
      }
      if reply.Interrupted? || reply.status != 429 { return; }
      ledger.NoteRetryable(reply.status, reply.code);
      if tries >= c.maxAttempts { return; }
      slept := slept + RetryDelay(tries, reply.retryAfter, c.initialDelay, c.maxDelay);
    }
  }

  /** The time slept before the post that follows the log. */
  function SleptUpTo(c: Config, log: seq<Exchange>): real {
    if log == [] then 0.0 else Slept(c, log) + DelayAfter(c, log)
  }

  lemma SleepGrows(c: Config, log: seq<Exchange>, e: Exchange)
    ensures Slept(c, log + [e]) == SleptUpTo(c, log)
  {
    assert (log + [e])[..|log|] == log;
  }

  /** `_status_error`: price the call when its consumption is unknown. */
  method StatusError(c: Config, status: int, providerCode: string, ledger: Ledger) returns (outcome: Outcome)
    requires status != 200
    modifies ledger
    ensures
      var t := old(ledger.View());
      ledger.View() == if status == 408 || !(400 <= status <= 499) then t.Charged(c.allowance) else t
    ensures outcome == StatusFailure(status, providerCode, ledger.View())
  {
    var code, kind, ambiguous, safe := UnknownError, ProviderFailure, true, false;
    if status == 429 {
      code, ambiguous, safe := RateLimited, false, true;
    } else if status == 408 {
      code, kind := TimedOut, TimeoutFailure;
      var _ := ledger.ChargeUnknownCall(c.allowance);
    } else if 300 <= status < 400 {
      code := HttpRedirect;
      var _ := ledger.ChargeUnknownCall(c.allowance);
    } else if 500 <= status <= 599 {
      code := Http5xx;
      var _ := ledger.ChargeUnknownCall(c.allowance);
    } else if 400 <= status <= 499 {
      code, ambiguous := Http4xx, false;
    } else {
      var _ := ledger.ChargeUnknownCall(c.allowance);
    }
    var t := ledger.View();
    return Failed(code, kind, ProviderFault, ambiguous, safe, t.Reported(), t.known, providerCode);
  }

  /** What `run` does with a completion: finish, or answer the tool calls so that the loop can post again. */
  method TakeCompletion(
    c: Config, env: Environment, log: seq<Exchange>, conversation: Conversation, ledger: Ledger, toolCount: nat)
    returns (outcome: Option<Outcome>, executed: nat)
    requires Follows(c, env, log) && log != [] && Completed(log[|log| - 1].reply)
    requires conversation.messages == log[|log| - 1].request && toolCount == ToolCalls(log)
    requires ledger.View() == TotalsOf(c, log[..|log| - 1])
    modifies conversation, ledger
    ensures ledger.View() == TotalsOf(c, log) && ledger.modelCalls == old(ledger.modelCalls) + 1
    ensures outcome.Some? ==> !GoesOn(c, env, log) && outcome.value == OutcomeOf(c, env, log)
    ensures outcome.None? ==>
      GoesOn(c, env, log) && conversation.messages == NextRequest(c, env, log) && executed == LastCalls(log)
  {
    executed := 0;
    var body := log[|log| - 1].reply.body;
    ledger.modelCalls := ledger.modelCalls + 1;
    if body.Unusable? {
      ledger.usageKnown := false;
      return Some(Failure(MalformedResponse, ProviderFailure, true, ledger.View())), executed;
    }
    ledger.AddUsage(body.usage);
    if body.calls == [] { return Some(FinalText(body, ledger.View(), toolCount)), executed; }
    if ledger.modelCalls >= c.maxCalls { return Some(MaxTurns(ledger.View())), executed; }
    conversation.messages := conversation.messages + [Assistant(body.content, body.calls)];
    outcome, executed := ExecuteTools(c, env, |log| - 1, body.calls, conversation, ledger);
  }

  /** Whether the ledger has the reply to the last post, as it stands when `_post_with_retry` returns. */
  predicate Posted(c: Config, log: seq<Exchange>, totals: Totals) {
    log != [] &&
    var reply := log[|log| - 1].reply;
    totals == TotalsOf(c, if Limited(reply) || reply.Broken? then log else log[..|log| - 1])
  }

  /** What `run` does with whatever a chat call brought. */
  method TakeReply(
    c: Config, env: Environment, log: seq<Exchange>, conversation: Conversation, ledger: Ledger, toolCount: nat)
    returns (outcome: Option<Outcome>, executed: nat)
    requires Follows(c, env, log) && Posted(c, log, ledger.View())
    requires Limited(log[|log| - 1].reply) ==> !GoesOn(c, env, log)
    requires conversation.messages == log[|log| - 1].request && toolCount == ToolCalls(log)
    modifies conversation, ledger
    ensures outcome.Some? ==> !GoesOn(c, env, log) && outcome.value == OutcomeOf(c, env, log)
    ensures outcome.None? ==>
      && GoesOn(c, env, log) && conversation.messages == NextRequest(c, env, log) && executed == LastCalls(log)
      && Completed(log[|log| - 1].reply)
      && ledger.View() == TotalsOf(c, log) && ledger.modelCalls == old(ledger.modelCalls) + 1
  {
    executed := 0;
    var reply := log[|log| - 1].reply;
    if reply.Broken? { return Some(NoResponse(reply.timedOut, ledger.View())), executed; }
    if reply.Interrupted? {
      ledger.usageKnown := false;
      return Some(Cancelled), executed;
    }
    if reply.status != 200 {
      var error := StatusError(c, reply.status, reply.code, ledger);
      return Some(error), executed;
    }
    outcome, executed := TakeCompletion(c, env, log, conversation, ledger, toolCount);
  }

  /** `run`: ask the model, answer its tool calls, and ask again until it stops asking. The loop is left only from
      inside, so its guard is an invariant here. */
  method Run(c: Config, env: Environment) returns (outcome: Outcome, log: seq<Exchange>, slept: real)
    requires c.Legal()
    ensures log != [] && Follows(c, env, log) && !GoesOn(c, env, log)
    ensures outcome == OutcomeOf(c, env, log) && slept == Slept(c, log)
  {
    var conversation := new Conversation(c);
    var ledger := new Ledger();
    var toolCount := 0;
    log, slept := [], 0.0;
    while true
      invariant fresh(ledger) && fresh(conversation)
      invariant Ready(c, env, log, conversation.messages, ledger.View()) && LimitedTail(log) == 0
      invariant ledger.modelCalls < c.maxCalls && toolCount == ToolCalls(log) + LastCalls(log)
      invariant slept == Slept(c, log)
      decreases c.maxCalls - ledger.modelCalls
    {
      log, slept := PostWithRetry(c, env, conversation, ledger, log, slept);
      var ended, executed := TakeReply(c, env, log, conversation, ledger, toolCount);
      if ended.Some? { return ended.value, log, slept; }
      toolCount := toolCount + executed;
    }
  }
}
