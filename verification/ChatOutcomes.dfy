/** What a run of the chat tool loop sends, when it stops and what it then reports, in terms of the replies and of
    what the handlers did. */
module ChatOutcomes {
  import opened Collections
  import Texts
  import opened ChatLoop
  import opened ChatTheorems

  // ---- What is sent ----

  /** The opening, and that the replies are those of the endpoint in order. */
  lemma FirstRequest(c: Config, env: Environment, log: seq<Exchange>)
    requires Follows(c, env, log) && log != []
    ensures log[0].request ==
            if c.instructions == "" then [User(c.prompt)] else [System(c.instructions), User(c.prompt)]
    ensures forall n | 0 <= n < |log| :: log[n].reply == env.reply(n)
  {
    PrefixFollows(c, env, log, 0);
    assert log[..0] == [];
    forall n | 0 <= n < |log| ensures log[n].reply == env.reply(n) {
      PrefixFollows(c, env, log, n);
    }
  }

  lemma AnsweredCall(c: Config, env: Environment, n: nat, calls: seq<Call>, k: nat)
    requires k < |calls| && FirstUnanswered(c, env, n, calls, 0) == |calls|
    ensures calls[k].Call? && calls[k].name in c.tools && env.handle(n, k).Returned?
    ensures AnswersTo(env, n, calls)[k] == Tool(calls[k].id, env.handle(n, k).output)
  {
    assert Answers(c, env, n, k, calls[k]);
  }

  /** A post after a completion adds the completion and, for each of its calls in order, what the handler of that very
      call returned, under the id of the call. */
  lemma HandlerOutputsSent(c: Config, env: Environment, log: seq<Exchange>, n: nat, k: nat)
    requires Follows(c, env, log) && 0 < n < |log|
    requires Completed(log[n - 1].reply) && log[n - 1].reply.body.Completion?
    ensures
      var body, before, after := log[n - 1].reply.body, log[n - 1].request, log[n].request;
      && |after| == |before| + 1 + |body.calls|
      && after[..|before|] == before
      && after[|before|] == Assistant(body.content, body.calls)
      && (k < |body.calls| ==>
            && body.calls[k].Call? && body.calls[k].name in c.tools && env.handle(n - 1, k).Returned?
            && after[|before| + 1 + k] == Tool(body.calls[k].id, env.handle(n - 1, k).output))
  {
    PrefixFollows(c, env, log, n);
    var body := log[n - 1].reply.body;
    if k < |body.calls| { AnsweredCall(c, env, n - 1, body.calls, k); }
  }

  // ---- When it stops ----

  lemma {:induction false} TailIsLimited(log: seq<Exchange>, j: nat)
    requires |log| - LimitedTail(log) <= j < |log|
    ensures Limited(log[j].reply)
  {
    if j < |log| - 1 { TailIsLimited(log[..|log| - 1], j); }
  }

  lemma {:induction false} TailStops(log: seq<Exchange>)
    ensures LimitedTail(log) <= |log|
    ensures LimitedTail(log) < |log| ==> !Limited(log[|log| - 1 - LimitedTail(log)].reply)
  {
    if log != [] && Limited(log[|log| - 1].reply) { TailStops(log[..|log| - 1]); }
  }

  /** The last `attempts` replies were all 429. */
  predicate GaveUp(log: seq<Exchange>, attempts: nat) {
    attempts <= |log| && forall j | |log| - attempts <= j < |log| :: Limited(log[j].reply)
  }

  lemma GaveUpIsTail(log: seq<Exchange>, attempts: nat)
    ensures GaveUp(log, attempts) <==> LimitedTail(log) >= attempts
  {
    TailStops(log);
    forall j: nat | |log| - LimitedTail(log) <= j < |log| ensures Limited(log[j].reply) {
      TailIsLimited(log, j);
    }
  }

  /** Every call named a tool, and its handler returned. */
  predicate AllAnswered(c: Config, env: Environment, n: nat, calls: seq<Call>) {
    forall k | 0 <= k < |calls| :: calls[k].Call? && calls[k].name in c.tools && env.handle(n, k).Returned?
  }

  /** The loop posts again after a 429 unless the attempts are used up, and after a completion exactly when it asks for
      tools, model calls are left and every tool answered; after anything else it stops. */
  lemma GoesOnExactlyWhen(c: Config, env: Environment, log: seq<Exchange>)
    requires log != []
    ensures
      var reply := log[|log| - 1].reply;
      GoesOn(c, env, log) <==>
        reply.Responded? &&
        if reply.status == 429 then !GaveUp(log, c.maxAttempts)
        else
          && reply.status == 200 && reply.body.Completion? && reply.body.calls != []
          && Sum(log, CompletedOne) < c.maxCalls
          && AllAnswered(c, env, |log| - 1, reply.body.calls)
  {
    var reply := log[|log| - 1].reply;
    CountsOf(c, log);
    GaveUpIsTail(log, c.maxAttempts);
    if Completed(reply) && reply.body.Completion? {
      var n, calls := |log| - 1, reply.body.calls;
      var stuck := FirstUnanswered(c, env, n, calls, 0);
      assert forall k | 0 <= k < |calls| ::
        Answers(c, env, n, k, calls[k]) <==> calls[k].Call? && calls[k].name in c.tools && env.handle(n, k).Returned?;
    }
  }

  // ---- What it reports ----

  /** The tool calls a reply asks for. */
  function CallsIn(e: Exchange): int {
    if Completed(e.reply) && e.reply.body.Completion? then |e.reply.body.calls| else 0
  }

  lemma {:induction false} ToolCallsAdded(log: seq<Exchange>)
    requires log != []
    ensures ToolCalls(log) + CallsIn(log[|log| - 1]) == Sum(log, CallsIn)
  {
    SumLast(log, CallsIn);
    if |log| > 1 { ToolCallsAdded(log[..|log| - 1]); }
  }

  predicate Blank(text: string) {
    forall i | 0 <= i < |text| :: Texts.IsSpace(text[i]) || text[i] in {'\U{1C}', '\U{1D}', '\U{1E}', '\U{1F}'}
  }

  /** A run ends in an answer exactly when its last reply is a completion without tool calls that has text, blank only
      if it was not cut off; the answer is that text, with the number of tool calls of the whole run. */
  lemma {:induction false} AnswerExactlyWhen(c: Config, env: Environment, log: seq<Exchange>)
    requires log != [] && !GoesOn(c, env, log)
    ensures
      var outcome, reply := OutcomeOf(c, env, log), log[|log| - 1].reply;
      && (outcome.Answer? <==>
            && reply.Responded? && reply.status == 200 && reply.body.Completion? && reply.body.calls == []
            && reply.body.content.Some? && (reply.body.truncated ==> !Blank(reply.body.content.value)))
      && (outcome.Answer? ==>
            reply.body.content == Some(outcome.text) && outcome.toolCalls == Sum(log, CallsIn))
  {
    ToolCallsAdded(log);
    var reply := log[|log| - 1].reply;
    if Completed(reply) && reply.body.Completion? && reply.body.content.Some? {
      BlankIsStripped(reply.body.content.value);
    }
  }

  lemma BlankIsStripped(text: string)
    ensures Stripped(text) == Blank(text)
  {
    forall i | 0 <= i < |text|
      ensures 0x1C <= text[i] as int <= 0x1F <==> text[i] in {'\U{1C}', '\U{1D}', '\U{1E}', '\U{1F}'}
    {
      ControlSpace(text[i]);
    }
  }

  lemma ControlSpace(x: char)
    ensures 0x1C <= x as int <= 0x1F <==> x in {'\U{1C}', '\U{1D}', '\U{1E}', '\U{1F}'}
  {
  }

  /** How a run ends on a status other than 200, and that this says whether the call may be repeated safely and whether
      nobody knows what it did. */
  lemma {:induction false} StatusOutcome(c: Config, env: Environment, log: seq<Exchange>)
    requires log != [] && !GoesOn(c, env, log)
    requires log[|log| - 1].reply.Responded? && log[|log| - 1].reply.status != 200
    ensures
      var outcome, status := OutcomeOf(c, env, log), log[|log| - 1].reply.status;
      && outcome.Failed? && outcome.category == ProviderFault && outcome.providerCode == log[|log| - 1].reply.code
      && (outcome.safe <==> status == 429)
      && (outcome.ambiguous <==> status < 400 || status >= 500 || status == 408)
      && (outcome.kind == TimeoutFailure <==> status == 408)
      && (outcome.kind != TimeoutFailure ==> outcome.kind == ProviderFailure)
      && (outcome.code == RateLimited <==> status == 429)
      && (outcome.code == TimedOut <==> status == 408)
      && (outcome.code == HttpRedirect <==> 300 <= status <= 399)
      && (outcome.code == Http5xx <==> 500 <= status <= 599)
      && (outcome.code == Http4xx <==> 400 <= status <= 499 && status != 429 && status != 408)
      && (outcome.code == UnknownError <==> status < 300 || status >= 600)
  {
  }

  /** A run that reports its usage charges an unknown call exactly when its last post got no response, or a status other
      than 200 outside 4xx or of 408; such an outcome is ambiguous. */
  lemma {:induction false} ChargedExactlyWhen(c: Config, env: Environment, log: seq<Exchange>)
    requires Follows(c, env, log) && log != [] && !GoesOn(c, env, log)
    ensures
      var outcome, reply := OutcomeOf(c, env, log), log[|log| - 1].reply;
      var charged :=
        reply.Broken? ||
        (reply.Responded? && reply.status != 200 && (reply.status < 400 || reply.status >= 500 || reply.status == 408));
      && (outcome.Answer? || outcome.Failed? ==> outcome.usage.unknownCalls == if charged then 1 else 0)
      && (charged ==> outcome.Failed? && outcome.ambiguous && !outcome.safe)
  {
    OnlyTheLastIsUnknown(c, env, log);
    OutcomeBooks(c, env, log);
  }

  /** How a run ends when its last completion still asks for tools: the first call, in order, that was not answered
      decides, unless no model call was left to report the answers to. */
  lemma {:induction false} ToolOutcome(c: Config, env: Environment, log: seq<Exchange>) returns (i: nat)
    requires log != [] && !GoesOn(c, env, log) && Completed(log[|log| - 1].reply)
    requires log[|log| - 1].reply.body.Completion? && log[|log| - 1].reply.body.calls != []
    ensures
      var n, calls, outcome := |log| - 1, log[|log| - 1].reply.body.calls, OutcomeOf(c, env, log);
      if Sum(log, CompletedOne) >= c.maxCalls then
        && outcome.Failed? && outcome.code == MaxTurnsExceeded && outcome.kind == AssertionFailure
        && outcome.category == EvaluationFault && !outcome.ambiguous && !outcome.safe && outcome.providerCode == ""
      else
        && i < |calls| && AllAnswered(c, env, n, calls[..i])
        && var known := calls[i].Call? && calls[i].name in c.tools;
           && !(known && env.handle(n, i).Returned?)
           && (outcome == HandlerFailed <==> known && env.handle(n, i) == Reraised)
           && (outcome == Cancelled <==> known && env.handle(n, i) == Abandoned)
           && (outcome.Failed? <==> !known || env.handle(n, i) in {Raised, WrongArguments})
           && (outcome.Failed? ==>
                 var raised := known && env.handle(n, i) == Raised;
                 && outcome.code == (if raised then ToolError else ModelBehavior)
                 && outcome.kind == (if raised then ToolFailure else ProviderFailure)
                 && outcome.category == (if raised then ToolFault else ProviderFault)
                 && outcome.ambiguous == !raised && !outcome.safe && outcome.providerCode == "")
  {
    var n, calls := |log| - 1, log[|log| - 1].reply.body.calls;
    CountsOf(c, log);
    i := FirstUnanswered(c, env, n, calls, 0);
    if i < |calls| {
      forall k | 0 <= k < i ensures calls[k].Call? && calls[k].name in c.tools && env.handle(n, k).Returned? {
        assert Answers(c, env, n, k, calls[k]);
      }
    }
  }

  /** How a run ends without a status: on no response, on a body nobody can use, and on a completion with neither tool
      calls nor text. */
  lemma {:induction false} OtherOutcome(c: Config, env: Environment, log: seq<Exchange>)
    requires log != [] && !GoesOn(c, env, log)
    ensures
      var outcome, reply := OutcomeOf(c, env, log), log[|log| - 1].reply;
      && (reply == Interrupted ==> outcome == Cancelled)
      && (reply.Broken? ==>
            && outcome.Failed? && outcome.category == ProviderFault && outcome.ambiguous && !outcome.safe
            && outcome.providerCode == "" && outcome.code == (if reply.timedOut then TimedOut else ConnectionError)
            && outcome.kind == (if reply.timedOut then TimeoutFailure else ProviderFailure))
      && (Completed(reply) && reply.body.Unusable? ==>
            && outcome.Failed? && outcome.code == MalformedResponse && outcome.kind == ProviderFailure
            && outcome.category == ProviderFault && outcome.ambiguous && !outcome.safe && outcome.providerCode == "")
      && (Completed(reply) && reply.body.Completion? && reply.body.calls == [] && !outcome.Answer? ==>
            && outcome.Failed? && outcome.code == (if reply.body.truncated then OutputTruncated else ModelBehavior)
            && outcome.kind == ProviderFailure && outcome.category == ProviderFault
            && outcome.ambiguous == !reply.body.truncated && !outcome.safe && outcome.providerCode == "")
  {
  }

  /** The rate limits reported are the 429 replies, in order and with their codes: that of post `i` stands after those
      of the posts before it. */
  lemma {:induction false} LimitsInOrder(c: Config, log: seq<Exchange>, i: nat)
    requires i < |log| && Limited(log[i].reply)
    ensures
      var limits, k := TotalsOf(c, log).limits, Sum(log[..i], LimitedOne);
      0 <= k < |limits| && limits[k] == RateLimit(429, log[i].reply.code)
  {
    var done := log[..|log| - 1];
    CountsOf(c, log);
    CountsOf(c, done);
    if i < |done| {
      LimitsInOrder(c, done, i);
      assert done[..i] == log[..i];
    }
  }

  // ---- How long it waits ----

  /** The wait without a Retry-After starts at the initial delay and doubles up to the maximum; a Retry-After is obeyed
      up to the maximum, and a negative one is no wait. */
  lemma DelayExactly(failed: nat, after: real, initial: real, maximum: real)
    requires 0.0 <= initial <= maximum && failed >= 1
    ensures RetryDelay(1, None, initial, maximum) == initial
    ensures
      var delay, next := RetryDelay(failed, None, initial, maximum), RetryDelay(failed + 1, None, initial, maximum);
      next == if 2.0 * delay <= maximum then 2.0 * delay else maximum
    ensures
      var delay := RetryDelay(failed, Some(after), initial, maximum);
      delay == if after < 0.0 then 0.0 else if after <= maximum then after else maximum
  {
    DoubledGrows(initial, failed - 1);
  }

  lemma {:induction false} RunIsTail(log: seq<Exchange>, k: nat)
    requires k <= |log| && forall j | |log| - k <= j < |log| :: Limited(log[j].reply)
    requires k == |log| || !Limited(log[|log| - 1 - k].reply)
    ensures LimitedTail(log) == k
  {
    if k > 0 { RunIsTail(log[..|log| - 1], k - 1); }
  }

  /** Between two posts the loop waits only after a 429, and then for the delay of the last of a run of `k` such
      replies; it does not wait before the first post or after the last. */
  lemma WaitBetweenPosts(c: Config, log: seq<Exchange>, n: nat, k: nat)
    requires k <= n && 0 < n < |log| && forall j | n - k <= j < n :: Limited(log[j].reply)
    requires k == n || !Limited(log[n - 1 - k].reply)
    ensures Slept(c, log[..1]) == 0.0
    ensures Slept(c, log[..n + 1]) == Slept(c, log[..n]) +
              if Limited(log[n - 1].reply)
              then RetryDelay(k, log[n - 1].reply.retryAfter, c.initialDelay, c.maxDelay) else 0.0
  {
    assert log[..n + 1][..n] == log[..n];
    RunIsTail(log[..n], k);
  }
}
