/** What holds of every log the chat tool loop can produce, whatever the endpoint and the tools do. */
module ChatTheorems {
  import opened Collections
  import opened ChatLoop

  // ---- The number of posts ----

  lemma {:induction false} PostsSoFar(c: Config, env: Environment, log: seq<Exchange>)
    requires c.Legal() && Follows(c, env, log) && log != []
    ensures
      var reply, calls := log[|log| - 1].reply, TotalsOf(c, log).modelCalls;
      && LimitedTail(log) <= c.maxAttempts
      && (if Completed(reply) then calls <= c.maxCalls else calls < c.maxCalls)
      && |log| <= calls * c.maxAttempts
                  + (if Completed(reply) then 0 else if Limited(reply) then LimitedTail(log) else c.maxAttempts)
  {
    var done, reply := log[..|log| - 1], log[|log| - 1].reply;
    var calls := TotalsOf(c, done).modelCalls;
    assert (calls + 1) * c.maxAttempts == calls * c.maxAttempts + c.maxAttempts;
    if done != [] { PostsSoFar(c, env, done); }
  }

  lemma {:induction false} WithinCalls(calls: nat, maxCalls: nat, attempts: nat, extra: nat)
    requires calls <= maxCalls && extra <= attempts && (calls == maxCalls ==> extra == 0)
    ensures calls * attempts + extra <= maxCalls * attempts
  {
    if calls < maxCalls {
      var m := maxCalls - 1;
      WithinCalls(calls, m, attempts, if calls < m then extra else 0);
      assert (m + 1) * attempts == m * attempts + attempts;
    }
  }

  /** Every run of the loop ends within max_model_calls x max_http_attempts posts. */
  lemma PostsBounded(c: Config, env: Environment, log: seq<Exchange>)
    requires c.Legal() && Follows(c, env, log) && log != []
    ensures |log| <= c.maxCalls * c.maxAttempts
    ensures TotalsOf(c, log).modelCalls <= c.maxCalls
  {
    PostsSoFar(c, env, log);
    var reply := log[|log| - 1].reply;
    WithinCalls(
      TotalsOf(c, log).modelCalls, c.maxCalls, c.maxAttempts,
      if Completed(reply) then 0 else if Limited(reply) then LimitedTail(log) else c.maxAttempts);
  }

  // ---- The shape of every request ----

  /** A model turn with its tool calls and the output of each. */
  datatype Turn = Turn(content: Option<string>, calls: seq<Call>, outputs: seq<string>) {
    predicate Complete() {
      calls != [] && |outputs| == |calls| && forall i | 0 <= i < |calls| :: calls[i].Call?
    }

    /** The assistant message, then one answer per call, in the order of the calls and under each call's own id. */
    function Messages(): seq<Message>
      requires Complete()
    {
      [Assistant(content, calls)] + seq(|calls|, i requires 0 <= i < |calls| => Tool(calls[i].id, outputs[i]))
    }
  }

  predicate AllComplete(turns: seq<Turn>) {
    forall i | 0 <= i < |turns| :: turns[i].Complete()
  }

  function Transcript(opening: seq<Message>, turns: seq<Turn>): seq<Message>
    requires AllComplete(turns)
  {
    if turns == [] then opening
    else Transcript(opening, turns[..|turns| - 1]) + turns[|turns| - 1].Messages()
  }

  ghost predicate WellFormed(opening: seq<Message>, request: seq<Message>) {
    exists turns :: AllComplete(turns) && request == Transcript(opening, turns)
  }

  lemma WellFormedExtends(opening: seq<Message>, request: seq<Message>, turn: Turn)
    requires WellFormed(opening, request) && turn.Complete()
    ensures WellFormed(opening, request + turn.Messages())
  {
    var turns :| AllComplete(turns) && request == Transcript(opening, turns);
    var longer := turns + [turn];
    assert longer[..|longer| - 1] == turns;
    assert AllComplete(longer) && request + turn.Messages() == Transcript(opening, longer);
  }

  lemma AnsweredTurn(c: Config, env: Environment, n: nat, body: Body) returns (turn: Turn)
    requires body.Completion? && body.calls != []
    requires FirstUnanswered(c, env, n, body.calls, 0) == |body.calls|
    ensures turn.Complete()
    ensures turn.Messages() == [Assistant(body.content, body.calls)] + AnswersTo(env, n, body.calls)
  {
    assert forall i | 0 <= i < |body.calls| :: Answers(c, env, n, i, body.calls[i]);
    var outputs :=
      seq(|body.calls|, i requires 0 <= i < |body.calls| => AnswerTo(env, n, i, body.calls[i]).output);
    turn := Turn(body.content, body.calls, outputs);
  }

  lemma {:induction false} NextWellFormed(c: Config, env: Environment, log: seq<Exchange>)
    requires Follows(c, env, log) && GoesOn(c, env, log)
    ensures WellFormed(Opening(c), NextRequest(c, env, log))
  {
    if log == [] {
      assert AllComplete([]) && Opening(c) == Transcript(Opening(c), []);
    } else {
      var done, last := log[..|log| - 1], log[|log| - 1];
      NextWellFormed(c, env, done);
      if !Limited(last.reply) {
        var turn := AnsweredTurn(c, env, |log| - 1, last.reply.body);
        WellFormedExtends(Opening(c), last.request, turn);
        assert NextRequest(c, env, log) == last.request + turn.Messages();
      }
    }
  }

  lemma {:induction false} PrefixFollows(c: Config, env: Environment, log: seq<Exchange>, n: nat)
    requires Follows(c, env, log) && n < |log|
    ensures Follows(c, env, log[..n]) && GoesOn(c, env, log[..n])
    ensures log[n] == Exchange(NextRequest(c, env, log[..n]), env.reply(n))
  {
    var done := log[..|log| - 1];
    if n < |done| {
      PrefixFollows(c, env, done, n);
      assert done[..n] == log[..n];
    }
  }

  /** Every request of every run is the opening followed by fully answered turns; and a post after a 429 repeats
      the request word for word, while a post after a turn only adds that turn. */
  lemma RequestsWellFormed(c: Config, env: Environment, log: seq<Exchange>, n: nat)
    requires Follows(c, env, log) && n < |log|
    ensures WellFormed(Opening(c), log[n].request)
    ensures n > 0 && Limited(log[n - 1].reply) ==> log[n].request == log[n - 1].request
    ensures n > 0 && !Limited(log[n - 1].reply) ==>
      && Completed(log[n - 1].reply) && log[n - 1].reply.body.Completion?
      && log[n].request == log[n - 1].request
           + [Assistant(log[n - 1].reply.body.content, log[n - 1].reply.body.calls)]
           + AnswersTo(env, n - 1, log[n - 1].reply.body.calls)
  {
    PrefixFollows(c, env, log, n);
    NextWellFormed(c, env, log[..n]);
  }

  /** No turn is ever dropped: later requests extend earlier ones. */
  lemma {:induction false} RequestsGrow(c: Config, env: Environment, log: seq<Exchange>, m: nat, n: nat)
    requires Follows(c, env, log) && m <= n < |log|
    ensures log[m].request <= log[n].request
    decreases n
  {
    if m < n {
      RequestsGrow(c, env, log, m, n - 1);
      RequestsWellFormed(c, env, log, n);
    }
  }

  // ---- The tokens reported ----

  /** A completed call that said what it used. */
  function MeasuredInput(e: Exchange): int {
    if Completed(e.reply) && e.reply.body.Completion? && e.reply.body.usage.Some? then e.reply.body.usage.value.0 else 0
  }

  function MeasuredOutput(e: Exchange): int {
    if Completed(e.reply) && e.reply.body.Completion? && e.reply.body.usage.Some? then e.reply.body.usage.value.1 else 0
  }

  predicate Measured(e: Exchange) {
    !e.reply.Interrupted? && (Completed(e.reply) ==> e.reply.body.Completion? && e.reply.body.usage.Some?)
  }

  predicate AllMeasured(log: seq<Exchange>) {
    forall i | 0 <= i < |log| :: Measured(log[i])
  }

  function CompletedOne(e: Exchange): int { if Completed(e.reply) then 1 else 0 }

  function LimitedOne(e: Exchange): int { if Limited(e.reply) then 1 else 0 }

  lemma SumLast(log: seq<Exchange>, f: Exchange -> int)
    requires log != []
    ensures Sum(log, f) == Sum(log[..|log| - 1], f) + f(log[|log| - 1])
  {
    assert log[..|log| - 1 + 1] == log;
    SumPrefix(log, |log| - 1, f);
  }

  lemma {:induction false} CountsOf(c: Config, log: seq<Exchange>)
    ensures TotalsOf(c, log).modelCalls == Sum(log, CompletedOne)
    ensures |TotalsOf(c, log).limits| == Sum(log, LimitedOne)
    ensures TotalsOf(c, log).known <==> AllMeasured(log)
  {
    if log != [] {
      var done := log[..|log| - 1];
      CountsOf(c, done);
      SumLast(log, CompletedOne);
      SumLast(log, LimitedOne);
      assert AllMeasured(log) <==> AllMeasured(done) && Measured(log[|log| - 1]) by {
        assert forall i | 0 <= i < |done| :: done[i] == log[i];
      }
    }
  }

  /** Before the last reply of a run nothing unknown has been charged. */
  lemma {:induction false} OnlyTheLastIsUnknown(c: Config, env: Environment, log: seq<Exchange>)
    requires Follows(c, env, log)
    ensures TotalsOf(c, log).unknownCalls == if log != [] && Unknowable(log[|log| - 1].reply) then 1 else 0
  {
    if log != [] { OnlyTheLastIsUnknown(c, env, log[..|log| - 1]); }
  }

  lemma {:induction false} TokensOf(c: Config, env: Environment, log: seq<Exchange>)
    requires Follows(c, env, log)
    ensures
      var t := TotalsOf(c, log);
      var (input, output) := if log != [] && Unknowable(log[|log| - 1].reply) then c.allowance else (0, 0);
      t.known ==> t.input == Sum(log, MeasuredInput) + input && t.output == Sum(log, MeasuredOutput) + output
  {
    if log != [] {
      TokensOf(c, env, log[..|log| - 1]);
      SumLast(log, MeasuredInput);
      SumLast(log, MeasuredOutput);
    }
  }

  lemma OutcomeBooks(c: Config, env: Environment, log: seq<Exchange>)
    requires log != [] && !GoesOn(c, env, log)
    ensures
      var outcome, t := OutcomeOf(c, env, log), TotalsOf(c, log);
      && (outcome.Answer? || outcome.Failed? ==> outcome.usage == t.Reported())
      && (outcome.Failed? ==> outcome.complete == t.known)
  {
  }

  /** The usage a run reports, from the replies alone: no tokens if any completed call left its usage out, and
      otherwise the measured sum plus one allowance exactly when the run ended on a reply of unknown cost. Rate
      limited posts are counted and add no tokens. The flag of an error the adapter raises says whether tokens are
      reported. */
  lemma TokensReported(c: Config, env: Environment, log: seq<Exchange>)
    requires c.Legal() && Follows(c, env, log) && log != [] && !GoesOn(c, env, log)
    ensures
      var outcome := OutcomeOf(c, env, log);
      var last := log[|log| - 1].reply;
      var allowance := if Unknowable(last) then c.allowance else (0, 0);
      outcome.Answer? || outcome.Failed? ==>
        && outcome.usage.tokens.Some? == AllMeasured(log)
        && (AllMeasured(log) ==>
              && outcome.usage.tokens.value.0 == Sum(log, MeasuredInput) + allowance.0
              && outcome.usage.tokens.value.1 == Sum(log, MeasuredOutput) + allowance.1)
        && outcome.usage.modelCalls == Sum(log, CompletedOne)
        && outcome.usage.unknownCalls == (if Unknowable(last) then 1 else 0)
        && |outcome.usage.limits| == Sum(log, LimitedOne)
        && (outcome.Failed? ==> outcome.complete == outcome.usage.tokens.Some?)
  {
    CountsOf(c, log);
    TokensOf(c, env, log);
    OnlyTheLastIsUnknown(c, env, log);
    OutcomeBooks(c, env, log);
  }

  // ---- The waits ----

  lemma {:induction false} DoubledGrows(initial: real, n: nat)
    requires initial >= 0.0
    ensures 0.0 <= initial <= Doubled(initial, n) <= Doubled(initial, n + 1)
  {
    if n > 0 { DoubledGrows(initial, n - 1); }
  }

  /** A wait is never negative and never above the maximum; a Retry-After below the maximum is honoured in full;
      without one the waits do not shrink. */
  lemma DelayBounds(failed: nat, retryAfter: Option<real>, initial: real, maximum: real)
    requires 0.0 <= initial <= maximum
    ensures 0.0 <= RetryDelay(failed, retryAfter, initial, maximum) <= maximum
    ensures retryAfter.Some? && retryAfter.value <= maximum ==>
      RetryDelay(failed, retryAfter, initial, maximum) >= retryAfter.value
    ensures RetryDelay(failed, None, initial, maximum) <= RetryDelay(failed + 1, None, initial, maximum)
  {
    DoubledGrows(initial, failed);
    if failed >= 1 { DoubledGrows(initial, failed - 1); }
  }

  /** One maximum delay for each 429. */
  function DelayLimit(c: Config, log: seq<Exchange>): real {
    if log == [] then 0.0
    else DelayLimit(c, log[..|log| - 1]) + if Limited(log[|log| - 1].reply) then c.maxDelay else 0.0
  }

  lemma DelayWithin(c: Config, log: seq<Exchange>)
    requires c.Legal() && log != []
    ensures 0.0 <= DelayAfter(c, log) <= if Limited(log[|log| - 1].reply) then c.maxDelay else 0.0
  {
    var reply := log[|log| - 1].reply;
    if Limited(reply) { DelayBounds(LimitedTail(log), reply.retryAfter, c.initialDelay, c.maxDelay); }
  }

  lemma {:induction false} SleptWithin(c: Config, log: seq<Exchange>)
    requires c.Legal()
    ensures 0.0 <= Slept(c, log) <= SleptUpTo(c, log) <= DelayLimit(c, log)
  {
    if log != [] {
      SleptWithin(c, log[..|log| - 1]);
      DelayWithin(c, log);
    }
  }

  lemma OneMoreDelay(n: int, maximum: real)
    ensures (n + 1) as real * maximum == n as real * maximum + maximum
  {
  }

  lemma {:induction false} DelayLimitIsProduct(c: Config, log: seq<Exchange>)
    ensures DelayLimit(c, log) == Sum(log, LimitedOne) as real * c.maxDelay
  {
    if log != [] {
      var done := log[..|log| - 1];
      DelayLimitIsProduct(c, done);
      SumLast(log, LimitedOne);
      if Limited(log[|log| - 1].reply) { OneMoreDelay(Sum(done, LimitedOne), c.maxDelay); }
    }
  }

  /** A run sleeps at most the maximum delay for each 429 it met, and only for those. */
  lemma SleptBounded(c: Config, log: seq<Exchange>)
    requires c.Legal()
    ensures 0.0 <= Slept(c, log) <= Sum(log, LimitedOne) as real * c.maxDelay
  {
    SleptWithin(c, log);
    DelayLimitIsProduct(c, log);
  }
}
