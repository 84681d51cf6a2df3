/** The worker's own totals: attempts into cases, cases into the shard summary, and the upload
    document built from them. */
module RunnerAccounting {
  import opened Collections
  import opened Texts
  import opened Uploads
  import Retry

  type Count = x: int | 0 <= x <= MAX_INT64

  /** Milliseconds measured by a clock that never goes back. */
  type Elapsed = x: real | x >= 0.0

  /** The worker reports its attempts as succeeded, failed, or rejected by the breaker. */
  type WorkerOutcome = o: AttemptOutcome | o in {AttemptSucceeded, AttemptFailed, AttemptRejected}
    witness AttemptSucceeded

  datatype WorkerAttempt = WorkerAttempt(
    number: Count, latencyMs: Elapsed, outcome: WorkerOutcome, category: Category, code: Code,
    injectedRule: string, fault: Fault, decision: Retry.Decision, backoffMs: Count,
    inputTokens: Option<Count>, outputTokens: Option<Count>, modelCalls: Option<Count>, toolCalls: Count,
    usageComplete: bool, circuitEvents: seq<CircuitEvent>)

  /** One assertion's verdict; verdicts are numbered by their position. */
  datatype Verdict = Verdict(kind: string, passed: bool, reason: string, message: Option<string>)

  /** What every case reports, however it ended. */
  datatype Trace = Trace(
    caseId: string, iteration: Count, latencyMs: Elapsed, toolPath: seq<string>, output: string, error: string)

  /** A case either reached its evaluators, with one verdict each, or ended in an execution error. */
  datatype WorkerResult =
    | Evaluated(trace: Trace, attempts: seq<WorkerAttempt>, verdicts: seq<Verdict>)
    | Errored(trace: Trace, attempts: seq<WorkerAttempt>, kind: Kind, category: Category, code: Code)
  {
    predicate Success() { Evaluated? && forall i | 0 <= i < |verdicts| :: verdicts[i].passed }
  }

  function OrZero(count: Option<Count>): int { if count.Some? then count.value else 0 }

  function InputOf(a: WorkerAttempt): int { OrZero(a.inputTokens) }
  function OutputOf(a: WorkerAttempt): int { OrZero(a.outputTokens) }
  function ModelCallsOf(a: WorkerAttempt): int { OrZero(a.modelCalls) }
  function ToolCallsOf(a: WorkerAttempt): int { a.toolCalls }

  /** Totals of one case: unknown token counts weigh nothing but spoil completeness only through
      their flag; model calls are unknown when any attempt's are. */
  predicate AllComplete(attempts: seq<WorkerAttempt>) { forall i | 0 <= i < |attempts| :: attempts[i].usageComplete }

  predicate AllKnown(attempts: seq<WorkerAttempt>) { forall i | 0 <= i < |attempts| :: attempts[i].modelCalls.Some? }

  function AttemptUsage(attempts: seq<WorkerAttempt>): (int, int, bool) {
    (Sum(attempts, InputOf), Sum(attempts, OutputOf), AllComplete(attempts))
  }

  function AttemptCalls(attempts: seq<WorkerAttempt>): (Option<int>, int) {
    (if AllKnown(attempts) then Some(Sum(attempts, ModelCallsOf)) else None,
     Sum(attempts, ToolCallsOf))
  }

  predicate Representable(r: WorkerResult) {
    && (r.Evaluated? ==> |r.verdicts| <= MAX_INT64)
    && Sum(r.attempts, InputOf) <= MAX_INT64 && Sum(r.attempts, OutputOf) <= MAX_INT64
    && Sum(r.attempts, ModelCallsOf) <= MAX_INT64 && Sum(r.attempts, ToolCallsOf) <= MAX_INT64
  }

  lemma SumsAreCounts(attempts: seq<WorkerAttempt>)
    ensures Sum(attempts, InputOf) >= 0 && Sum(attempts, OutputOf) >= 0
    ensures Sum(attempts, ModelCallsOf) >= 0 && Sum(attempts, ToolCallsOf) >= 0
  {
    SumNonNegative(attempts, InputOf);
    SumNonNegative(attempts, OutputOf);
    SumNonNegative(attempts, ModelCallsOf);
    SumNonNegative(attempts, ToolCallsOf);
  }

  /** The spelling of a retry decision. */
  function DecisionText(d: Retry.Decision): string {
    match d
    case NotNeeded => "not_needed"
    case RetrySafe => "retry_safe"
    case RetryAmbiguous => "retry_ambiguous"
    case NotRetryable => "not_retryable"
    case AmbiguousBlocked => "ambiguous_blocked"
    case HalfOpenNoRetry => "half_open_no_retry"
    case AttemptLimit => "attempt_limit"
    case BackoffBudget => "backoff_budget"
    case TimeBudget => "time_budget"
  }

  /** The decision a text spells. */
  function DecisionNamed(text: string): Option<Retry.Decision> {
    if text == "not_needed" then Some(Retry.NotNeeded)
    else if text == "retry_safe" then Some(Retry.RetrySafe)
    else if text == "retry_ambiguous" then Some(Retry.RetryAmbiguous)
    else if text == "not_retryable" then Some(Retry.NotRetryable)
    else if text == "ambiguous_blocked" then Some(Retry.AmbiguousBlocked)
    else if text == "half_open_no_retry" then Some(Retry.HalfOpenNoRetry)
    else if text == "attempt_limit" then Some(Retry.AttemptLimit)
    else if text == "backoff_budget" then Some(Retry.BackoffBudget)
    else if text == "time_budget" then Some(Retry.TimeBudget)
    else None
  }

  /** Every decision can be read back from the document. */
  lemma DecisionRoundTrip(d: Retry.Decision)
    ensures DecisionNamed(DecisionText(d)) == Some(d)
  {
  }

  lemma RetryTextIsPlain(d: Retry.Decision)
    requires d.NotNeeded? || d.RetrySafe? || d.RetryAmbiguous?
    ensures Plain(DecisionText(d)) && 0 < |DecisionText(d)| <= 64
  {
  }

  lemma BlockTextIsPlain(d: Retry.Decision)
    requires d.NotRetryable? || d.AmbiguousBlocked? || d.HalfOpenNoRetry?
    ensures Plain(DecisionText(d)) && 0 < |DecisionText(d)| <= 64
  {
  }

  lemma BudgetTextIsPlain(d: Retry.Decision)
    requires d.AttemptLimit? || d.BackoffBudget? || d.TimeBudget?
    ensures Plain(DecisionText(d)) && 0 < |DecisionText(d)| <= 64
  {
  }

  lemma DecisionTextIsName(d: Retry.Decision)
    ensures ValidName(DecisionText(d), 64)
  {
    if d.NotNeeded? || d.RetrySafe? || d.RetryAmbiguous? {
      RetryTextIsPlain(d);
    } else if d.NotRetryable? || d.AmbiguousBlocked? || d.HalfOpenNoRetry? {
      BlockTextIsPlain(d);
    } else {
      BudgetTextIsPlain(d);
    }
    PlainText(DecisionText(d), 64);
  }

  function AttemptPayload(a: WorkerAttempt): Attempt {
    Attempt(a.number, Finite(a.latencyMs), a.outcome, a.category, a.code, a.injectedRule, a.fault,
            DecisionText(a.decision), a.backoffMs, OrZero(a.inputTokens), OrZero(a.outputTokens),
            if a.modelCalls.Some? then Some(a.modelCalls.value) else None, a.toolCalls,
            Some(a.usageComplete), a.circuitEvents)
  }

  /** Case content is sent only when the configuration includes sensitive results, and never when empty. */
  function Sensitive(sensitive: bool, text: string): Option<string> {
    if sensitive && |text| > 0 then Some(text) else None
  }

  function VerdictPayload(sensitive: bool, i: int64, v: Verdict): Assertion {
    Assertion(i, v.kind, v.passed, v.reason, if sensitive then v.message else None)
  }

  function VerdictPayloads(sensitive: bool, verdicts: seq<Verdict>): (r: seq<Assertion>)
    requires |verdicts| <= MAX_INT64
    ensures |r| == |verdicts|
    ensures forall i | 0 <= i < |verdicts| :: r[i] == VerdictPayload(sensitive, i, verdicts[i])
  {
    seq(|verdicts|, i requires 0 <= i < |verdicts| => VerdictPayload(sensitive, i, verdicts[i]))
  }

  datatype Labels = Labels(kind: Kind, category: Category, code: Code)

  function LabelsOf(r: WorkerResult): Labels {
    if r.Errored? then Labels(r.kind, r.category, r.code)
    else if r.Success() then Labels(NoKind, NoCategory, NoCode)
    else Labels(AssertionKind, EvaluationCategory, AssertionFailed)
  }

  function CasePayload(run: string, sensitive: bool, r: WorkerResult): CaseResult
    requires Representable(r)
  {
    SumsAreCounts(r.attempts);
    var (input, output, complete) := AttemptUsage(r.attempts);
    var (modelCalls, toolCalls) := AttemptCalls(r.attempts);
    var t, labels := r.trace, LabelsOf(r);
    CaseResult(
      CaseIdentity(run, t.caseId, t.iteration), t.caseId, t.iteration, r.Success(), Finite(t.latencyMs),
      labels.kind, labels.category, labels.code, Map(AttemptPayload, r.attempts),
      input, output, modelCalls, toolCalls, Some(complete),
      Sensitive(sensitive, t.output), Sensitive(sensitive, t.error), t.toolPath,
      if r.Evaluated? then VerdictPayloads(sensitive, r.verdicts) else [], false)
  }

  predicate Fitting(results: seq<WorkerResult>) {
    && |results| <= MAX_INT64
    && (forall i | 0 <= i < |results| :: Representable(results[i]))
    && Sum(results, CaseInputOf) <= MAX_INT64 && Sum(results, CaseOutputOf) <= MAX_INT64
    && Sum(results, CaseModelCallsOf) <= MAX_INT64 && Sum(results, CaseToolCallsOf) <= MAX_INT64
  }

  function CaseInputOf(r: WorkerResult): int { AttemptUsage(r.attempts).0 }
  function CaseOutputOf(r: WorkerResult): int { AttemptUsage(r.attempts).1 }
  function CaseModelCallsOf(r: WorkerResult): int {
    var calls := AttemptCalls(r.attempts).0;
    if calls.Some? then calls.value else 0
  }
  function CaseToolCallsOf(r: WorkerResult): int { AttemptCalls(r.attempts).1 }
  function SuccessOf(r: WorkerResult): int { if r.Success() then 1 else 0 }

  lemma ResultSumsAreCounts(results: seq<WorkerResult>)
    ensures Sum(results, CaseInputOf) >= 0 && Sum(results, CaseOutputOf) >= 0
    ensures Sum(results, CaseModelCallsOf) >= 0 && Sum(results, CaseToolCallsOf) >= 0
    ensures 0 <= Sum(results, SuccessOf) <= |results|
  {
    forall r | r in results
      ensures CaseInputOf(r) >= 0 && CaseOutputOf(r) >= 0 && CaseModelCallsOf(r) >= 0 && CaseToolCallsOf(r) >= 0
    {
      SumsAreCounts(r.attempts);
    }
    SumNonNegative(results, CaseInputOf);
    SumNonNegative(results, CaseOutputOf);
    SumNonNegative(results, CaseModelCallsOf);
    SumNonNegative(results, CaseToolCallsOf);
    SuccessesBounded(results);
  }

  lemma {:induction false} SuccessesBounded(results: seq<WorkerResult>)
    ensures 0 <= Sum(results, SuccessOf) <= |results|
  {
    if results != [] { SuccessesBounded(results[1..]); }
  }

  function Summarize(durationMs: Elapsed, results: seq<WorkerResult>): Summary
    requires Fitting(results)
  {
    ResultSumsAreCounts(results);
    var succeeded := Sum(results, SuccessOf);
    var known := forall i | 0 <= i < |results| :: AllKnown(results[i].attempts);
    var complete := forall i | 0 <= i < |results| :: AllComplete(results[i].attempts);
    Summary(|results|, succeeded, |results| - succeeded, Finite(durationMs),
            Sum(results, CaseInputOf), Sum(results, CaseOutputOf),
            if known then Some(Sum(results, CaseModelCallsOf)) else None, Sum(results, CaseToolCallsOf), Some(complete))
  }

  function CasePayloads(run: string, sensitive: bool, results: seq<WorkerResult>): (cases: seq<CaseResult>)
    requires Fitting(results)
    ensures |cases| == |results|
    ensures forall i | 0 <= i < |results| :: cases[i] == CasePayload(run, sensitive, results[i])
  {
    seq(|results|, i requires 0 <= i < |results| => CasePayload(run, sensitive, results[i]))
  }

  function Payload(run: string, shard: int, sensitive: bool, durationMs: Elapsed, results: seq<WorkerResult>): Upload
    requires Fitting(results)
  {
    Upload(ShardIdentity(run, shard), V1Alpha1, Summarize(durationMs, results), CasePayloads(run, sensitive, results))
  }

  function TallyOfAttempt(a: WorkerAttempt): Tally {
    Tally(InputOf(a), OutputOf(a), ModelCallsOf(a), a.modelCalls.Some?, ToolCallsOf(a), a.usageComplete)
  }

  lemma AttemptSums(attempts: seq<WorkerAttempt>, parts: seq<Tally>)
    requires |parts| == |attempts| && forall i | 0 <= i < |attempts| :: parts[i] == TallyOfAttempt(attempts[i])
    ensures var total := Total(parts);
            && total.input == Sum(attempts, InputOf) && total.output == Sum(attempts, OutputOf)
            && total.calls == Sum(attempts, ModelCallsOf) && total.tools == Sum(attempts, ToolCallsOf)
            && total.callsKnown == AllKnown(attempts)
            && total.complete == AllComplete(attempts)
  {
    TotalIsSums(parts);
    SumPairwise(parts, attempts, TallyInput, InputOf);
    SumPairwise(parts, attempts, TallyOutput, OutputOf);
    SumPairwise(parts, attempts, TallyCalls, ModelCallsOf);
    SumPairwise(parts, attempts, TallyTools, ToolCallsOf);
  }

  /** The Result API's running totals over a case's attempts are the worker's sums. */
  lemma AttemptTotals(attempts: seq<WorkerAttempt>)
    ensures var total := AttemptsTotal(Map(AttemptPayload, attempts));
            && total.input == Sum(attempts, InputOf) && total.output == Sum(attempts, OutputOf)
            && total.calls == Sum(attempts, ModelCallsOf) && total.tools == Sum(attempts, ToolCallsOf)
            && total.callsKnown == AllKnown(attempts)
            && total.complete == AllComplete(attempts)
  {
    AttemptSums(attempts, Map(AttemptTally, Map(AttemptPayload, attempts)));
  }

  function TallyOfResult(r: WorkerResult): Tally {
    Tally(CaseInputOf(r), CaseOutputOf(r), CaseModelCallsOf(r), AllKnown(r.attempts), CaseToolCallsOf(r),
          AllComplete(r.attempts))
  }

  lemma CasePayloadTally(run: string, sensitive: bool, r: WorkerResult)
    requires Representable(r)
    ensures CaseTally(CasePayload(run, sensitive, r)) == TallyOfResult(r)
  {
  }

  lemma ResultSums(results: seq<WorkerResult>, parts: seq<Tally>)
    requires |parts| == |results| && forall i | 0 <= i < |results| :: parts[i] == TallyOfResult(results[i])
    ensures var total := Total(parts);
            && total.input == Sum(results, CaseInputOf) && total.output == Sum(results, CaseOutputOf)
            && total.calls == Sum(results, CaseModelCallsOf) && total.tools == Sum(results, CaseToolCallsOf)
    ensures Total(parts).callsKnown <==> forall i | 0 <= i < |results| :: AllKnown(results[i].attempts)
    ensures Total(parts).complete <==> forall i | 0 <= i < |results| :: AllComplete(results[i].attempts)
  {
    TotalIsSums(parts);
    SumPairwise(parts, results, TallyInput, CaseInputOf);
    SumPairwise(parts, results, TallyOutput, CaseOutputOf);
    SumPairwise(parts, results, TallyCalls, CaseModelCallsOf);
    SumPairwise(parts, results, TallyTools, CaseToolCallsOf);
    assert forall i | 0 <= i < |results| ::
      parts[i].callsKnown == AllKnown(results[i].attempts) && parts[i].complete == AllComplete(results[i].attempts);
  }

  /** The Result API's running totals over the cases are the worker's summary. */
  lemma CaseTotals(run: string, sensitive: bool, results: seq<WorkerResult>)
    requires Fitting(results)
    ensures
      var total := CasesTotal(CasePayloads(run, sensitive, results));
      && total.input == Sum(results, CaseInputOf) && total.output == Sum(results, CaseOutputOf)
      && total.calls == Sum(results, CaseModelCallsOf) && total.tools == Sum(results, CaseToolCallsOf)
      && (total.callsKnown <==> forall i | 0 <= i < |results| :: AllKnown(results[i].attempts))
      && (total.complete <==> forall i | 0 <= i < |results| :: AllComplete(results[i].attempts))
  {
    var parts := Map(CaseTally, CasePayloads(run, sensitive, results));
    forall i | 0 <= i < |results| ensures parts[i] == TallyOfResult(results[i]) {
      CasePayloadTally(run, sensitive, results[i]);
    }
    ResultSums(results, parts);
  }

  /** The attempts as the retry loop numbers them. */
  predicate Numbered(attempts: seq<WorkerAttempt>) {
    |attempts| <= 10 && forall i | 0 <= i < |attempts| :: attempts[i].number == i + 1
  }

  /** The retry loop numbers them so, under a policy of at most ten attempts. */
  lemma LoopNumbersAttempts(c: Retry.Case, made: seq<Retry.Attempt>, attempts: seq<WorkerAttempt>)
    requires c.Legal() && Retry.Follows(c, made) && |made| >= 1 && Retry.AllRetry(made[..|made| - 1])
    requires c.policy.Some? ==> c.policy.value.maxAttempts <= 10
    requires |attempts| == |made| && forall i | 0 <= i < |made| :: attempts[i].number == made[i].number
    ensures Numbered(attempts)
  {
    Retry.RetryBudgets(c, made);
  }

  function ResultKey(r: WorkerResult): CaseKey { (r.trace.caseId, r.trace.iteration) }

  /** Every accounting equation between attempts and cases holds of what the runner builds. */
  lemma CaseAccountingAgrees(run: string, sensitive: bool, r: WorkerResult)
    requires Representable(r)
    ensures
      var c := CasePayload(run, sensitive, r);
      AttemptsAgree(c) && NonNegative(CaseTally(c))
  {
    SumsAreCounts(r.attempts);
    AttemptTotals(r.attempts);
    CasePayloadTally(run, sensitive, r);
  }

  /** Every accounting equation between cases and summary holds of what the runner builds. */
  lemma RunnerAccountingAgrees(run: string, sensitive: bool, durationMs: Elapsed, results: seq<WorkerResult>)
    requires Fitting(results)
    ensures SummaryAgrees(Summarize(durationMs, results), CasePayloads(run, sensitive, results))
    ensures Fits(CasesTotal(CasePayloads(run, sensitive, results)))
  {
    CaseTotals(run, sensitive, results);
    ResultSumsAreCounts(results);
  }

  // ---- What the document says of the results ----

  /** A result succeeded when its evaluators ran and every verdict passed; the others failed. */
  lemma SummaryCounts(durationMs: Elapsed, results: seq<WorkerResult>)
    requires Fitting(results)
    ensures
      var summary := Summarize(durationMs, results);
      && summary.total == |results|
      && summary.succeeded ==
         |set i | 0 <= i < |results| && results[i].Evaluated? && AllPassed(results[i].verdicts)|
      && summary.failed ==
         |set i | 0 <= i < |results| && (results[i].Errored? || !AllPassed(results[i].verdicts))|
      && summary.duration == Finite(durationMs)
  {
    SuccessesCounted(results);
  }

  lemma SuccessesCounted(results: seq<WorkerResult>)
    ensures
      var succeeded := set i | 0 <= i < |results| && results[i].Evaluated? && AllPassed(results[i].verdicts);
      var failed := set i | 0 <= i < |results| && (results[i].Errored? || !AllPassed(results[i].verdicts));
      Sum(results, SuccessOf) == |succeeded| && |succeeded| + |failed| == |results|
  {
    var succeeded := set i | 0 <= i < |results| && results[i].Evaluated? && AllPassed(results[i].verdicts);
    var failed := set i | 0 <= i < |results| && (results[i].Errored? || !AllPassed(results[i].verdicts));
    CountOf(results, SuccessOf, succeeded);
    RangeSize(|results|);
    assert Range(|results|) == succeeded + failed && succeeded !! failed;
  }

  predicate AllPassed(verdicts: seq<Verdict>) {
    forall i | 0 <= i < |verdicts| :: verdicts[i].passed
  }

  /** What is reported of one result: its identity and measurements, the labels of its error or of a failed verdict, its
      attempts and verdicts in order, and its content only when sensitive results are included. */
  lemma CaseReported(run: string, sensitive: bool, r: WorkerResult)
    requires Representable(r)
    ensures
      var c := CasePayload(run, sensitive, r);
      && c.key == CaseIdentity(run, r.trace.caseId, r.trace.iteration)
      && c.caseId == r.trace.caseId && c.iteration == r.trace.iteration && c.latency == Finite(r.trace.latencyMs)
      && c.toolPath == r.trace.toolPath
      && (c.success <==> r.Evaluated? && AllPassed(r.verdicts))
      && (r.Errored? ==> c.kind == r.kind && c.category == r.category && c.code == r.code && c.assertions == [])
      && (c.success ==> c.kind == NoKind && c.category == NoCategory && c.code == NoCode)
      && (r.Evaluated? && !c.success ==>
            c.kind == AssertionKind && c.category == EvaluationCategory && c.code == AssertionFailed)
      && (c.output == if sensitive && r.trace.output != "" then Some(r.trace.output) else None)
      && (c.error == if sensitive && r.trace.error != "" then Some(r.trace.error) else None)
      && (r.Evaluated? ==>
            && |c.assertions| == |r.verdicts|
            && forall i | 0 <= i < |r.verdicts| ::
                 VerdictReported(sensitive, i, r.verdicts[i], c.assertions[i]))
      && |c.attempts| == |r.attempts|
      && forall i | 0 <= i < |r.attempts| :: AttemptReported(r.attempts[i], c.attempts[i])
  {
  }

  predicate VerdictReported(sensitive: bool, i: int, v: Verdict, sent: Assertion) {
    && sent.index == i && sent.kind == v.kind && sent.passed == v.passed && sent.reason == v.reason
    && (sent.message == if sensitive then v.message else None)
  }

  predicate AttemptReported(a: WorkerAttempt, sent: Attempt) {
    && sent.number == a.number && sent.latency == Finite(a.latencyMs) && sent.outcome == a.outcome
    && sent.category == a.category && sent.code == a.code && sent.injectedRule == a.injectedRule
    && sent.fault == a.fault && sent.backoffMs == a.backoffMs
    && sent.inputTokens == (if a.inputTokens == None then 0 else a.inputTokens.value)
    && sent.outputTokens == (if a.outputTokens == None then 0 else a.outputTokens.value)
    && (sent.modelCalls.Some? <==> a.modelCalls.Some?)
    && (a.modelCalls.Some? ==> sent.modelCalls.value == a.modelCalls.value)
    && sent.toolCalls == a.toolCalls && sent.usageComplete == Some(a.usageComplete)
    && sent.circuitEvents == a.circuitEvents
  }

  // ---- What a runner's document can be refused for ----

  predicate ReportableAttempt(a: WorkerAttempt) {
    && Within(a.injectedRule, 128) && ValidCode(a.code) && !a.category.OtherCategory? && !a.fault.OtherFault?
    && ValidEvents(a.circuitEvents)
  }

  predicate ReportableVerdict(sensitive: bool, v: Verdict) {
    ValidName(v.kind, 64) && ValidName(v.reason, 64) && (sensitive ==> OptionalText(v.message))
  }

  predicate ReportableText(sensitive: bool, text: string) { sensitive ==> Within(text, MAX_REQUEST_BYTES) }

  predicate ReportableTrace(sensitive: bool, t: Trace) {
    && ValidName(t.caseId, 1024) && ToolsValid(t.toolPath)
    && ReportableText(sensitive, t.output) && ReportableText(sensitive, t.error)
  }

  /** An execution error names its kind, and not "assertion"; verdicts are at most a hundred. */
  predicate ReportableEnding(sensitive: bool, r: WorkerResult) {
    match r
    case Evaluated(_, _, verdicts) =>
      |verdicts| <= 100 && forall i | 0 <= i < |verdicts| :: ReportableVerdict(sensitive, verdicts[i])
    case Errored(_, _, kind, category, code) =>
      && !BlankKind(kind) && ValidKind(kind) && !kind.AssertionKind?
      && !category.OtherCategory? && ValidCode(code)
  }

  predicate Reportable(sensitive: bool, r: WorkerResult) {
    && ReportableTrace(sensitive, r.trace) && ReportableEnding(sensitive, r)
    && forall i | 0 <= i < |r.attempts| :: ReportableAttempt(r.attempts[i])
  }

  lemma AttemptAccepted(a: WorkerAttempt, i: int)
    requires a.number == i + 1
    ensures AttemptValid(AttemptPayload(a), i) <==> ReportableAttempt(a)
  {
    DecisionTextIsName(a.decision);
  }

  lemma AttemptsAccepted(attempts: seq<WorkerAttempt>)
    requires Numbered(attempts)
    ensures AttemptsValid(Map(AttemptPayload, attempts)) <==>
            forall i | 0 <= i < |attempts| :: ReportableAttempt(attempts[i])
  {
    var sent := Map(AttemptPayload, attempts);
    forall i | 0 <= i < |attempts| ensures AttemptValid(sent[i], i) <==> ReportableAttempt(attempts[i]) {
      AttemptAccepted(attempts[i], i);
    }
  }

  lemma VerdictsAccepted(sensitive: bool, verdicts: seq<Verdict>)
    requires |verdicts| <= MAX_INT64
    ensures
      var sent := VerdictPayloads(sensitive, verdicts);
      && (AssertionsValid(sent) <==>
            |verdicts| <= 100 && forall i | 0 <= i < |verdicts| :: ReportableVerdict(sensitive, verdicts[i]))
      && (AnyFailed(sent) <==> exists i :: 0 <= i < |verdicts| && !verdicts[i].passed)
  {
    var sent := VerdictPayloads(sensitive, verdicts);
    forall i | 0 <= i < |verdicts|
      ensures AssertionValid(sent[i], i) <==> ReportableVerdict(sensitive, verdicts[i])
      ensures sent[i].passed == verdicts[i].passed
    {}
  }

  lemma EmptyText()
    ensures Within("", MAX_REQUEST_BYTES)
  {
  }

  lemma LabelsAccepted(run: string, sensitive: bool, r: WorkerResult)
    requires Representable(r)
    ensures
      var c := CasePayload(run, sensitive, r);
      CaseLabelsValid(run, c) <==>
        && ValidName(r.trace.caseId, 1024)
        && ReportableText(sensitive, r.trace.output) && ReportableText(sensitive, r.trace.error)
        && (r.Errored? ==> ValidKind(r.kind) && !r.category.OtherCategory? && ValidCode(r.code))
  {
    EmptyText();
    assert r.trace.output == "" || |r.trace.output| > 0;
    assert r.trace.error == "" || |r.trace.error| > 0;
  }

  lemma EndingAccepted(run: string, sensitive: bool, r: WorkerResult)
    requires Representable(r)
    ensures
      var c := CasePayload(run, sensitive, r);
      AssertionsValid(c.assertions) && OutcomeConsistent(c) <==>
        if r.Evaluated? then
          |r.verdicts| <= 100 && forall i | 0 <= i < |r.verdicts| :: ReportableVerdict(sensitive, r.verdicts[i])
        else !BlankKind(r.kind) && !r.kind.AssertionKind?
  {
    if r.Evaluated? { VerdictsAccepted(sensitive, r.verdicts); }
  }

  lemma CaseAccepted(run: string, sensitive: bool, r: WorkerResult)
    requires Representable(r) && Numbered(r.attempts)
    ensures CaseValid(run, CasePayload(run, sensitive, r)) <==> Reportable(sensitive, r)
  {
    CaseAccountingAgrees(run, sensitive, r);
    AttemptsAccepted(r.attempts);
    LabelsAccepted(run, sensitive, r);
    EndingAccepted(run, sensitive, r);
  }

  lemma CasesAccepted(run: string, sensitive: bool, results: seq<WorkerResult>)
    requires Fitting(results)
    requires forall i | 0 <= i < |results| :: Numbered(results[i].attempts)
    ensures CasesValid(run, CasePayloads(run, sensitive, results)) <==>
            forall i | 0 <= i < |results| :: Reportable(sensitive, results[i])
    ensures Keys(CasePayloads(run, sensitive, results)) == Map(ResultKey, results)
  {
    var cases := CasePayloads(run, sensitive, results);
    forall i | 0 <= i < |results| ensures CaseValid(run, cases[i]) <==> Reportable(sensitive, results[i]) {
      CaseAccepted(run, sensitive, results[i]);
    }
    assert Keys(cases) == Map(ResultKey, results);
  }

  lemma AcceptedOnceItAddsUp(run: string, shard: int, u: Upload)
    requires u.key == ShardIdentity(run, shard) && u.schema.V1Alpha1? && Measured(u.summary.duration)
    requires SummaryAgrees(u.summary, u.cases) && Fits(CasesTotal(u.cases))
    ensures Accepted(run, shard, u) <==>
              && RunName(run) && shard >= 0 && |u.cases| <= 100_000
              && NoDuplicates(Keys(u.cases)) && CasesValid(run, u.cases)
  {
  }

  /** So a runner's upload is refused only for what it reports, never for how it adds up: exactly when the run or
      shard is not nameable, the list is too long or repeats a case, or some result is not reportable. */
  lemma RunnerUploadAccepted(
    run: string, shard: int, sensitive: bool, durationMs: Elapsed, results: seq<WorkerResult>)
    requires Fitting(results)
    requires forall i | 0 <= i < |results| :: Numbered(results[i].attempts)
    ensures Accepted(run, shard, Payload(run, shard, sensitive, durationMs, results)) <==>
              && RunName(run) && shard >= 0
              && |results| <= 100_000
              && NoDuplicates(Map(ResultKey, results))
              && forall i | 0 <= i < |results| :: Reportable(sensitive, results[i])
  {
    RunnerAccountingAgrees(run, sensitive, durationMs, results);
    CasesAccepted(run, sensitive, results);
    AcceptedOnceItAddsUp(run, shard, Payload(run, shard, sensitive, durationMs, results));
  }

  /** The loop's own verdict that the model spent its turns is such a result: the adapter raises it with kind
      "assertion" although no assertion was evaluated. */
  function SpentTurns(id: string): WorkerResult {
    Errored(Trace(id, 0, 0.0, [], "", ""), [], AssertionKind, EvaluationCategory, OtherCode("max_turns_exceeded"))
  }

  /** Its document adds up and is refused, whatever the run, shard and case. */
  lemma SpentTurnsIsRefused(run: string, shard: int, sensitive: bool, id: string)
    ensures Fitting([SpentTurns(id)])
    ensures SummaryAgrees(Summarize(0.0, [SpentTurns(id)]), CasePayloads(run, sensitive, [SpentTurns(id)]))
    ensures !Accepted(run, shard, Payload(run, shard, sensitive, 0.0, [SpentTurns(id)]))
  {
    RunnerAccountingAgrees(run, sensitive, 0.0, [SpentTurns(id)]);
    RunnerUploadAccepted(run, shard, sensitive, 0.0, [SpentTurns(id)]);
    assert !Reportable(sensitive, [SpentTurns(id)][0]);
  }
}
