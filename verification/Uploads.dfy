/** Shard uploads: the document a worker sends, the Result API's check of it, and the defaults filled in afterwards.

    Labels with a fixed vocabulary are enumerations here, with one constructor for any other text. An idempotency key
    is the identity it spells out. */
module Uploads {
  import opened Collections
  import opened Texts

  const MAX_INT64: int := 0x7FFF_FFFF_FFFF_FFFF
  const TWO_64: int := 0x1_0000_0000_0000_0000
  const MAX_REQUEST_BYTES: nat := 33_554_432

  type int64 = x: int | -MAX_INT64 - 1 <= x <= MAX_INT64

  /** Two's-complement addition, as Go performs it. */
  function Add64(a: int64, b: int64): (r: int64)
    ensures (r - (a + b)) % TWO_64 == 0
  {
    if a + b > MAX_INT64 then a + b - TWO_64
    else if a + b < -MAX_INT64 - 1 then a + b + TWO_64
    else a + b
  }

  /** A floating-point measurement. */
  datatype Metric = Finite(value: real) | NotFinite

  datatype Category =
    | NoCategory | EvaluationCategory | ProviderCategory | ToolCategory | HarnessCategory | OtherCategory(text: string)

  datatype Kind = NoKind | AssertionKind | ToolKind | HarnessKind | OtherKind(text: string)

  datatype Code =
    | NoCode | CircuitOpen | AssertionFailed | LegacyAssertion | LegacyTool | LegacyHarness | LegacyProvider
    | OtherCode(text: string)

  datatype AttemptOutcome =
    | AttemptSucceeded | AttemptFailed | AttemptRejected | AttemptCancelled | OtherOutcome(text: string)

  datatype Fault =
    | NoFault | LatencyFault | TimeoutFault | HttpFault | MalformedFault | RateLimitFault | ToolFault
    | OtherFault(text: string)

  datatype CircuitEvent =
    | OpenEvent | RejectEvent | HalfOpenEvent | CloseEvent | ReopenEvent | OtherEvent(text: string)

  datatype IdempotencyKey =
    | ShardIdentity(run: string, shard: int)
    | CaseIdentity(run: string, caseId: string, iteration: int)
    | OtherIdentity(text: string)

  datatype Attempt = Attempt(
    number: int64, latency: Metric, outcome: AttemptOutcome, category: Category, code: Code,
    injectedRule: string, fault: Fault, retryDecision: string, backoffMs: int64,
    inputTokens: int64, outputTokens: int64, modelCalls: Option<int64>, toolCalls: int64,
    usageComplete: Option<bool>, circuitEvents: seq<CircuitEvent>)

  datatype Assertion = Assertion(index: int64, kind: string, passed: bool, reason: string, message: Option<string>)

  /** `costsGiven` is whether the sender filled in any of the three cost fields. */
  datatype CaseResult = CaseResult(
    key: IdempotencyKey, caseId: string, iteration: int64, success: bool, latency: Metric,
    kind: Kind, category: Category, code: Code, attempts: seq<Attempt>,
    inputTokens: int64, outputTokens: int64, modelCalls: Option<int64>, toolCalls: int64, usageComplete: Option<bool>,
    output: Option<string>, error: Option<string>, toolPath: seq<string>, assertions: seq<Assertion>, costsGiven: bool)

  datatype Summary = Summary(
    total: int64, succeeded: int64, failed: int64, duration: Metric, inputTokens: int64, outputTokens: int64,
    modelCalls: Option<int64>, toolCalls: int64, usageComplete: Option<bool>)

  datatype Schema = V1Alpha1 | OtherSchema(text: string)

  /** A request's key and its document. */
  datatype Upload = Upload(key: IdempotencyKey, schema: Schema, summary: Summary, cases: seq<CaseResult>)

  type CaseKey = (string, int)

  function KeyOf(c: CaseResult): CaseKey { (c.caseId, c.iteration) }

  function Keys(cases: seq<CaseResult>): seq<CaseKey> { Map(KeyOf, cases) }

  predicate UsageComplete(flag: Option<bool>) { flag != Some(false) }

  /** Counts of one attempt or case, or of several together. `calls` adds up the known model calls. */
  datatype Tally = Tally(input: int, output: int, calls: int, callsKnown: bool, tools: int, complete: bool)

  const NOTHING := Tally(0, 0, 0, true, 0, true)

  function Plus(a: Tally, b: Tally): Tally {
    Tally(a.input + b.input, a.output + b.output, a.calls + b.calls, a.callsKnown && b.callsKnown,
          a.tools + b.tools, a.complete && b.complete)
  }

  function Total(parts: seq<Tally>): Tally {
    if parts == [] then NOTHING else Plus(Total(parts[..|parts| - 1]), parts[|parts| - 1])
  }

  predicate NonNegative(t: Tally) { t.input >= 0 && t.output >= 0 && t.calls >= 0 && t.tools >= 0 }

  predicate Fits(t: Tally) {
    t.input <= MAX_INT64 && t.output <= MAX_INT64 && t.calls <= MAX_INT64 && t.tools <= MAX_INT64
  }

  /** The whole is reported exactly as its parts add up; model calls are unknown if any part's are. */
  predicate Agrees(whole: Tally, sum: Tally) {
    && whole.input == sum.input && whole.output == sum.output && whole.tools == sum.tools
    && whole.complete == sum.complete && whole.callsKnown == sum.callsKnown
    && (whole.callsKnown ==> whole.calls == sum.calls)
  }

  function Known(calls: Option<int64>): int { if calls.Some? then calls.value else 0 }

  function AttemptTally(a: Attempt): Tally {
    Tally(a.inputTokens, a.outputTokens, Known(a.modelCalls), a.modelCalls.Some?, a.toolCalls,
          UsageComplete(a.usageComplete))
  }

  function CaseTally(c: CaseResult): Tally {
    Tally(c.inputTokens, c.outputTokens, Known(c.modelCalls), c.modelCalls.Some?, c.toolCalls,
          UsageComplete(c.usageComplete))
  }

  function AttemptsTotal(attempts: seq<Attempt>): Tally { Total(Map(AttemptTally, attempts)) }

  function CasesTotal(cases: seq<CaseResult>): Tally { Total(Map(CaseTally, cases)) }

  // ---- What a document must satisfy, over unbounded integers ----

  predicate Measured(m: Metric) { m.Finite? && m.value >= 0.0 }

  predicate ValidCode(c: Code) { c.OtherCode? ==> Within(c.text, 128) && ReasonCode(c.text) }

  predicate ValidKind(k: Kind) { k.OtherKind? ==> Within(k.text, 128) }

  predicate BlankKind(k: Kind) { k.NoKind? || (k.OtherKind? && Blank(k.text)) }

  predicate ValidName(text: string, maxBytes: nat) { !Blank(text) && Within(text, maxBytes) }

  predicate OptionalText(text: Option<string>) { text.Some? ==> Within(text.value, MAX_REQUEST_BYTES) }

  predicate ValidEvents(events: seq<CircuitEvent>) {
    forall i | 0 <= i < |events| :: !events[i].OtherEvent?
  }

  predicate LabelsValid(a: Attempt) {
    && !a.outcome.OtherOutcome? && ValidName(a.retryDecision, 64) && Within(a.injectedRule, 128)
    && ValidCode(a.code) && !a.category.OtherCategory? && !a.fault.OtherFault? && ValidEvents(a.circuitEvents)
  }

  predicate AttemptValid(a: Attempt, i: int) {
    && a.number == i + 1 && Measured(a.latency) && a.backoffMs >= 0 && NonNegative(AttemptTally(a))
    && LabelsValid(a)
  }

  predicate AttemptsValid(attempts: seq<Attempt>) {
    |attempts| <= 10 && forall i | 0 <= i < |attempts| :: AttemptValid(attempts[i], i)
  }

  predicate AttemptsAgree(c: CaseResult) {
    && Fits(AttemptsTotal(c.attempts))
    && (c.attempts != [] ==> Agrees(CaseTally(c), AttemptsTotal(c.attempts)))
  }

  predicate ToolsValid(path: seq<string>) {
    |path| <= 1000 && forall i | 0 <= i < |path| :: ValidName(path[i], 512)
  }

  predicate AssertionValid(a: Assertion, i: int) {
    a.index == i && ValidName(a.kind, 64) && ValidName(a.reason, 64) && OptionalText(a.message)
  }

  predicate AssertionsValid(assertions: seq<Assertion>) {
    |assertions| <= 100 && forall i | 0 <= i < |assertions| :: AssertionValid(assertions[i], i)
  }

  predicate AnyFailed(assertions: seq<Assertion>) {
    exists i :: 0 <= i < |assertions| && !assertions[i].passed
  }

  predicate OutcomeConsistent(c: CaseResult) {
    && (c.success || !BlankKind(c.kind))
    && !(c.success && AnyFailed(c.assertions))
    && (c.kind.AssertionKind? ==> AnyFailed(c.assertions))
  }

  predicate CaseLabelsValid(run: string, c: CaseResult) {
    && ValidName(c.caseId, 1024) && c.iteration >= 0 && c.key == CaseIdentity(run, c.caseId, c.iteration)
    && Measured(c.latency)
    && ValidKind(c.kind) && !c.category.OtherCategory? && ValidCode(c.code)
    && OptionalText(c.output) && OptionalText(c.error) && !c.costsGiven
  }

  predicate CaseValid(run: string, c: CaseResult) {
    && CaseLabelsValid(run, c) && NonNegative(CaseTally(c))
    && AttemptsValid(c.attempts) && AttemptsAgree(c)
    && ToolsValid(c.toolPath) && AssertionsValid(c.assertions) && OutcomeConsistent(c)
  }

  predicate CasesValid(run: string, cases: seq<CaseResult>) {
    forall i | 0 <= i < |cases| :: CaseValid(run, cases[i])
  }

  /** How the summary must match the totals of its cases. An omitted usage_complete is not compared, and an empty
      shard may report zero model calls or none. */
  predicate SummaryMatches(s: Summary, count: nat, sum: Tally) {
    && sum.input == s.inputTokens && sum.output == s.outputTokens && sum.tools == s.toolCalls
    && (if count == 0 then Known(s.modelCalls) == 0
        else s.modelCalls.Some? == sum.callsKnown && (sum.callsKnown ==> s.modelCalls.value == sum.calls))
    && (s.usageComplete.Some? ==> s.usageComplete.value == sum.complete)
  }

  predicate SummaryAgrees(s: Summary, cases: seq<CaseResult>) {
    && s.total == |cases| && s.succeeded >= 0 && s.failed >= 0 && s.succeeded + s.failed == s.total
    && SummaryMatches(s, |cases|, CasesTotal(cases))
  }

  /** What the upload check accepts. */
  predicate Accepted(run: string, shard: int, u: Upload) {
    && RunName(run) && shard >= 0 && u.key == ShardIdentity(run, shard) && u.schema.V1Alpha1?
    && Measured(u.summary.duration) && |u.cases| <= 100_000
    && CasesValid(run, u.cases) && NoDuplicates(Keys(u.cases)) && Fits(CasesTotal(u.cases))
    && SummaryAgrees(u.summary, u.cases)
  }

  lemma TotalStep(parts: seq<Tally>, i: nat)
    requires i < |parts|
    ensures Total(parts[..i + 1]) == Plus(Total(parts[..i]), parts[i])
  {
    assert parts[..i + 1][..i] == parts[..i];
  }

  /** If the total of non-negative counts fits in 64 bits, so does every running sum on the way. */
  lemma {:induction false} PrefixFits(parts: seq<Tally>, i: nat)
    requires i <= |parts|
    requires forall k | 0 <= k < |parts| :: NonNegative(parts[k])
    ensures NonNegative(Total(parts[..i]))
    ensures Fits(Total(parts)) ==> Fits(Total(parts[..i]))
    decreases |parts|
  {
    if i < |parts| {
      var shorter := parts[..|parts| - 1];
      PrefixFits(shorter, i);
      assert shorter[..i] == parts[..i];
    } else if parts != [] {
      PrefixFits(parts[..i - 1], i - 1);
      assert parts[..i] == parts;
      assert parts[..i - 1][..i - 1] == parts[..i - 1];
    }
  }

  /** One round of the running 64-bit sums: refuses instead of wrapping. */
  method Accumulate(sum: Tally, next: Tally) returns (ok: bool, r: Tally)
    requires NonNegative(sum) && Fits(sum) && NonNegative(next) && Fits(next)
    requires !next.callsKnown ==> next.calls == 0
    ensures ok == Fits(Plus(sum, next))
    ensures ok ==> r == Plus(sum, next)
  {
    if next.input > MAX_INT64 - sum.input || next.output > MAX_INT64 - sum.output { return false, sum; }
    r := sum.(input := Add64(sum.input, next.input), output := Add64(sum.output, next.output));
    if !next.callsKnown {
      r := r.(callsKnown := false);
    } else if next.calls > MAX_INT64 - sum.calls {
      return false, sum;
    } else {
      r := r.(calls := Add64(sum.calls, next.calls));
    }
    if next.tools > MAX_INT64 - sum.tools { return false, sum; }
    r := r.(tools := Add64(sum.tools, next.tools), complete := sum.complete && next.complete);
    ok := true;
  }

  /** What 64-bit counts of one part look like. */
  predicate Countable(t: Tally) {
    NonNegative(t) && Fits(t) && (!t.callsKnown ==> t.calls == 0)
  }

  /** The running sums over attempts or over cases. */
  method SumUp(parts: seq<Tally>) returns (ok: bool, sum: Tally)
    requires forall i | 0 <= i < |parts| :: Countable(parts[i])
    ensures ok == Fits(Total(parts))
    ensures ok ==> sum == Total(parts)
  {
    sum := NOTHING;
    for i := 0 to |parts|
      invariant sum == Total(parts[..i]) && NonNegative(sum) && Fits(sum)
    {
      TotalStep(parts, i);
      var fits;
      fits, sum := Accumulate(sum, parts[i]);
      if !fits {
        PrefixFits(parts, i + 1);
        return false, sum;
      }
    }
    assert parts[..|parts|] == parts;
    ok := true;
  }

  method CheckEvents(events: seq<CircuitEvent>) returns (ok: bool)
    ensures ok == ValidEvents(events)
  {
    for i := 0 to |events|
      invariant forall k | 0 <= k < i :: !events[k].OtherEvent?
    {
      if events[i].OtherEvent? { return false; }
    }
    return true;
  }

  method CheckAttempt(a: Attempt, i: nat) returns (ok: bool)
    ensures ok == AttemptValid(a, i)
  {
    if a.number != i + 1 || !Measured(a.latency) || a.backoffMs < 0 || !NonNegative(AttemptTally(a)) { return false; }
    if a.outcome.OtherOutcome? || Blank(a.retryDecision) || !Within(a.retryDecision, 64)
       || !Within(a.injectedRule, 128) || !ValidCode(a.code) || a.category.OtherCategory?
    {
      return false;
    }
    if a.fault.OtherFault? { return false; }
    ok := CheckEvents(a.circuitEvents);
  }

  /** The attempt loop of one case: each attempt, and then the sums against the case. */
  method CheckAttempts(c: CaseResult) returns (ok: bool)
    ensures ok == (AttemptsValid(c.attempts) && AttemptsAgree(c))
  {
    if |c.attempts| > 10 { return false; }
    for i := 0 to |c.attempts|
      invariant forall k | 0 <= k < i :: AttemptValid(c.attempts[k], k)
    {
      var valid := CheckAttempt(c.attempts[i], i);
      if !valid { return false; }
    }
    AttemptsCountable(c.attempts);
    var fits, sum := SumUp(Map(AttemptTally, c.attempts));
    return fits && (c.attempts == [] || Agrees(CaseTally(c), sum));
  }

  lemma AttemptsCountable(attempts: seq<Attempt>)
    requires forall i | 0 <= i < |attempts| :: AttemptValid(attempts[i], i)
    ensures forall i | 0 <= i < |attempts| :: Countable(Map(AttemptTally, attempts)[i])
  {
    forall i | 0 <= i < |attempts| ensures Countable(Map(AttemptTally, attempts)[i]) {
      assert AttemptValid(attempts[i], i);
    }
  }

  method CheckTools(path: seq<string>) returns (ok: bool)
    ensures ok == ToolsValid(path)
  {
    if |path| > 1000 { return false; }
    for i := 0 to |path|
      invariant forall k | 0 <= k < i :: ValidName(path[k], 512)
    {
      if Blank(path[i]) || !Within(path[i], 512) { return false; }
    }
    return true;
  }

  method CheckAssertions(assertions: seq<Assertion>) returns (ok: bool, failed: bool)
    ensures ok == AssertionsValid(assertions)
    ensures ok ==> failed == AnyFailed(assertions)
  {
    failed := false;
    if |assertions| > 100 { return false, false; }
    for i := 0 to |assertions|
      invariant forall k | 0 <= k < i :: AssertionValid(assertions[k], k)
      invariant failed == exists k :: 0 <= k < i && !assertions[k].passed
    {
      var a := assertions[i];
      if !AssertionValid(a, i) { return false, false; }
      failed := failed || !a.passed;
    }
    ok := true;
  }

  method CheckCase(run: string, c: CaseResult) returns (ok: bool)
    ensures ok == CaseValid(run, c)
  {
    if !CaseLabelsValid(run, c) || !NonNegative(CaseTally(c)) { return false; }
    var attempts := CheckAttempts(c);
    if !attempts { return false; }
    var tools := CheckTools(c.toolPath);
    if !tools { return false; }
    var assertions, failed := CheckAssertions(c.assertions);
    if !assertions { return false; }
    if !c.success && BlankKind(c.kind) { return false; }
    if c.success && failed { return false; }
    return !(c.kind.AssertionKind? && !failed);
  }

  /** The identity part of the case loop: no (case, iteration) pair occurs twice. */
  method CheckIdentities(cases: seq<CaseResult>) returns (ok: bool)
    ensures ok == NoDuplicates(Keys(cases))
  {
    var keys := Keys(cases);
    var seen: map<CaseKey, int> := map[];
    for i := 0 to |keys|
      invariant forall k | 0 <= k < i :: keys[k] in seen && seen[keys[k]] == k
      invariant forall key | key in seen :: 0 <= seen[key] < i && keys[seen[key]] == key
    {
      if keys[i] in seen { return false; }
      seen := seen[keys[i] := i];
    }
    return true;
  }

  method CheckCases(run: string, cases: seq<CaseResult>) returns (ok: bool)
    ensures ok == CasesValid(run, cases)
  {
    for i := 0 to |cases|
      invariant forall k | 0 <= k < i :: CaseValid(run, cases[k])
    {
      var valid := CheckCase(run, cases[i]);
      if !valid { return false; }
    }
    return true;
  }

  lemma CasesCountable(run: string, cases: seq<CaseResult>)
    requires CasesValid(run, cases)
    ensures forall i | 0 <= i < |cases| :: Countable(Map(CaseTally, cases)[i])
    ensures NonNegative(CasesTotal(cases))
  {
    var parts := Map(CaseTally, cases);
    forall i | 0 <= i < |cases| ensures Countable(parts[i]) {
      assert CaseValid(run, cases[i]);
    }
    PrefixFits(parts, |parts|);
    assert parts[..|parts|] == parts;
  }

  method CheckSummary(s: Summary, count: nat, sum: Tally) returns (ok: bool)
    requires NonNegative(sum)
    requires s.total == count && s.succeeded >= 0 && s.failed >= 0 && s.succeeded + s.failed == s.total
    requires count == 0 ==> sum == NOTHING
    ensures ok == SummaryMatches(s, count, sum)
  {
    if sum.input != s.inputTokens || sum.output != s.outputTokens { return false; }
    if s.usageComplete.Some? && s.usageComplete.value != sum.complete { return false; }
    if count == 0 {
      if s.modelCalls.Some? && s.modelCalls.value != 0 { return false; }
    } else if sum.callsKnown {
      if s.modelCalls.None? || s.modelCalls.value != sum.calls { return false; }
    } else if s.modelCalls.Some? {
      return false;
    }
    return s.toolCalls == sum.tools;
  }

  /** The summary's own figures, before any case is looked at. */
  predicate SummaryPlausible(s: Summary) {
    && s.succeeded >= 0 && s.failed >= 0 && Measured(s.duration) && s.inputTokens >= 0 && s.outputTokens >= 0
    && Known(s.modelCalls) >= 0 && s.toolCalls >= 0
  }

  lemma AcceptedIsPlausible(run: string, shard: int, u: Upload)
    requires Accepted(run, shard, u)
    ensures SummaryPlausible(u.summary)
  {
    CasesCountable(run, u.cases);
  }

  /** The upload check accepts exactly the documents whose labels are valid and whose totals agree as unbounded
      integers. */
  method ValidateShard(run: string, shard: int, u: Upload) returns (ok: bool)
    ensures ok == Accepted(run, shard, u)
  {
    var s := u.summary;
    if !RunName(run) || shard < 0 || u.key != ShardIdentity(run, shard) || !u.schema.V1Alpha1? { return false; }
    if s.total != |u.cases| || Add64(s.succeeded, s.failed) != s.total { return false; }
    if !SummaryPlausible(s) {
      if Accepted(run, shard, u) { AcceptedIsPlausible(run, shard, u); }
      return false;
    }
    if |u.cases| > 100_000 { return false; }
    var distinct := CheckIdentities(u.cases);
    if !distinct { return false; }
    var valid := CheckCases(run, u.cases);
    if !valid { return false; }
    CasesCountable(run, u.cases);
    var fits, sum := SumUp(Map(CaseTally, u.cases));
    if !fits { return false; }
    ok := CheckSummary(s, |u.cases|, sum);
  }

  /** The split between succeeded and failed is not compared with the cases: an accepted upload stays
      accepted under every other split of the same total. */
  lemma SucceededCountIsUnchecked(run: string, shard: int, u: Upload, succeeded: int64)
    requires Accepted(run, shard, u) && 0 <= succeeded <= u.summary.total
    ensures
      var other := u.summary.(succeeded := succeeded, failed := u.summary.total - succeeded);
      Accepted(run, shard, u.(summary := other))
  {
  }

  function Defaults(kind: Kind): (Category, Code) {
    match kind
    case AssertionKind => (EvaluationCategory, LegacyAssertion)
    case ToolKind => (ToolCategory, LegacyTool)
    case HarnessKind => (HarnessCategory, LegacyHarness)
    case _ => (ProviderCategory, LegacyProvider)
  }

  function WithDefault(flag: Option<bool>): Option<bool> { if flag.None? then Some(true) else flag }

  function NormalizedAttempt(a: Attempt): Attempt { a.(usageComplete := WithDefault(a.usageComplete)) }

  function NormalizedCase(c: CaseResult): CaseResult {
    var complete := c.(usageComplete := WithDefault(c.usageComplete), attempts := Map(NormalizedAttempt, c.attempts));
    if c.success || !c.category.NoCategory? then complete
    else
      var (category, code) := Defaults(c.kind);
      complete.(category := category, code := if c.code.NoCode? then code else c.code)
  }

  function Normalized(u: Upload): Upload {
    u.(summary := u.summary.(usageComplete := WithDefault(u.summary.usageComplete)),
       cases := Map(NormalizedCase, u.cases))
  }

  method NormalizeCase(given: CaseResult) returns (c: CaseResult)
    ensures c == NormalizedCase(given)
  {
    c := given;
    if c.usageComplete.None? { c := c.(usageComplete := Some(true)); }
    for j := 0 to |c.attempts|
      invariant c == given.(usageComplete := WithDefault(given.usageComplete), attempts := c.attempts)
      invariant |c.attempts| == |given.attempts|
      invariant forall k | 0 <= k < j :: c.attempts[k] == NormalizedAttempt(given.attempts[k])
      invariant forall k | j <= k < |c.attempts| :: c.attempts[k] == given.attempts[k]
    {
      if c.attempts[j].usageComplete.None? {
        c := c.(attempts := c.attempts[j := c.attempts[j].(usageComplete := Some(true))]);
      }
    }
    assert c.attempts == Map(NormalizedAttempt, given.attempts);
    if !c.success && c.category.NoCategory? {
      var (category, code) := Defaults(c.kind);
      c := c.(category := category, code := if c.code.NoCode? then code else c.code);
    }
  }

  /** Fills in the defaults case by case and attempt by attempt. */
  method NormalizeShard(u: Upload) returns (r: Upload)
    ensures r == Normalized(u)
  {
    r := u;
    if r.summary.usageComplete.None? { r := r.(summary := r.summary.(usageComplete := Some(true))); }
    for i := 0 to |u.cases|
      invariant r == Normalized(u).(cases := r.cases) && |r.cases| == |u.cases|
      invariant forall k | 0 <= k < i :: r.cases[k] == NormalizedCase(u.cases[k])
      invariant forall k | i <= k < |u.cases| :: r.cases[k] == u.cases[k]
    {
      var c := NormalizeCase(u.cases[i]);
      r := r.(cases := r.cases[i := c]);
    }
    assert r.cases == Map(NormalizedCase, u.cases);
  }

  /** Defaults are filled in once. */
  lemma NormalizeIdempotent(u: Upload)
    ensures Normalized(Normalized(u)) == Normalized(u)
  {
    forall i | 0 <= i < |u.cases|
      ensures NormalizedCase(NormalizedCase(u.cases[i])) == NormalizedCase(u.cases[i])
    {
      var c := u.cases[i];
      assert Map(NormalizedAttempt, Map(NormalizedAttempt, c.attempts)) == Map(NormalizedAttempt, c.attempts);
    }
    assert Normalized(Normalized(u)).cases == Normalized(u).cases;
  }

  lemma NormalizedAttempts(attempts: seq<Attempt>)
    ensures
      var filled := Map(NormalizedAttempt, attempts);
      AttemptsValid(filled) == AttemptsValid(attempts) && AttemptsTotal(filled) == AttemptsTotal(attempts)
  {
    var filled := Map(NormalizedAttempt, attempts);
    forall i | 0 <= i < |attempts| ensures AttemptValid(filled[i], i) == AttemptValid(attempts[i], i) {}
    assert Map(AttemptTally, filled) == Map(AttemptTally, attempts);
  }

  lemma NormalizedCaseValid(run: string, c: CaseResult)
    ensures CaseValid(run, NormalizedCase(c)) <==> CaseValid(run, c)
  {
    var n := NormalizedCase(c);
    NormalizedAttempts(c.attempts);
    assert CaseLabelsValid(run, n) == CaseLabelsValid(run, c);
    assert CaseTally(n) == CaseTally(c);
    assert OutcomeConsistent(n) == OutcomeConsistent(c);
  }

  lemma NormalizeKeepsCounts(u: Upload)
    ensures Keys(Normalized(u).cases) == Keys(u.cases)
    ensures CasesTotal(Normalized(u).cases) == CasesTotal(u.cases)
  {
    assert Keys(Normalized(u).cases) == Keys(u.cases);
    assert Map(CaseTally, Normalized(u).cases) == Map(CaseTally, u.cases);
  }

  lemma NormalizeKeepsValidity(run: string, cases: seq<CaseResult>)
    ensures CasesValid(run, Map(NormalizedCase, cases)) <==> CasesValid(run, cases)
  {
    var filled := Map(NormalizedCase, cases);
    forall i | 0 <= i < |cases| ensures CaseValid(run, filled[i]) <==> CaseValid(run, cases[i]) {
      NormalizedCaseValid(run, cases[i]);
    }
  }

  /** An omitted summary flag becomes "complete" even over incomplete cases, so an accepted upload
      stays acceptable after normalization exactly when the flag was given or every case is complete. */
  lemma NormalizedStaysAccepted(run: string, shard: int, u: Upload)
    requires Accepted(run, shard, u)
    ensures Accepted(run, shard, Normalized(u)) <==> u.summary.usageComplete.Some? || CasesTotal(u.cases).complete
  {
    NormalizeKeepsCounts(u);
    NormalizeKeepsValidity(run, u.cases);
    var n := Normalized(u);
    assert |n.cases| == |u.cases|;
    assert CasesValid(run, n.cases) && NoDuplicates(Keys(n.cases)) && Fits(CasesTotal(n.cases));
    SummaryAfterDefaults(u.summary, |u.cases|, CasesTotal(u.cases));
  }

  lemma SummaryAfterDefaults(s: Summary, count: nat, sum: Tally)
    requires SummaryMatches(s, count, sum)
    ensures SummaryMatches(s.(usageComplete := WithDefault(s.usageComplete)), count, sum) <==>
            s.usageComplete.Some? || sum.complete
  {
  }

  function TallyInput(t: Tally): int { t.input }
  function TallyOutput(t: Tally): int { t.output }
  function TallyCalls(t: Tally): int { t.calls }
  function TallyTools(t: Tally): int { t.tools }

  /** A running total is the sum of each count and the conjunction of each flag. */
  lemma {:induction false} TotalIsSums(parts: seq<Tally>)
    ensures Total(parts).input == Sum(parts, TallyInput) && Total(parts).output == Sum(parts, TallyOutput)
    ensures Total(parts).calls == Sum(parts, TallyCalls) && Total(parts).tools == Sum(parts, TallyTools)
    ensures Total(parts).callsKnown <==> forall i | 0 <= i < |parts| :: parts[i].callsKnown
    ensures Total(parts).complete <==> forall i | 0 <= i < |parts| :: parts[i].complete
  {
    if parts != [] {
      var n := |parts| - 1;
      TotalIsSums(parts[..n]);
      assert parts[..n + 1] == parts;
      SumPrefix(parts, n, TallyInput);
      SumPrefix(parts, n, TallyOutput);
      SumPrefix(parts, n, TallyCalls);
      SumPrefix(parts, n, TallyTools);
    }
  }

  function CaseInput(c: CaseResult): int { c.inputTokens }
  function CaseOutput(c: CaseResult): int { c.outputTokens }
  function CaseTools(c: CaseResult): int { c.toolCalls }
  function CaseCalls(c: CaseResult): int { Known(c.modelCalls) }

  predicate AllCallsReported(cases: seq<CaseResult>) {
    forall i | 0 <= i < |cases| :: cases[i].modelCalls.Some?
  }

  lemma CasesTotalSums(cases: seq<CaseResult>)
    ensures CasesTotal(cases).input == Sum(cases, CaseInput) && CasesTotal(cases).output == Sum(cases, CaseOutput)
    ensures CasesTotal(cases).tools == Sum(cases, CaseTools) && CasesTotal(cases).calls == Sum(cases, CaseCalls)
    ensures CasesTotal(cases).callsKnown == AllCallsReported(cases)
  {
    var parts := Map(CaseTally, cases);
    TotalIsSums(parts);
    SumPairwise(parts, cases, TallyInput, CaseInput);
    SumPairwise(parts, cases, TallyOutput, CaseOutput);
    SumPairwise(parts, cases, TallyTools, CaseTools);
    SumPairwise(parts, cases, TallyCalls, CaseCalls);
  }

  // ---- Documents ----

  /** The document of a shard without cases. */
  function EmptyUpload(run: string, shard: int): Upload {
    Upload(ShardIdentity(run, shard), V1Alpha1, Summary(0, 0, 0, Finite(0.0), 0, 0, Some(0), 0, Some(true)), [])
  }

  lemma EmptyAccepted(run: string, shard: int)
    requires RunName(run) && shard >= 0
    ensures Accepted(run, shard, EmptyUpload(run, shard))
    ensures Normalized(EmptyUpload(run, shard)) == EmptyUpload(run, shard)
  {
    assert Map(NormalizedCase, []) == [];
    assert CasesTotal([]) == NOTHING;
  }

  /** A successful case without attempts that used nothing, complete or not. */
  function BareCase(run: string, id: string, complete: bool): CaseResult {
    CaseResult(CaseIdentity(run, id, 0), id, 0, true, Finite(0.0), NoKind, NoCategory, NoCode, [],
               0, 0, Some(0), 0, Some(complete), None, None, [], [], false)
  }

  lemma BareCaseValid(run: string, id: string, complete: bool)
    requires ValidName(id, 1024)
    ensures CaseValid(run, BareCase(run, id, complete))
  {
    assert Map(AttemptTally, []) == [];
  }

  lemma SingleTotal(c: CaseResult)
    ensures CasesTotal([c]) == CaseTally(c)
  {
    var parts := Map(CaseTally, [c]);
    assert parts == [CaseTally(c)];
    assert parts[..|parts| - 1] == [];
    assert Total(parts[..|parts| - 1]) == NOTHING;
  }

  /** The document of a single case is accepted when the case is valid and the summary matches it. */
  lemma SingleAccepted(run: string, c: CaseResult, s: Summary) returns (u: Upload)
    requires RunName(run) && CaseValid(run, c) && SummaryMatches(s, 1, CaseTally(c))
    requires s.total == 1 && s.succeeded >= 0 && s.failed >= 0 && s.succeeded + s.failed == 1 && Measured(s.duration)
    ensures u == Upload(ShardIdentity(run, 0), V1Alpha1, s, [c])
    ensures Accepted(run, 0, u) && CasesTotal(u.cases) == CaseTally(c)
  {
    SingleTotal(c);
    u := Upload(ShardIdentity(run, 0), V1Alpha1, s, [c]);
    assert |Keys(u.cases)| == 1;
  }

  lemma BareAccepted(run: string, id: string, complete: bool, flag: Option<bool>) returns (u: Upload)
    requires RunName(run) && ValidName(id, 1024) && (flag.Some? ==> flag.value == complete)
    ensures |u.cases| == 1 && u.cases[0].usageComplete == Some(complete) && u.summary.usageComplete == flag
    ensures Accepted(run, 0, u) && CasesTotal(u.cases).complete == complete
  {
    BareCaseValid(run, id, complete);
    u := SingleAccepted(run, BareCase(run, id, complete), Summary(1, 1, 0, Finite(0.0), 0, 0, Some(0), 0, flag));
  }

  lemma StoredComplete(run: string, shard: int, u: Upload)
    requires Accepted(run, shard, u) && u.summary.usageComplete.None? && !CasesTotal(u.cases).complete
    ensures Normalized(u).summary.usageComplete == Some(true) && !Accepted(run, shard, Normalized(u))
  {
    NormalizedStaysAccepted(run, shard, u);
  }

  /** A document that leaves the summary's flag out over an incomplete case is accepted, and is stored with a summary
      that says the usage is complete, which the check would refuse. */
  lemma UnsaidUsageIsStoredComplete(run: string, id: string) returns (u: Upload)
    requires RunName(run) && ValidName(id, 1024)
    ensures |u.cases| == 1 && u.cases[0].usageComplete == Some(false) && u.summary.usageComplete.None?
    ensures Accepted(run, 0, u)
    ensures Normalized(u).summary.usageComplete == Some(true) && !Accepted(run, 0, Normalized(u))
  {
    u := BareAccepted(run, id, false, None);
    StoredComplete(run, 0, u);
  }

  /** For instance, in a run named "r" with a case named "a". */
  lemma UnsaidUsageInstance() returns (u: Upload)
    ensures Accepted("r", 0, u) && !Accepted("r", 0, Normalized(u))
  {
    PlainText("a", 1024);
    u := UnsaidUsageIsStoredComplete("r", "a");
  }
}
