/** What the Result API may rely on once the check has let a document through, field by field, and what filling in the
    defaults changes. */
module AcceptedUploads {
  import opened Collections
  import opened Texts
  import opened Uploads

  // ---- Labels and measurements ----

  /** The document names its run and shard, and no pair of case and iteration occurs twice. */
  lemma AcceptedDocument(run: string, shard: int, u: Upload)
    requires Accepted(run, shard, u)
    ensures shard >= 0 && u.key == ShardIdentity(run, shard) && u.schema == V1Alpha1
    ensures 1 <= |run| <= 200 && run[0] !in {'.', '_', '-'}
    ensures forall i | 0 <= i < |run| ::
              'a' <= run[i] <= 'z' || 'A' <= run[i] <= 'Z' || '0' <= run[i] <= '9' || run[i] in {'.', '_', '-'}
    ensures u.summary.total == |u.cases| <= 100_000
    ensures u.summary.succeeded >= 0 && u.summary.failed >= 0
    ensures u.summary.succeeded + u.summary.failed == u.summary.total
    ensures u.summary.duration.Finite? && u.summary.duration.value >= 0.0
    ensures forall i, j | 0 <= i < j < |u.cases| ::
              u.cases[i].caseId != u.cases[j].caseId || u.cases[i].iteration != u.cases[j].iteration
  {
    var keys := Keys(u.cases);
    forall i, j | 0 <= i < j < |u.cases|
      ensures u.cases[i].caseId != u.cases[j].caseId || u.cases[i].iteration != u.cases[j].iteration
    {
      assert keys[i] != keys[j];
    }
  }

  predicate Named(text: string, maxBytes: nat) {
    && Utf8Length(text) <= maxBytes
    && (exists i :: 0 <= i < |text| && !IsSpace(text[i]))
    && forall i | 0 <= i < |text| :: text[i] != '\0'
  }

  /** A case of an accepted document: named, measured, without costs of its own; a failed one names its kind, and one
      that fails an assertion is no success and says so. */
  lemma AcceptedCase(run: string, shard: int, u: Upload, i: nat)
    requires Accepted(run, shard, u) && i < |u.cases|
    ensures
      var c := u.cases[i];
      && c.key == CaseIdentity(run, c.caseId, c.iteration) && Named(c.caseId, 1024) && c.iteration >= 0
      && c.latency.Finite? && c.latency.value >= 0.0 && !c.costsGiven
      && c.inputTokens >= 0 && c.outputTokens >= 0 && c.toolCalls >= 0
      && (c.modelCalls.Some? ==> c.modelCalls.value >= 0)
      && |c.attempts| <= 10 && |c.assertions| <= 100 && |c.toolPath| <= 1000
      && (forall k | 0 <= k < |c.toolPath| :: Named(c.toolPath[k], 512))
      && c.category in {NoCategory, EvaluationCategory, ProviderCategory, ToolCategory, HarnessCategory}
      && (c.code.OtherCode? ==> ReasonCode(c.code.text))
      && (!c.success ==> c.kind != NoKind)
      && ((exists k :: 0 <= k < |c.assertions| && !c.assertions[k].passed) ==> !c.success)
      && (c.kind == AssertionKind ==> exists k :: 0 <= k < |c.assertions| && !c.assertions[k].passed)
  {
    assert CaseValid(run, u.cases[i]);
    var path := u.cases[i].toolPath;
    forall k | 0 <= k < |path| ensures Named(path[k], 512) {
      assert ValidName(path[k], 512);
    }
  }

  /** Its attempts are numbered from one, measured, and labelled from the fixed vocabularies; its assertions are
      numbered from zero. */
  lemma AcceptedParts(run: string, shard: int, u: Upload, i: nat, j: nat)
    requires Accepted(run, shard, u) && i < |u.cases|
    ensures
      var c := u.cases[i];
      && (j < |c.attempts| ==>
            var a := c.attempts[j];
            && a.number == j + 1 && a.latency.Finite? && a.latency.value >= 0.0 && a.backoffMs >= 0
            && a.inputTokens >= 0 && a.outputTokens >= 0 && a.toolCalls >= 0
            && (a.modelCalls.Some? ==> a.modelCalls.value >= 0)
            && a.outcome in {AttemptSucceeded, AttemptFailed, AttemptRejected, AttemptCancelled}
            && a.category in {NoCategory, EvaluationCategory, ProviderCategory, ToolCategory, HarnessCategory}
            && Named(a.retryDecision, 64) && Utf8Length(a.injectedRule) <= 128 && !a.fault.OtherFault?
            && (a.code.OtherCode? ==> ReasonCode(a.code.text))
            && forall k | 0 <= k < |a.circuitEvents| :: !a.circuitEvents[k].OtherEvent?)
      && (j < |c.assertions| ==>
            c.assertions[j].index == j && Named(c.assertions[j].kind, 64) && Named(c.assertions[j].reason, 64))
  {
    var c := u.cases[i];
    assert CaseValid(run, c);
    if j < |c.attempts| { assert AttemptValid(c.attempts[j], j); }
    if j < |c.assertions| { assert AssertionValid(c.assertions[j], j); }
  }

  // ---- Sums ----

  function AttemptInput(a: Attempt): int { a.inputTokens }
  function AttemptOutput(a: Attempt): int { a.outputTokens }
  function AttemptTools(a: Attempt): int { a.toolCalls }
  function AttemptCalls(a: Attempt): int { if a.modelCalls.Some? then a.modelCalls.value else 0 }

  lemma AttemptsTotalSums(attempts: seq<Attempt>)
    ensures
      var total := AttemptsTotal(attempts);
      && total.input == Sum(attempts, AttemptInput) && total.output == Sum(attempts, AttemptOutput)
      && total.tools == Sum(attempts, AttemptTools) && total.calls == Sum(attempts, AttemptCalls)
      && (total.callsKnown <==> forall j | 0 <= j < |attempts| :: attempts[j].modelCalls.Some?)
      && (total.complete <==> forall j | 0 <= j < |attempts| :: attempts[j].usageComplete != Some(false))
  {
    var parts := Map(AttemptTally, attempts);
    TotalIsSums(parts);
    AttemptTokens(attempts, parts);
    AttemptUses(attempts, parts);
    AttemptFlags(attempts, parts);
  }

  lemma AttemptTokens(attempts: seq<Attempt>, parts: seq<Tally>)
    requires parts == Map(AttemptTally, attempts)
    ensures Sum(parts, TallyInput) == Sum(attempts, AttemptInput)
    ensures Sum(parts, TallyOutput) == Sum(attempts, AttemptOutput)
  {
    SumPairwise(parts, attempts, TallyInput, AttemptInput);
    SumPairwise(parts, attempts, TallyOutput, AttemptOutput);
  }

  lemma AttemptUses(attempts: seq<Attempt>, parts: seq<Tally>)
    requires parts == Map(AttemptTally, attempts)
    ensures Sum(parts, TallyTools) == Sum(attempts, AttemptTools)
    ensures Sum(parts, TallyCalls) == Sum(attempts, AttemptCalls)
  {
    SumPairwise(parts, attempts, TallyTools, AttemptTools);
    SumPairwise(parts, attempts, TallyCalls, AttemptCalls);
  }

  lemma AttemptFlags(attempts: seq<Attempt>, parts: seq<Tally>)
    requires parts == Map(AttemptTally, attempts)
    ensures (forall j | 0 <= j < |parts| :: parts[j].callsKnown) <==>
            forall j | 0 <= j < |attempts| :: attempts[j].modelCalls.Some?
    ensures (forall j | 0 <= j < |parts| :: parts[j].complete) <==>
            forall j | 0 <= j < |attempts| :: attempts[j].usageComplete != Some(false)
  {
    assert forall j | 0 <= j < |attempts| ::
      parts[j].callsKnown == attempts[j].modelCalls.Some? &&
      parts[j].complete == (attempts[j].usageComplete != Some(false));
  }

  /** A case that lists attempts reports the sum of each of their counts, its model calls only if all of theirs are
      known, and complete usage exactly when none of theirs is incomplete. */
  lemma AttemptsAddUp(run: string, shard: int, u: Upload, i: nat)
    requires Accepted(run, shard, u) && i < |u.cases| && u.cases[i].attempts != []
    ensures
      var c := u.cases[i];
      && c.inputTokens == Sum(c.attempts, AttemptInput) && c.outputTokens == Sum(c.attempts, AttemptOutput)
      && c.toolCalls == Sum(c.attempts, AttemptTools)
      && (c.modelCalls.Some? <==> forall j | 0 <= j < |c.attempts| :: c.attempts[j].modelCalls.Some?)
      && (c.modelCalls.Some? ==> c.modelCalls.value == Sum(c.attempts, AttemptCalls))
      && Sum(c.attempts, AttemptCalls) <= MAX_INT64
      && (c.usageComplete != Some(false) <==>
            forall j | 0 <= j < |c.attempts| :: c.attempts[j].usageComplete != Some(false))
  {
    assert CaseValid(run, u.cases[i]);
    AttemptsTotalSums(u.cases[i].attempts);
  }

  /** The summary reports the sums over the cases in the same way; a flag it leaves out is not compared, and without
      cases it may leave out the model calls. */
  lemma CasesAddUp(run: string, shard: int, u: Upload)
    requires Accepted(run, shard, u)
    ensures
      var s := u.summary;
      && s.inputTokens == Sum(u.cases, CaseInput) && s.outputTokens == Sum(u.cases, CaseOutput)
      && s.toolCalls == Sum(u.cases, CaseTools)
      && (s.modelCalls.Some? ==> s.modelCalls.value == Sum(u.cases, CaseCalls))
      && Sum(u.cases, CaseCalls) <= MAX_INT64
      && (u.cases != [] ==> (s.modelCalls.Some? <==> forall i | 0 <= i < |u.cases| :: u.cases[i].modelCalls.Some?))
      && (s.usageComplete.Some? ==>
            (s.usageComplete.value <==> forall i | 0 <= i < |u.cases| :: u.cases[i].usageComplete != Some(false)))
  {
    CasesTotalSums(u.cases);
    CaseFlags(u.cases);
  }

  lemma CaseFlags(cases: seq<CaseResult>)
    ensures CasesTotal(cases).complete <==> forall i | 0 <= i < |cases| :: cases[i].usageComplete != Some(false)
  {
    var parts := Map(CaseTally, cases);
    TotalIsSums(parts);
    assert forall i | 0 <= i < |cases| :: parts[i].complete == (cases[i].usageComplete != Some(false));
  }

  // ---- Defaults ----

  /** Which labels a failure without a category gets from its kind. */
  predicate LabelledByKind(kind: Kind, category: Category, code: Code) {
    || (kind == AssertionKind && category == EvaluationCategory && code == LegacyAssertion)
    || (kind == ToolKind && category == ToolCategory && code == LegacyTool)
    || (kind == HarnessKind && category == HarnessCategory && code == LegacyHarness)
    || (kind !in {AssertionKind, ToolKind, HarnessKind} && category == ProviderCategory && code == LegacyProvider)
  }

  predicate FlagFilled(flag: Option<bool>, filled: Option<bool>) {
    filled == if flag == None then Some(true) else flag
  }

  /** Filling in the defaults keeps the cases in order and changes nothing in them but flags that were left out, and the
      labels of failures without a category: by their kind, with a code that was given kept. */
  lemma DefaultsFilled(u: Upload, i: nat, j: nat)
    requires i < |u.cases|
    ensures
      var n := Normalized(u);
      && |n.cases| == |u.cases| && FlagFilled(u.summary.usageComplete, n.summary.usageComplete)
      && n == u.(summary := u.summary.(usageComplete := n.summary.usageComplete), cases := n.cases)
      && var given, filled := u.cases[i], n.cases[i];
         && filled == given.(usageComplete := filled.usageComplete, attempts := filled.attempts,
                             category := filled.category, code := filled.code)
         && FlagFilled(given.usageComplete, filled.usageComplete)
         && (if given.success || given.category != NoCategory then
               filled.category == given.category && filled.code == given.code
             else
               exists code :: LabelledByKind(given.kind, filled.category, code) &&
                              filled.code == if given.code == NoCode then code else given.code)
         && |filled.attempts| == |given.attempts|
         && (j < |given.attempts| ==>
               && FlagFilled(given.attempts[j].usageComplete, filled.attempts[j].usageComplete)
               && filled.attempts[j] == given.attempts[j].(usageComplete := filled.attempts[j].usageComplete))
  {
    var given, filled := u.cases[i], Normalized(u).cases[i];
    if !given.success && given.category == NoCategory {
      assert LabelledByKind(given.kind, filled.category, Defaults(given.kind).1);
    }
  }
}
