/** What the stored aggregate of a run means, whatever order the cases arrived in. */
module Aggregates {
  import opened Collections
  import opened Uploads
  import opened ShardStore
  import opened ShardInvariant

  lemma {:induction false} SumBelow<T>(s: seq<T>, f: T -> int, g: T -> int)
    requires forall x | x in s :: f(x) <= g(x)
    ensures Sum(s, f) <= Sum(s, g)
  {
    if s != [] { SumBelow(s[1..], f, g); }
  }

  lemma {:induction false} SumTogether<T>(s: seq<T>, f: T -> int, g: T -> int, both: T -> int)
    requires forall x | x in s :: both(x) == f(x) + g(x)
    ensures Sum(s, both) == Sum(s, f) + Sum(s, g)
  {
    if s != [] { SumTogether(s[1..], f, g, both); }
  }

  function Each(r: CaseRow): int { 1 }

  function Failing(r: CaseRow): int { Weight(!r.item.success) }

  function FailingOfEitherKind(r: CaseRow): int { IsQuality(r) + IsInfrastructure(r) }

  function Attempted(r: CaseRow): int { Weight(|r.item.attempts| > 0) }

  lemma {:induction false} EachIsCount(rows: seq<CaseRow>)
    ensures Sum(rows, Each) == |rows|
  {
    if rows != [] { EachIsCount(rows[1..]); }
  }

  lemma {:induction false} FewAttempts(attempts: seq<Attempt>)
    ensures 0 <= Sum(attempts, IsInjected) <= |attempts| && 0 <= Sum(attempts, IsRejected) <= |attempts|
  {
    if attempts != [] { FewAttempts(attempts[1..]); }
  }

  /** How the counts of an aggregate hang together. */
  lemma OutcomeCounts(rows: seq<CaseRow>)
    ensures var a := AggregateOf(rows);
            && a.total == a.succeeded + a.failed && a.failed == Sum(rows, Failing)
            && 0 <= a.succeeded <= a.total
            && a.qualityFailures + a.infrastructureFailures <= a.failed
  {
    EachIsCount(rows);
    SumNonNegative(rows, IsSuccess);
    SumBelow(rows, IsSuccess, Each);
    SumTogether(rows, IsSuccess, Failing, Each);
    SumTogether(rows, IsQuality, IsInfrastructure, FailingOfEitherKind);
    SumBelow(rows, FailingOfEitherKind, Failing);
  }

  lemma AttemptCounts(rows: seq<CaseRow>)
    ensures var a := AggregateOf(rows);
            && a.attempts == a.retries + Sum(rows, Attempted)
            && a.retrySuccesses <= a.retriedCases <= a.retries <= a.attempts
            && a.retrySuccesses <= a.succeeded && a.retriedCases <= a.total
            && a.injectedFaults <= a.attempts && a.circuitRejections <= a.attempts
  {
    EachIsCount(rows);
    SumTogether(rows, RetriesIn, Attempted, AttemptsIn);
    SumNonNegative(rows, Attempted);
    SumBelow(rows, IsRetrySuccess, IsRetried);
    SumBelow(rows, IsRetried, RetriesIn);
    SumBelow(rows, IsRetrySuccess, IsSuccess);
    SumBelow(rows, IsRetried, Each);
    forall r | r in rows ensures InjectedIn(r) <= AttemptsIn(r) && RejectionsIn(r) <= AttemptsIn(r) {
      FewAttempts(r.item.attempts);
    }
    SumBelow(rows, InjectedIn, AttemptsIn);
    SumBelow(rows, RejectionsIn, AttemptsIn);
  }

  // ---- What each count counts ----

  lemma VerdictsCounted(rows: seq<CaseRow>)
    ensures Sum(rows, IsSuccess) == |set i | 0 <= i < |rows| && rows[i].item.success|
    ensures Sum(rows, Failing) == |set i | 0 <= i < |rows| && !rows[i].item.success|
  {
    CountOf(rows, IsSuccess, set i | 0 <= i < |rows| && rows[i].item.success);
    CountOf(rows, Failing, set i | 0 <= i < |rows| && !rows[i].item.success);
  }

  lemma QualityCounted(rows: seq<CaseRow>)
    ensures Sum(rows, IsQuality) ==
            |set i | 0 <= i < |rows| && !rows[i].item.success && rows[i].item.category == EvaluationCategory|
  {
    CountOf(rows, IsQuality,
            set i | 0 <= i < |rows| && !rows[i].item.success && rows[i].item.category == EvaluationCategory);
  }

  lemma InfrastructureCounted(rows: seq<CaseRow>)
    ensures Sum(rows, IsInfrastructure) ==
            |set i | 0 <= i < |rows| && !rows[i].item.success &&
                     rows[i].item.category in {ProviderCategory, ToolCategory, HarnessCategory}|
  {
    CountOf(rows, IsInfrastructure,
            set i | 0 <= i < |rows| && !rows[i].item.success &&
                    rows[i].item.category in {ProviderCategory, ToolCategory, HarnessCategory});
  }

  lemma RetriesCounted(rows: seq<CaseRow>)
    ensures Sum(rows, IsRetried) == |set i | 0 <= i < |rows| && |rows[i].item.attempts| > 1|
    ensures Sum(rows, IsRetrySuccess) ==
            |set i | 0 <= i < |rows| && rows[i].item.success && |rows[i].item.attempts| > 1|
    ensures Sum(rows, Attempted) == |set i | 0 <= i < |rows| && rows[i].item.attempts != []|
  {
    CountOf(rows, IsRetried, set i | 0 <= i < |rows| && |rows[i].item.attempts| > 1);
    CountOf(rows, IsRetrySuccess, set i | 0 <= i < |rows| && rows[i].item.success && |rows[i].item.attempts| > 1);
    CountOf(rows, Attempted, set i | 0 <= i < |rows| && rows[i].item.attempts != []);
  }

  /** The outcome counts of an aggregate are numbers of stored cases, each by its own condition. */
  lemma OutcomesCounted(rows: seq<CaseRow>)
    ensures
      var a := AggregateOf(rows);
      && a.total == |rows|
      && a.succeeded == |set i | 0 <= i < |rows| && rows[i].item.success|
      && a.failed == |set i | 0 <= i < |rows| && !rows[i].item.success|
      && a.qualityFailures ==
         |set i | 0 <= i < |rows| && !rows[i].item.success && rows[i].item.category == EvaluationCategory|
      && a.infrastructureFailures ==
         |set i | 0 <= i < |rows| && !rows[i].item.success &&
                  rows[i].item.category in {ProviderCategory, ToolCategory, HarnessCategory}|
      && a.retriedCases == |set i | 0 <= i < |rows| && |rows[i].item.attempts| > 1|
      && a.retrySuccesses == |set i | 0 <= i < |rows| && rows[i].item.success && |rows[i].item.attempts| > 1|
  {
    OutcomeCounts(rows);
    VerdictsCounted(rows);
    QualityCounted(rows);
    InfrastructureCounted(rows);
    RetriesCounted(rows);
  }

  function AttemptList(r: CaseRow): seq<Attempt> { r.item.attempts }

  /** Every attempt of every stored case. */
  function AllAttempts(rows: seq<CaseRow>): seq<Attempt> { Concat(Map(AttemptList, rows)) }

  function EachAttempt(a: Attempt): int { 1 }

  lemma {:induction false} EachAttemptCounts(attempts: seq<Attempt>)
    ensures Sum(attempts, EachAttempt) == |attempts|
  {
    if attempts != [] { EachAttemptCounts(attempts[1..]); }
  }

  lemma AttemptSums(rows: seq<CaseRow>)
    ensures Sum(rows, AttemptsIn) == |AllAttempts(rows)|
    ensures Sum(rows, InjectedIn) == Sum(AllAttempts(rows), IsInjected)
    ensures Sum(rows, RejectionsIn) == Sum(AllAttempts(rows), IsRejected)
  {
    var parts := Map(AttemptList, rows);
    forall i | 0 <= i < |rows| ensures Sum(parts[i], EachAttempt) == AttemptsIn(rows[i]) {
      EachAttemptCounts(parts[i]);
    }
    SumConcat(parts, EachAttempt, rows, AttemptsIn);
    EachAttemptCounts(AllAttempts(rows));
    SumConcat(parts, IsInjected, rows, InjectedIn);
    SumConcat(parts, IsRejected, rows, RejectionsIn);
  }

  /** The attempt counts of an aggregate are numbers of attempts, each by its own condition; every attempt but the
      first of a case is a retry. */
  lemma AttemptsCounted(rows: seq<CaseRow>)
    ensures
      var a, all := AggregateOf(rows), AllAttempts(rows);
      && a.attempts == |all|
      && a.retries == |all| - |set i | 0 <= i < |rows| && rows[i].item.attempts != []|
      && a.injectedFaults == |set k | 0 <= k < |all| && all[k].fault != NoFault|
      && a.circuitRejections == |set k | 0 <= k < |all| && all[k].code == CircuitOpen|
  {
    var all := AllAttempts(rows);
    AttemptSums(rows);
    AttemptCounts(rows);
    RetriesCounted(rows);
    CountOf(all, IsInjected, set k | 0 <= k < |all| && all[k].fault != NoFault);
    CountOf(all, IsRejected, set k | 0 <= k < |all| && all[k].code == CircuitOpen);
  }

  function ItemOf(r: CaseRow): CaseResult { r.item }

  /** The sums of an aggregate, each over its own field; unknown as soon as one case leaves the field unknown. */
  lemma SumsAdded(rows: seq<CaseRow>)
    ensures
      var a, items := AggregateOf(rows), Map(ItemOf, rows);
      && a.inputTokens == Sum(items, (c: CaseResult) => c.inputTokens)
      && a.outputTokens == Sum(items, (c: CaseResult) => c.outputTokens)
      && a.toolCalls == Sum(items, (c: CaseResult) => c.toolCalls)
      && (a.modelCalls.Some? <==> rows != [] && forall i | 0 <= i < |rows| :: rows[i].item.modelCalls.Some?)
      && (a.modelCalls.Some? ==>
            a.modelCalls.value == Sum(items, (c: CaseResult) => if c.modelCalls.Some? then c.modelCalls.value else 0))
      && (a.usageComplete <==> forall i | 0 <= i < |rows| :: rows[i].item.usageComplete != Some(false))
  {
    var items := Map(ItemOf, rows);
    SumPairwise(rows, items, InputIn, (c: CaseResult) => c.inputTokens);
    SumPairwise(rows, items, OutputIn, (c: CaseResult) => c.outputTokens);
    SumPairwise(rows, items, ToolCallsIn, (c: CaseResult) => c.toolCalls);
    SumPairwise(rows, items, ModelCallsIn, (c: CaseResult) => if c.modelCalls.Some? then c.modelCalls.value else 0);
  }

  // ---- Order ----

  lemma SameRows(a: seq<CaseRow>, b: seq<CaseRow>)
    requires multiset(a) == multiset(b)
    ensures |a| == |b| && forall i | 0 <= i < |a| :: a[i] in b
  {
    assert |multiset(a)| == |a| && |multiset(b)| == |b|;
    forall i | 0 <= i < |a| ensures a[i] in b {
      assert a[i] in multiset(a);
      assert a[i] in multiset(b);
    }
  }

  lemma SameFlags(a: seq<CaseRow>, b: seq<CaseRow>)
    requires multiset(a) == multiset(b)
    ensures AllPriced(a) == AllPriced(b) && AllCallsKnown(a) == AllCallsKnown(b)
    ensures AggregateOf(a).usageComplete == AggregateOf(b).usageComplete
  {
    SameRows(a, b);
    SameRows(b, a);
  }

  /** The aggregate depends on which cases are stored and not on the order in which they arrived. */
  lemma AggregateIgnoresOrder(a: seq<CaseRow>, b: seq<CaseRow>)
    requires multiset(a) == multiset(b)
    ensures AggregateOf(a) == AggregateOf(b)
  {
    SameRows(a, b);
    SameFlags(a, b);
    SumPermutation(a, b, IsSuccess);
    SumPermutation(a, b, IsQuality);
    SumPermutation(a, b, IsInfrastructure);
    SumPermutation(a, b, AttemptsIn);
    SumPermutation(a, b, RetriesIn);
    SumPermutation(a, b, IsRetried);
    SumPermutation(a, b, IsRetrySuccess);
    SumPermutation(a, b, InjectedIn);
    SumPermutation(a, b, RejectionsIn);
    SumPermutation(a, b, InputIn);
    SumPermutation(a, b, OutputIn);
    SumPermutation(a, b, ModelCallsIn);
    SumPermutation(a, b, ToolCallsIn);
    SumPermutation(a, b, InputCostIn);
    SumPermutation(a, b, OutputCostIn);
    SumPermutation(a, b, CostIn);
  }

  // ---- When the cost is known ----

  lemma RowCost(run: Run, now: int, issued: Token, i: nat)
    requires RunValid(run, now, issued) && i < |run.rows|
    ensures var row := run.rows[i];
            && (row.costs.Some? <==> run.registration.pricing.Some? && UsageComplete(row.item.usageComplete))
            && CostIn(row) == InputCostIn(row) + OutputCostIn(row)
  {
    var row := run.rows[i];
    assert RowJustified(run.registration.pricing, run.receipts, row);
    assert Sound(run.receipts[row.shard].payload);
  }

  predicate PricedWhenComplete(priced: bool, rows: seq<CaseRow>) {
    forall i | 0 <= i < |rows| ::
      && (rows[i].costs.Some? <==> priced && UsageComplete(rows[i].item.usageComplete))
      && CostIn(rows[i]) == InputCostIn(rows[i]) + OutputCostIn(rows[i])
  }

  lemma AggregateCost(priced: bool, rows: seq<CaseRow>)
    requires PricedWhenComplete(priced, rows)
    ensures var a := AggregateOf(rows);
            && (a.cost.Some? <==> priced && a.total > 0 && a.usageComplete)
            && (a.cost.Some? ==>
                  a.inputCost.Some? && a.outputCost.Some? && a.cost.value == a.inputCost.value + a.outputCost.value)
  {
    SumTogether(rows, InputCostIn, OutputCostIn, CostIn);
  }

  /** In every reachable state a run has a cost exactly when it registered prices, stores a case and no stored case
      has unknown usage; and the cost is its two parts. */
  lemma CostKnownExactlyWhen(events: seq<Event>, id: RunId)
    requires id in After(EMPTY, events).runs && After(EMPTY, events).runs[id].summary.Some?
    ensures var run := After(EMPTY, events).runs[id];
            var a := run.summary.value;
            && (a.cost.Some? <==> run.registration.pricing.Some? && a.total > 0 && a.usageComplete)
            && (a.cost.Some? ==>
                  a.inputCost.Some? && a.outputCost.Some? && a.cost.value == a.inputCost.value + a.outputCost.value)
  {
    ReachableValid(events);
    var s := After(EMPTY, events);
    var run := s.runs[id];
    RowsPriced(run, s.now, s.issued);
    AggregateCost(run.registration.pricing.Some?, run.rows);
  }

  lemma RowsPriced(run: Run, now: int, issued: Token)
    requires RunValid(run, now, issued)
    ensures PricedWhenComplete(run.registration.pricing.Some?, run.rows)
    ensures run.summary.Some? ==> run.summary == Some(AggregateOf(run.rows))
  {
    forall i | 0 <= i < |run.rows|
      ensures
        && (run.rows[i].costs.Some? <==>
              run.registration.pricing.Some? && UsageComplete(run.rows[i].item.usageComplete))
        && CostIn(run.rows[i]) == InputCostIn(run.rows[i]) + OutputCostIn(run.rows[i])
    {
      RowCost(run, now, issued, i);
    }
  }
}
