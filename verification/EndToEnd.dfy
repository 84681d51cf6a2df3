/** From the dataset to the aggregate: what a complete run holds when every worker uploaded its slice. */
module EndToEnd {
  import opened Collections
  import opened Uploads
  import opened Pricing
  import opened Sharding
  import opened RunnerAccounting
  import WorkerPool
  import Aggregates
  import opened ShardStore
  import opened ShardInvariant

  /** Shard `i` uploaded a result for each item of its modulo slice, in whatever order they finished. */
  predicate FullSlices(run: Run, cases: seq<string>, iterations: nat) {
    run.registration.expectedShards > 0 &&
    forall i | 0 <= i < run.registration.expectedShards ::
      i in run.receipts &&
      multiset(Keys(run.receipts[i].payload.cases)) ==
      multiset(Work(cases, run.registration.expectedShards, i, iterations))
  }

  /** A worker whose pool was not stopped uploads its full slice: whatever the interleaving, the normalised
      document it sends holds each item of the slice exactly once. */
  lemma WorkerUploadsItsSlice(
    cases: seq<string>, count: nat, shard: nat, iterations: nat, concurrency: nat,
    trace: seq<WorkerPool.Event>, run: string, sensitive: bool, durationMs: Elapsed, results: seq<WorkerResult>)
    requires count > 0 && concurrency >= 1 && Fitting(results)
    requires
      var start := WorkerPool.Start(Work(cases, count, shard, iterations), concurrency);
      && WorkerPool.Runs(start, trace)
      && var end := WorkerPool.After(start, trace);
         WorkerPool.Over(end) && !end.stopped && WorkerPool.Reported(end) == Some(Map(ResultKey, results))
    ensures
      var sent := Payload(run, shard, sensitive, durationMs, results);
      multiset(Keys(Normalized(sent).cases)) == multiset(Work(cases, count, shard, iterations))
  {
    WorkerPool.PoolFillsSlice(cases, count, shard, iterations, concurrency, trace);
    var sent := Payload(run, shard, sensitive, durationMs, results);
    NormalizeKeepsCounts(sent);
    assert Keys(sent.cases) == Map(ResultKey, results);
  }

  function RowKeys(rows: seq<CaseRow>): seq<CaseKey> { Map(RowKey, rows) }

  function Items(rows: seq<CaseRow>): seq<CaseResult> { Map((r: CaseRow) => r.item, rows) }

  lemma RowsDistinct(rows: seq<CaseRow>)
    requires DistinctRows(rows)
    ensures NoDuplicates(RowKeys(rows)) && NoDuplicates(Items(rows))
  {
    var keys, items := RowKeys(rows), Items(rows);
    forall i, j | 0 <= i < j < |rows| ensures keys[i] != keys[j] && items[i] != items[j] {}
  }

  /** The stored cases are exactly the cases of the completed receipts. */
  lemma StoredExactlyUploaded(run: Run, c: CaseResult)
    requires RowsValid(run.registration.pricing, run.receipts, run.rows)
    ensures c in Items(run.rows) <==>
            exists i :: i in run.receipts && run.receipts[i].complete && c in run.receipts[i].payload.cases
  {
    if c in Items(run.rows) {
      var k :| 0 <= k < |run.rows| && Items(run.rows)[k] == c;
      assert RowJustified(run.registration.pricing, run.receipts, run.rows[k]);
    }
    if i :| i in run.receipts && run.receipts[i].complete && c in run.receipts[i].payload.cases {
      assert HasItem(run.rows, c);
      var k :| 0 <= k < |run.rows| && run.rows[k].item == c;
      assert Items(run.rows)[k] == c;
    }
  }

  function Uploaded(run: Run, n: nat): seq<seq<CaseResult>>
    requires forall i | 0 <= i < n :: i in run.receipts
  {
    seq(n, i requires 0 <= i < n => run.receipts[i].payload.cases)
  }

  /** A run whose every shard is complete. */
  predicate AllIn(run: Run) {
    && ReceiptsValid(run.registration, run.receipts)
    && RowsValid(run.registration.pricing, run.receipts, run.rows)
    && forall i | 0 <= i < run.registration.expectedShards :: i in run.receipts && run.receipts[i].complete
  }

  lemma KeyInSlice(run: Run, cases: seq<string>, iterations: nat, i: int, c: CaseResult)
    requires FullSlices(run, cases, iterations) && 0 <= i < run.registration.expectedShards
    requires c in run.receipts[i].payload.cases
    ensures KeyOf(c) in Work(cases, run.registration.expectedShards, i, iterations)
  {
    var uploaded := run.receipts[i].payload.cases;
    var k :| 0 <= k < |uploaded| && uploaded[k] == c;
    assert Keys(uploaded)[k] == KeyOf(c);
    assert KeyOf(c) in multiset(Keys(uploaded));
  }

  /** Different shards upload different cases. */
  lemma UploadsDisjoint(run: Run, cases: seq<string>, iterations: nat)
    requires AllIn(run) && FullSlices(run, cases, iterations) && NoDuplicates(cases)
    ensures NoDuplicates(Concat(Uploaded(run, run.registration.expectedShards)))
  {
    var n := run.registration.expectedShards;
    var parts := Uploaded(run, n);
    forall i, j, c | 0 <= i < j < n && c in parts[i] ensures c !in parts[j] {
      SlicesPartition(cases, n, iterations, KeyOf(c));
      KeyInSlice(run, cases, iterations, i, c);
      if c in parts[j] { KeyInSlice(run, cases, iterations, j, c); }
    }
    forall i | 0 <= i < n ensures NoDuplicates(parts[i]) {
      assert Sound(run.receipts[i].payload);
      DistinctKeysDistinctCases(parts[i]);
    }
    NoDuplicatesConcat(parts);
  }

  lemma DistinctKeysDistinctCases(cases: seq<CaseResult>)
    requires NoDuplicates(Keys(cases))
    ensures NoDuplicates(cases)
  {
    forall i, j | 0 <= i < j < |cases| ensures cases[i] != cases[j] {
      assert Keys(cases)[i] != Keys(cases)[j];
    }
  }

  lemma StoredIffUploaded(run: Run, c: CaseResult)
    requires AllIn(run)
    ensures c in Items(run.rows) <==> c in Concat(Uploaded(run, run.registration.expectedShards))
  {
    var parts := Uploaded(run, run.registration.expectedShards);
    StoredExactlyUploaded(run, c);
    ConcatMember(parts, c);
    if i :| i in run.receipts && run.receipts[i].complete && c in run.receipts[i].payload.cases {
      assert c in parts[i];
    }
    if i :| 0 <= i < |parts| && c in parts[i] {
      assert i in run.receipts && c in run.receipts[i].payload.cases;
    }
  }

  /** The stored cases are a permutation of everything the shards uploaded. */
  lemma StoredPermutesUploaded(run: Run, cases: seq<string>, iterations: nat)
    requires AllIn(run) && FullSlices(run, cases, iterations) && NoDuplicates(cases)
    ensures multiset(Items(run.rows)) == multiset(Concat(Uploaded(run, run.registration.expectedShards)))
  {
    var parts := Uploaded(run, run.registration.expectedShards);
    RowsDistinct(run.rows);
    UploadsDisjoint(run, cases, iterations);
    forall c ensures c in Items(run.rows) <==> c in Concat(parts) {
      StoredIffUploaded(run, c);
    }
    SameMembersPermutation(Items(run.rows), Concat(parts));
  }

  /** Each dataset case of each iteration is stored exactly once. */
  lemma EveryItemStoredOnce(run: Run, cases: seq<string>, iterations: nat)
    requires AllIn(run) && FullSlices(run, cases, iterations) && NoDuplicates(cases)
    ensures multiset(RowKeys(run.rows)) == multiset(Work(cases, 1, 0, iterations))
  {
    var n := run.registration.expectedShards;
    RowsDistinct(run.rows);
    WholeWork(cases, iterations);
    forall x ensures x in RowKeys(run.rows) <==> x in Work(cases, 1, 0, iterations) {
      SlicesPartition(cases, n, iterations, x);
      if x in RowKeys(run.rows) {
        var k :| 0 <= k < |run.rows| && RowKeys(run.rows)[k] == x;
        var row := run.rows[k];
        assert RowJustified(run.registration.pricing, run.receipts, row);
        KeyInSlice(run, cases, iterations, row.shard, row.item);
      }
      if i :| 0 <= i < n && x in Work(cases, n, i, iterations) {
        SliceItemStored(run, cases, iterations, i, x);
      }
    }
    SameMembersPermutation(RowKeys(run.rows), Work(cases, 1, 0, iterations));
  }

  lemma SliceItemStored(run: Run, cases: seq<string>, iterations: nat, i: int, x: Item)
    requires AllIn(run) && FullSlices(run, cases, iterations)
    requires 0 <= i < run.registration.expectedShards
    requires x in Work(cases, run.registration.expectedShards, i, iterations)
    ensures x in RowKeys(run.rows)
  {
    var uploaded := run.receipts[i].payload.cases;
    assert x in multiset(Work(cases, run.registration.expectedShards, i, iterations));
    assert x in Keys(uploaded);
    var k :| 0 <= k < |uploaded| && Keys(uploaded)[k] == x;
    assert HasItem(run.rows, uploaded[k]);
    var r :| 0 <= r < |run.rows| && run.rows[r].item == uploaded[k];
    assert RowKeys(run.rows)[r] == x;
  }

  function Receipts(run: Run, n: nat): seq<Receipt>
    requires forall i | 0 <= i < n :: i in run.receipts
  {
    seq(n, i requires 0 <= i < n => run.receipts[i])
  }

  function ReportedInput(r: Receipt): int { r.payload.summary.inputTokens }

  function ReportedOutput(r: Receipt): int { r.payload.summary.outputTokens }

  function ReportedTotal(r: Receipt): int { r.payload.summary.total }

  function ReportedTools(r: Receipt): int { r.payload.summary.toolCalls }

  function ReportedCalls(r: Receipt): int { Known(r.payload.summary.modelCalls) }

  /** A shard with cases says how many model calls they made. */
  predicate CallsReported(r: Receipt) { r.payload.cases != [] ==> r.payload.summary.modelCalls.Some? }

  predicate AllCallsReportedBy(run: Run) {
    forall i | 0 <= i < run.registration.expectedShards :: i in run.receipts && CallsReported(run.receipts[i])
  }

  function One(c: CaseResult): int { 1 }

  lemma {:induction false} CountIsSum(cases: seq<CaseResult>)
    ensures Sum(cases, One) == |cases|
  {
    if cases != [] { CountIsSum(cases[1..]); }
  }

  lemma ReportsAreSums(run: Run, i: int)
    requires AllIn(run) && 0 <= i < run.registration.expectedShards
    ensures var cases := run.receipts[i].payload.cases;
            && Sum(cases, CaseInput) == ReportedInput(run.receipts[i])
            && Sum(cases, CaseOutput) == ReportedOutput(run.receipts[i])
            && Sum(cases, CaseTools) == ReportedTools(run.receipts[i])
            && Sum(cases, One) == ReportedTotal(run.receipts[i])
            && (CallsReported(run.receipts[i]) <==> AllCallsReported(cases))
            && (AllCallsReported(cases) ==> Sum(cases, CaseCalls) == ReportedCalls(run.receipts[i]))
  {
    assert Sound(run.receipts[i].payload);
    CountIsSum(run.receipts[i].payload.cases);
  }

  lemma PermutedSum(run: Run, items: seq<CaseResult>, f: CaseResult -> int, reported: Receipt -> int)
    requires run.registration.expectedShards >= 0
    requires forall i | 0 <= i < run.registration.expectedShards ::
               i in run.receipts && Sum(run.receipts[i].payload.cases, f) == reported(run.receipts[i])
    requires multiset(items) == multiset(Concat(Uploaded(run, run.registration.expectedShards)))
    ensures Sum(items, f) == Sum(Receipts(run, run.registration.expectedShards), reported)
  {
    var n := run.registration.expectedShards;
    SumPermutation(items, Concat(Uploaded(run, n)), f);
    SumConcat(Uploaded(run, n), f, Receipts(run, n), reported);
  }

  lemma ItemTotals(run: Run, cases: seq<string>, iterations: nat)
    requires AllIn(run) && FullSlices(run, cases, iterations) && NoDuplicates(cases)
    ensures var receipts := Receipts(run, run.registration.expectedShards);
            && Sum(Items(run.rows), CaseInput) == Sum(receipts, ReportedInput)
            && Sum(Items(run.rows), CaseOutput) == Sum(receipts, ReportedOutput)
            && Sum(Items(run.rows), CaseTools) == Sum(receipts, ReportedTools)
            && Sum(Items(run.rows), One) == Sum(receipts, ReportedTotal)
            && (AllCallsReportedBy(run) ==> Sum(Items(run.rows), CaseCalls) == Sum(receipts, ReportedCalls))
  {
    var items := Items(run.rows);
    StoredPermutesUploaded(run, cases, iterations);
    forall i | 0 <= i < run.registration.expectedShards { ReportsAreSums(run, i); }
    PermutedSum(run, items, CaseInput, ReportedInput);
    PermutedSum(run, items, CaseOutput, ReportedOutput);
    PermutedSum(run, items, CaseTools, ReportedTools);
    PermutedSum(run, items, One, ReportedTotal);
    if AllCallsReportedBy(run) { PermutedSum(run, items, CaseCalls, ReportedCalls); }
  }

  lemma RowTotals(rows: seq<CaseRow>)
    ensures Sum(rows, InputIn) == Sum(Items(rows), CaseInput) && Sum(rows, OutputIn) == Sum(Items(rows), CaseOutput)
    ensures Sum(rows, ToolCallsIn) == Sum(Items(rows), CaseTools)
    ensures Sum(rows, ModelCallsIn) == Sum(Items(rows), CaseCalls)
    ensures |rows| == Sum(Items(rows), One)
  {
    CountIsSum(Items(rows));
    SumPairwise(rows, Items(rows), InputIn, CaseInput);
    SumPairwise(rows, Items(rows), OutputIn, CaseOutput);
    SumPairwise(rows, Items(rows), ToolCallsIn, CaseTools);
    SumPairwise(rows, Items(rows), ModelCallsIn, CaseCalls);
  }

  lemma RowsKnownWhenReported(run: Run)
    requires AllIn(run) && AllCallsReportedBy(run)
    ensures forall k | 0 <= k < |run.rows| :: run.rows[k].item.modelCalls.Some?
  {
    forall k | 0 <= k < |run.rows| ensures run.rows[k].item.modelCalls.Some? {
      var row := run.rows[k];
      assert RowJustified(run.registration.pricing, run.receipts, row);
      ReportsAreSums(run, row.shard);
      var uploaded := run.receipts[row.shard].payload.cases;
      var j :| 0 <= j < |uploaded| && uploaded[j] == row.item;
    }
  }

  lemma ReportedWhenRowsKnown(run: Run)
    requires AllIn(run) && forall k | 0 <= k < |run.rows| :: run.rows[k].item.modelCalls.Some?
    ensures AllCallsReportedBy(run)
  {
    forall i | 0 <= i < run.registration.expectedShards ensures CallsReported(run.receipts[i]) {
      var uploaded := run.receipts[i].payload.cases;
      forall j | 0 <= j < |uploaded| ensures uploaded[j].modelCalls.Some? {
        assert HasItem(run.rows, uploaded[j]);
        var k :| 0 <= k < |run.rows| && run.rows[k].item == uploaded[j];
      }
      ReportsAreSums(run, i);
    }
  }

  /** A run's model calls are known exactly when it stores a case and every shard with cases reported its own. */
  lemma CallsKnownExactlyWhen(run: Run)
    requires AllIn(run)
    ensures AllCallsKnown(run.rows) <==> run.rows != [] && AllCallsReportedBy(run)
  {
    if AllCallsReportedBy(run) { RowsKnownWhenReported(run); }
    if AllCallsKnown(run.rows) { ReportedWhenRowsKnown(run); }
  }

  /** Sums over the stored rows are the sums of the shard summaries the workers reported. */
  lemma TotalsMatchSummaries(run: Run, cases: seq<string>, iterations: nat)
    requires AllIn(run) && FullSlices(run, cases, iterations) && NoDuplicates(cases)
    ensures var receipts := Receipts(run, run.registration.expectedShards);
            && Sum(run.rows, InputIn) == Sum(receipts, ReportedInput)
            && Sum(run.rows, OutputIn) == Sum(receipts, ReportedOutput)
            && Sum(run.rows, ToolCallsIn) == Sum(receipts, ReportedTools)
            && |run.rows| == Sum(receipts, ReportedTotal)
            && (AllCallsReportedBy(run) ==> Sum(run.rows, ModelCallsIn) == Sum(receipts, ReportedCalls))
  {
    ItemTotals(run, cases, iterations);
    RowTotals(run.rows);
  }

  /** An aggregate carries exactly the totals its shards reported. */
  predicate TotalsReported(run: Run, a: Aggregate)
    requires forall i | 0 <= i < run.registration.expectedShards :: i in run.receipts
    requires run.registration.expectedShards >= 0
  {
    var receipts := Receipts(run, run.registration.expectedShards);
    && a.total == Sum(receipts, ReportedTotal)
    && a.inputTokens == Sum(receipts, ReportedInput) && a.outputTokens == Sum(receipts, ReportedOutput)
    && a.toolCalls == Sum(receipts, ReportedTools)
    && a.modelCalls == if a.total > 0 && AllCallsReportedBy(run) then Some(Sum(receipts, ReportedCalls)) else None
  }

  lemma AggregateReports(run: Run, cases: seq<string>, iterations: nat)
    requires AllIn(run) && FullSlices(run, cases, iterations) && NoDuplicates(cases)
    ensures TotalsReported(run, AggregateOf(run.rows))
  {
    TotalsMatchSummaries(run, cases, iterations);
    CallsKnownExactlyWhen(run);
  }

  /** End to end, for any shard count and any interleaving: a complete run whose shards each uploaded
      their full slice stores every dataset case of every iteration exactly once, its aggregate is the
      fold over those rows, and its totals are the sums of the shard summaries. */
  lemma CompleteRunHoldsTheDataset(events: seq<Event>, id: RunId, cases: seq<string>, iterations: nat)
    requires id in After(EMPTY, events).runs && After(EMPTY, events).runs[id].status.Complete?
    requires FullSlices(After(EMPTY, events).runs[id], cases, iterations) && NoDuplicates(cases)
    ensures var run := After(EMPTY, events).runs[id];
            && multiset(RowKeys(run.rows)) == multiset(Work(cases, 1, 0, iterations))
            && run.summary == Some(AggregateOf(run.rows))
            && run.summary.value.total == iterations * |cases|
            && TotalsReported(run, run.summary.value)
  {
    ReachableValid(events);
    var s := After(EMPTY, events);
    CompleteIsAllIn(s.runs[id], s.now, s.issued);
    AggregateReports(s.runs[id], cases, iterations);
    StoresTheDataset(s.runs[id], cases, iterations);
  }

  lemma StoresTheDataset(run: Run, cases: seq<string>, iterations: nat)
    requires AllIn(run) && FullSlices(run, cases, iterations) && NoDuplicates(cases)
    ensures multiset(RowKeys(run.rows)) == multiset(Work(cases, 1, 0, iterations))
    ensures |run.rows| == iterations * |cases|
  {
    EveryItemStoredOnce(run, cases, iterations);
    WholeWork(cases, iterations);
    assert |multiset(RowKeys(run.rows))| == |RowKeys(run.rows)|;
    assert |multiset(Work(cases, 1, 0, iterations))| == |Work(cases, 1, 0, iterations)|;
  }

  lemma CompleteIsAllIn(run: Run, now: int, issued: Token)
    requires RunValid(run, now, issued) && run.status.Complete?
    ensures AllIn(run) && run.summary == Some(AggregateOf(run.rows))
  {
    forall i | 0 <= i < run.registration.expectedShards ensures i in run.receipts && run.receipts[i].complete {
      assert i in CompleteReceipts(run.receipts);
    }
    assert 0 in CompleteReceipts(run.receipts);
  }

  lemma RowIsPriced(run: Run, pricing: RunPricing, row: CaseRow)
    requires ReceiptsValid(run.registration, run.receipts)
    requires RowsValid(run.registration.pricing, run.receipts, run.rows)
    requires run.registration.pricing == Some(pricing) && AllPriced(run.rows) && row in run.rows
    ensures InputIn(row) >= 0 && InputCostIn(row) == TokenCost(HalfAwayFromZero, InputIn(row), pricing.inputPrice)
    ensures OutputIn(row) >= 0 && OutputCostIn(row) == TokenCost(HalfAwayFromZero, OutputIn(row), pricing.outputPrice)
  {
    var k :| 0 <= k < |run.rows| && run.rows[k] == row;
    assert RowJustified(run.registration.pricing, run.receipts, run.rows[k]);
    assert row.costs.Some?;
  }

  predicate WithinHalfUnits(cost: int, exact: int, n: int) { -(n + 1) <= 2 * (cost - exact) <= n + 1 }

  lemma RowCostsTrack(run: Run, pricing: RunPricing)
    requires ReceiptsValid(run.registration, run.receipts)
    requires RowsValid(run.registration.pricing, run.receipts, run.rows)
    requires run.registration.pricing == Some(pricing) && AllPriced(run.rows)
    ensures
      var rows := run.rows;
      var (input, output) := (Sum(rows, InputIn), Sum(rows, OutputIn));
      && input >= 0 && output >= 0
      && WithinHalfUnits(Sum(rows, InputCostIn), TokenCost(HalfAwayFromZero, input, pricing.inputPrice), |rows|)
      && WithinHalfUnits(Sum(rows, OutputCostIn), TokenCost(HalfAwayFromZero, output, pricing.outputPrice), |rows|)
  {
    forall row | row in run.rows { RowIsPriced(run, pricing, row); }
    SumOfRoundedCosts(HalfAwayFromZero, run.rows, InputIn, InputCostIn, pricing.inputPrice);
    SumOfRoundedCosts(HalfAwayFromZero, run.rows, OutputIn, OutputCostIn, pricing.outputPrice);
  }

  /** In every reachable state with a known cost, each cost of the aggregate is within (n + 1) / 2 units of 10^-12 USD
      of pricing that aggregate's own tokens at once. */
  lemma RunCostTracksTokens(events: seq<Event>, id: RunId)
    requires id in After(EMPTY, events).runs && After(EMPTY, events).runs[id].summary.Some?
    requires After(EMPTY, events).runs[id].summary.value.cost.Some?
    ensures
      var run := After(EMPTY, events).runs[id];
      var a := run.summary.value;
      && run.registration.pricing.Some? && a.inputCost.Some? && a.outputCost.Some?
      && a.inputTokens >= 0 && a.outputTokens >= 0
      && var p := run.registration.pricing.value;
         && WithinHalfUnits(a.inputCost.value, TokenCost(HalfAwayFromZero, a.inputTokens, p.inputPrice), a.total)
         && WithinHalfUnits(a.outputCost.value, TokenCost(HalfAwayFromZero, a.outputTokens, p.outputPrice), a.total)
  {
    ReachableValid(events);
    Aggregates.CostKnownExactlyWhen(events, id);
    var s := After(EMPTY, events);
    Aggregates.RowsPriced(s.runs[id], s.now, s.issued);
    RowCostsTrack(s.runs[id], s.runs[id].registration.pricing.value);
  }
}
