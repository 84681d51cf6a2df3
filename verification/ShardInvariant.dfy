/** What every step of the store keeps. */
module ShardInvariant {
  import opened Collections
  import opened Uploads
  import opened Pricing
  import opened ShardStore

  // ---- The invariant of one run ----

  /** The summary adds up its cases; model calls are known when every case's are. */
  predicate SummarySound(s: Summary, cases: seq<CaseResult>) {
    && s.total == |cases|
    && s.inputTokens == Sum(cases, CaseInput) && s.outputTokens == Sum(cases, CaseOutput)
    && s.toolCalls == Sum(cases, CaseTools)
    && (cases != [] ==> s.modelCalls.Some? == AllCallsReported(cases))
    && (AllCallsReported(cases) ==> Known(s.modelCalls) == Sum(cases, CaseCalls))
  }

  /** The parts of an accepted, normalized upload that the store relies on. */
  predicate Sound(u: Upload) {
    && NoDuplicates(Keys(u.cases))
    && SummarySound(u.summary, u.cases)
    && forall i | 0 <= i < |u.cases| ::
         u.cases[i].inputTokens >= 0 && u.cases[i].outputTokens >= 0 && |u.cases[i].caseId| > 0
  }

  function Shards(registration: Registration): set<int> {
    if registration.expectedShards >= 0 then Range(registration.expectedShards) else {}
  }

  predicate ReceiptsValid(registration: Registration, receipts: map<int, Receipt>) {
    && registration.expectedShards >= 1
    && forall i | i in receipts :: i in Shards(registration) && Sound(receipts[i].payload)
  }

  /** Completion is exact, and a run is withdrawn exactly when a terminal request is stored. */
  predicate StatusValid(shards: set<int>, done: set<int>, status: Status, terminal: Option<TerminalRequest>,
                        completedAt: Option<int>)
  {
    && (status.Complete? ==> done == shards)
    && (status.Collecting? ==> done != shards)
    && (terminal.Some? <==> status.Cancelled? || status.HarnessFailed?)
    && (terminal.Some? ==> terminal.value.status == status)
    && (completedAt.Some? <==> status.Complete?)
  }

  /** A queued run has one row per shard, finished exactly when its receipt is complete, and rows are
      open for claims only while the run is collecting. */
  predicate QueueValid(registration: Registration, done: set<int>, status: Status, queue: map<int, QueueRow>) {
    && queue.Keys == (if registration.Queued() then Shards(registration) else {})
    && (forall i | i in queue :: queue[i].Finished? <==> i in done)
    && (forall i | i in queue :: status.Collecting? ==> !queue[i].Withdrawn?)
    && (forall i | i in queue :: !status.Collecting? ==> queue[i].Finished? || queue[i].Withdrawn?)
  }

  /** Tokens were issued, leases end within one duration, and no worker holds two live leases. */
  predicate LeasesValid(queue: map<int, QueueRow>, now: int, issued: Token) {
    && (forall i | i in queue && queue[i].Leased? :: queue[i].token < issued && queue[i].expires <= now + LEASE)
    && (forall i, j | i in queue && j in queue && Live(queue[i], now) && Live(queue[j], now)
                      && queue[i].owner == queue[j].owner :: i == j)
  }

  predicate HasItem(rows: seq<CaseRow>, c: CaseResult) { exists i :: 0 <= i < |rows| && rows[i].item == c }

  predicate DistinctRows(rows: seq<CaseRow>) {
    forall i, j | 0 <= i < j < |rows| :: RowKey(rows[i]) != RowKey(rows[j])
  }

  /** A stored row is a case of a completed shard's pinned payload, priced by the run's registration. */
  predicate RowJustified(pricing: Option<RunPricing>, receipts: map<int, Receipt>, row: CaseRow) {
    && row.shard in receipts && receipts[row.shard].complete
    && row.item in receipts[row.shard].payload.cases
    && row == NewRow(row.shard, pricing, row.item)
  }

  predicate RowsValid(pricing: Option<RunPricing>, receipts: map<int, Receipt>, rows: seq<CaseRow>) {
    && DistinctRows(rows)
    && (forall i | 0 <= i < |rows| :: RowJustified(pricing, receipts, rows[i]))
    && (forall i, c | i in receipts && receipts[i].complete && c in receipts[i].payload.cases :: HasItem(rows, c))
  }

  /** The aggregate is the fold over the stored rows once any shard is complete. */
  predicate SummaryValid(done: set<int>, rows: seq<CaseRow>, summary: Option<Aggregate>) {
    && summary == (if done == {} then None else Some(AggregateOf(rows)))
    && (done == {} ==> rows == [])
  }

  predicate RunValid(run: Run, now: int, issued: Token) {
    var done := CompleteReceipts(run.receipts);
    && ReceiptsValid(run.registration, run.receipts)
    && StatusValid(Shards(run.registration), done, run.status, run.terminal, run.completedAt)
    && QueueValid(run.registration, done, run.status, run.queue)
    && LeasesValid(run.queue, now, issued)
    && RowsValid(run.registration.pricing, run.receipts, run.rows)
    && SummaryValid(done, run.rows, run.summary)
  }

  predicate Valid(s: Store) {
    forall id | id in s.runs :: RunValid(s.runs[id], s.now, s.issued)
  }

  // ---- Inserting cases ----

  predicate Compatible(rows: seq<CaseRow>, c: CaseResult) {
    forall i | 0 <= i < |rows| :: RowKey(rows[i]) == KeyOf(c) ==> rows[i].item == c
  }

  lemma InsertCaseSpec(rows: seq<CaseRow>, row: CaseRow)
    requires DistinctRows(rows)
    ensures var r := InsertCase(rows, row);
            && (r.Some? <==> Compatible(rows, row.item))
            && (r.Some? ==> r.value == rows || r.value == rows + [row])
            && (r.Some? ==> DistinctRows(r.value) && HasItem(r.value, row.item))
  {
    var r := InsertCase(rows, row);
    if r.Some? && r.value != rows {
      assert r.value[|rows|].item == row.item;
    }
  }

  /** Inserting a shard's cases succeeds exactly when none contradicts a stored row, and then stores
      each of them once, after the rows already there. */
  lemma {:induction false} InsertCasesSpec(
    rows: seq<CaseRow>, shard: int, pricing: Option<RunPricing>, cases: seq<CaseResult>)
    requires DistinctRows(rows) && NoDuplicates(Keys(cases))
    ensures var r := InsertCases(rows, shard, pricing, cases);
            && (r.Some? <==> forall k | 0 <= k < |cases| :: Compatible(rows, cases[k]))
            && (r.Some? ==> rows <= r.value && DistinctRows(r.value))
            && (r.Some? ==> forall k | 0 <= k < |cases| :: HasItem(r.value, cases[k]))
            && (r.Some? ==> forall i | |rows| <= i < |r.value| ::
                              r.value[i].item in cases && r.value[i] == NewRow(shard, pricing, r.value[i].item))
    decreases |cases|
  {
    if cases != [] {
      var row := NewRow(shard, pricing, cases[0]);
      InsertCaseSpec(rows, row);
      var first := InsertCase(rows, row);
      if first.Some? {
        assert Keys(cases)[1..] == Keys(cases[1..]);
        InsertCasesSpec(first.value, shard, pricing, cases[1..]);
        RestCompatible(rows, first.value, row, cases);
        var r := InsertCases(first.value, shard, pricing, cases[1..]);
        if r.Some? { KeepsItem(first.value, r.value, cases[0]); }
      }
    }
  }

  lemma KeepsItem(rows: seq<CaseRow>, more: seq<CaseRow>, c: CaseResult)
    requires rows <= more && HasItem(rows, c)
    ensures HasItem(more, c)
  {
    var i :| 0 <= i < |rows| && rows[i].item == c;
    assert more[i].item == c;
  }

  lemma RestCompatible(rows: seq<CaseRow>, more: seq<CaseRow>, row: CaseRow, cases: seq<CaseResult>)
    requires |cases| > 0 && NoDuplicates(Keys(cases)) && row.item == cases[0]
    requires more == rows || more == rows + [row]
    ensures forall k | 1 <= k < |cases| :: Compatible(rows, cases[k]) <==> Compatible(more, cases[k])
  {
    forall k | 1 <= k < |cases| ensures Compatible(rows, cases[k]) <==> Compatible(more, cases[k]) {
      assert Keys(cases)[0] != Keys(cases)[k];
      if Compatible(more, cases[k]) {
        forall i | 0 <= i < |rows| && RowKey(rows[i]) == KeyOf(cases[k]) ensures rows[i].item == cases[k] {
          assert more[i] == rows[i];
        }
      }
    }
  }

  predicate Stored(rows: seq<CaseRow>, c: CaseResult) {
    exists i :: 0 <= i < |rows| && RowKey(rows[i]) == KeyOf(c)
  }

  /** The cases that are not stored yet, in the order of the upload. */
  function Fresh(rows: seq<CaseRow>, cases: seq<CaseResult>): seq<CaseResult> {
    if cases == [] then []
    else (if Stored(rows, cases[0]) then [] else [cases[0]]) + Fresh(rows, cases[1..])
  }

  function NewRows(shard: int, pricing: Option<RunPricing>, cases: seq<CaseResult>): seq<CaseRow> {
    seq(|cases|, i requires 0 <= i < |cases| => NewRow(shard, pricing, cases[i]))
  }

  lemma {:induction false} FreshIgnoresOthers(rows: seq<CaseRow>, row: CaseRow, cases: seq<CaseResult>)
    requires forall k | 0 <= k < |cases| :: KeyOf(cases[k]) != RowKey(row)
    ensures Fresh(rows + [row], cases) == Fresh(rows, cases)
  {
    if cases != [] {
      FreshIgnoresOthers(rows, row, cases[1..]);
      StoredIgnoresOther(rows, row, cases[0]);
    }
  }

  lemma StoredIgnoresOther(rows: seq<CaseRow>, row: CaseRow, c: CaseResult)
    requires KeyOf(c) != RowKey(row)
    ensures Stored(rows + [row], c) == Stored(rows, c)
  {
    if Stored(rows, c) {
      var i :| 0 <= i < |rows| && RowKey(rows[i]) == KeyOf(c);
      assert RowKey((rows + [row])[i]) == KeyOf(c);
    }
  }

  /** What insertion stores is the rows that were there, then the cases that were not, in the order of the upload. */
  lemma {:induction false} InsertCasesInOrder(
    rows: seq<CaseRow>, shard: int, pricing: Option<RunPricing>, cases: seq<CaseResult>)
    requires NoDuplicates(Keys(cases)) && InsertCases(rows, shard, pricing, cases).Some?
    ensures InsertCases(rows, shard, pricing, cases).value == rows + NewRows(shard, pricing, Fresh(rows, cases))
    decreases |cases|
  {
    if cases != [] {
      var row, rest := NewRow(shard, pricing, cases[0]), cases[1..];
      var more := InsertCase(rows, row).value;
      assert Keys(cases)[1..] == Keys(rest);
      InsertCasesInOrder(more, shard, pricing, rest);
      FirstCaseInOrder(rows, shard, pricing, cases, more);
    }
  }

  lemma FirstCaseInOrder(
    rows: seq<CaseRow>, shard: int, pricing: Option<RunPricing>, cases: seq<CaseResult>, more: seq<CaseRow>)
    requires cases != [] && NoDuplicates(Keys(cases))
    requires InsertCase(rows, NewRow(shard, pricing, cases[0])) == Some(more)
    ensures more + NewRows(shard, pricing, Fresh(more, cases[1..])) ==
            rows + NewRows(shard, pricing, Fresh(rows, cases))
  {
    var row, rest := NewRow(shard, pricing, cases[0]), cases[1..];
    if Stored(rows, cases[0]) {
      assert more == rows;
      assert [] + Fresh(rows, rest) == Fresh(rows, rest);
    } else {
      assert more == rows + [row];
      OthersFollow(cases);
      FreshIgnoresOthers(rows, row, rest);
      NewRowsFollow(rows, shard, pricing, cases[0], Fresh(rows, rest));
    }
  }

  lemma OthersFollow(cases: seq<CaseResult>)
    requires cases != [] && NoDuplicates(Keys(cases))
    ensures forall k | 0 <= k < |cases[1..]| :: KeyOf(cases[1..][k]) != KeyOf(cases[0])
  {
    forall k | 0 <= k < |cases[1..]| ensures KeyOf(cases[1..][k]) != KeyOf(cases[0]) {
      assert Keys(cases)[0] != Keys(cases)[k + 1];
    }
  }

  lemma NewRowsFollow(
    rows: seq<CaseRow>, shard: int, pricing: Option<RunPricing>, first: CaseResult, unseen: seq<CaseResult>)
    ensures rows + [NewRow(shard, pricing, first)] + NewRows(shard, pricing, unseen) ==
            rows + NewRows(shard, pricing, [first] + unseen)
  {
    var row := NewRow(shard, pricing, first);
    assert NewRows(shard, pricing, [first] + unseen) == [row] + NewRows(shard, pricing, unseen);
  }

  // ---- Each transaction keeps the invariant ----

  lemma NewRunValid(registration: Registration, now: int, issued: Token)
    requires 1 <= registration.expectedShards
    ensures RunValid(NewRun(registration), now, issued)
  {
    assert CompleteReceipts(map[]) == {};
    assert 0 in Shards(registration);
  }

  /** Registering again adds no queue rows: they are all there. */
  lemma EnqueueAgain(run: Run, now: int, issued: Token)
    requires RunValid(run, now, issued)
    ensures Enqueued(run.queue, run.registration) == run.queue
  {
  }

  lemma WithdrawKeepsQueue(
    registration: Registration, done: set<int>, status: Status, queue: map<int, QueueRow>, issued: Token, now: int)
    requires QueueValid(registration, done, Collecting, queue) && !status.Collecting?
    ensures QueueValid(registration, done, status, Withdraw(queue))
    ensures LeasesValid(Withdraw(queue), now, issued)
  {
  }

  lemma TerminateKeeps(run: Run, request: TerminalRequest, now: int, issued: Token)
    requires RunValid(run, now, issued)
    requires request.status.Cancelled? || request.status.HarnessFailed?
    ensures RunValid(TerminateRun(run, request).0, now, issued)
  {
    if run.status.Collecting? {
      var done := CompleteReceipts(run.receipts);
      WithdrawKeepsQueue(run.registration, done, request.status, run.queue, issued, now);
    }
  }

  /** Rows of a collecting run may move freely between queued and leased. */
  lemma OpenRowsKeepQueue(
    registration: Registration, done: set<int>, queue: map<int, QueueRow>, queue': map<int, QueueRow>)
    requires QueueValid(registration, done, Collecting, queue)
    requires queue'.Keys == queue.Keys
    requires forall i | i in queue ::
               queue'[i] == queue[i] || (queue'[i].Leased? && (queue[i].Queued? || queue[i].Leased?))
    ensures QueueValid(registration, done, Collecting, queue')
  {
  }

  lemma RotateKeepsLeases(queue: map<int, QueueRow>, worker: WorkerId, now: int, issued: Token)
    requires LeasesValid(queue, now, issued)
    ensures LeasesValid(Rotated(queue, LiveOwned(queue, worker, now), issued, now + LEASE), now, issued + 1)
  {
  }

  lemma LeaseKeepsLeases(queue: map<int, QueueRow>, shard: int, worker: WorkerId, now: int, issued: Token)
    requires LeasesValid(queue, now, issued) && LiveOwned(queue, worker, now) == {}
    ensures LeasesValid(queue[shard := Leased(worker, issued, now + LEASE)], now, issued + 1)
  {
    assert forall i | i in queue && Live(queue[i], now) && queue[i].owner == worker ::
      i in LiveOwned(queue, worker, now);
  }

  /** What a claim leaves of the queue: open rows stay open, leases stay valid. */
  lemma ClaimKeepsQueue(run: Run, worker: WorkerId, now: int, issued: Token, done: set<int>)
    requires QueueValid(run.registration, done, run.status, run.queue) && LeasesValid(run.queue, now, issued)
    ensures QueueValid(run.registration, done, run.status, ClaimShard(run, worker, issued, now).0.queue)
    ensures LeasesValid(ClaimShard(run, worker, issued, now).0.queue, now, issued + 1)
  {
    var queue := ClaimShard(run, worker, issued, now).0.queue;
    if run.registration.Queued() && run.status.Collecting? {
      var mine, free := LiveOwned(run.queue, worker, now), Available(run.queue, now);
      if mine != {} {
        RotateKeepsLeases(run.queue, worker, now, issued);
        OpenRowsKeepQueue(run.registration, done, run.queue, queue);
      } else if free != {} {
        LeaseKeepsLeases(run.queue, Least(free), worker, now, issued);
        OpenRowsKeepQueue(run.registration, done, run.queue, queue);
      }
    }
  }

  lemma ClaimKeeps(run: Run, worker: WorkerId, now: int, issued: Token)
    requires RunValid(run, now, issued)
    ensures RunValid(ClaimShard(run, worker, issued, now).0, now, issued + 1)
  {
    var after := ClaimShard(run, worker, issued, now).0;
    ClaimKeepsQueue(run, worker, now, issued, CompleteReceipts(run.receipts));
    assert after == run.(queue := after.queue);
  }

  lemma RenewKeeps(run: Run, shard: int, token: Token, now: int, issued: Token)
    requires RunValid(run, now, issued)
    ensures RunValid(RenewLease(run, shard, token, now).0, now, issued)
  {
  }

  lemma ReserveKeeps(run: Run, shard: int, payload: Upload, lease: Option<Token>, now: int, issued: Token)
    requires RunValid(run, now, issued) && shard >= 0 && Sound(payload)
    ensures RunValid(ReserveShard(run, shard, payload, lease, now).0, now, issued)
  {
    var after := ReserveShard(run, shard, payload, lease, now).0;
    if after != run {
      assert after == run.(receipts := run.receipts[shard := Receipt(payload, false)]);
      ReserveKeepsRows(run.registration.pricing, run.receipts, after.receipts, run.rows);
    }
  }

  lemma ReserveKeepsRows(
    pricing: Option<RunPricing>, receipts: map<int, Receipt>, more: map<int, Receipt>, rows: seq<CaseRow>)
    requires RowsValid(pricing, receipts, rows)
    requires forall i | i in receipts :: i in more && more[i] == receipts[i]
    requires forall i | i in more && i !in receipts :: !more[i].complete
    ensures CompleteReceipts(more) == CompleteReceipts(receipts)
    ensures RowsValid(pricing, more, rows)
  {
    forall i | 0 <= i < |rows| ensures RowJustified(pricing, more, rows[i]) {
      assert RowJustified(pricing, receipts, rows[i]);
    }
    forall i ensures i in CompleteReceipts(more) <==> i in CompleteReceipts(receipts) {}
  }

  lemma CompleteOneMore(receipts: map<int, Receipt>, shard: int)
    requires shard in receipts
    ensures CompleteReceipts(receipts[shard := receipts[shard].(complete := true)]) ==
            CompleteReceipts(receipts) + {shard}
  {
  }

  lemma FinalizeKeepsRows(
    pricing: Option<RunPricing>, receipts: map<int, Receipt>, rows: seq<CaseRow>, shard: int, more: seq<CaseRow>)
    requires RowsValid(pricing, receipts, rows) && shard in receipts && Sound(receipts[shard].payload)
    requires InsertCases(rows, shard, pricing, receipts[shard].payload.cases) == Some(more)
    ensures RowsValid(pricing, receipts[shard := receipts[shard].(complete := true)], more)
  {
    var cases := receipts[shard].payload.cases;
    var after := receipts[shard := receipts[shard].(complete := true)];
    InsertCasesSpec(rows, shard, pricing, cases);
    forall i | 0 <= i < |more| ensures RowJustified(pricing, after, more[i]) {
      if i < |rows| { assert RowJustified(pricing, receipts, rows[i]); }
    }
    forall i, c | i in after && after[i].complete && c in after[i].payload.cases ensures HasItem(more, c) {
      if i != shard || receipts[i].complete { KeepsItem(rows, more, c); }
    }
  }

  lemma FinalizeKeepsQueue(registration: Registration, done: set<int>, status: Status, queue: map<int, QueueRow>,
                           shard: int, status': Status, now: int, issued: Token)
    requires QueueValid(registration, done, status, queue) && LeasesValid(queue, now, issued)
    requires shard in Shards(registration)
    requires status' == status || (status.Collecting? && status'.Complete? && done + {shard} == Shards(registration))
    ensures var queue' := if registration.Queued() && shard in queue then queue[shard := Finished] else queue;
            QueueValid(registration, done + {shard}, status', queue') && LeasesValid(queue', now, issued)
  {
  }

  /** Counting completed receipts tells exactly whether every shard is in. */
  lemma CountDecides(registration: Registration, receipts: map<int, Receipt>)
    requires ReceiptsValid(registration, receipts)
    ensures |CompleteReceipts(receipts)| == registration.expectedShards <==>
            CompleteReceipts(receipts) == Shards(registration)
  {
    FullRange(CompleteReceipts(receipts), registration.expectedShards);
  }

  lemma CompleteKeepsStatus(run: Run, shard: int, rows: seq<CaseRow>, now: int)
    requires ReceiptsValid(run.registration, run.receipts)
    requires StatusValid(
               Shards(run.registration), CompleteReceipts(run.receipts), run.status, run.terminal, run.completedAt)
    requires shard in run.receipts && !run.receipts[shard].complete
    ensures var after := CompleteShard(run, shard, rows, now);
            && CompleteReceipts(after.receipts) == CompleteReceipts(run.receipts) + {shard}
            && StatusValid(
                 Shards(run.registration), CompleteReceipts(after.receipts), after.status, after.terminal,
                 after.completedAt)
            && (after.status == run.status ||
                (run.status.Collecting? && after.status.Complete? &&
                 CompleteReceipts(after.receipts) == Shards(run.registration)))
  {
    var after := CompleteShard(run, shard, rows, now);
    CompleteOneMore(run.receipts, shard);
    assert shard in Shards(run.registration) && shard !in CompleteReceipts(run.receipts);
    CountDecides(run.registration, after.receipts);
  }

  lemma CompleteKeepsQueue(run: Run, shard: int, rows: seq<CaseRow>, now: int, issued: Token)
    requires RunValid(run, now, issued)
    requires shard in run.receipts && !run.receipts[shard].complete
    ensures var after := CompleteShard(run, shard, rows, now);
            && QueueValid(run.registration, CompleteReceipts(after.receipts), after.status, after.queue)
            && LeasesValid(after.queue, now, issued)
  {
    var after := CompleteShard(run, shard, rows, now);
    CompleteKeepsStatus(run, shard, rows, now);
    FinalizeKeepsQueue(
      run.registration, CompleteReceipts(run.receipts), run.status, run.queue, shard, after.status, now, issued);
  }

  lemma CompleteKeepsRows(run: Run, shard: int, rows: seq<CaseRow>, now: int)
    requires ReceiptsValid(run.registration, run.receipts)
    requires RowsValid(run.registration.pricing, run.receipts, run.rows)
    requires shard in run.receipts
    requires InsertCases(run.rows, shard, run.registration.pricing, run.receipts[shard].payload.cases) == Some(rows)
    ensures var after := CompleteShard(run, shard, rows, now);
            && RowsValid(run.registration.pricing, after.receipts, after.rows)
            && SummaryValid(CompleteReceipts(after.receipts), after.rows, after.summary)
  {
    FinalizeKeepsRows(run.registration.pricing, run.receipts, run.rows, shard, rows);
    CompleteOneMore(run.receipts, shard);
  }

  lemma CompleteKeeps(run: Run, shard: int, rows: seq<CaseRow>, now: int, issued: Token)
    requires RunValid(run, now, issued)
    requires shard in run.receipts && !run.receipts[shard].complete
    requires InsertCases(run.rows, shard, run.registration.pricing, run.receipts[shard].payload.cases) == Some(rows)
    ensures RunValid(CompleteShard(run, shard, rows, now), now, issued)
  {
    CompleteKeepsStatus(run, shard, rows, now);
    CompleteKeepsQueue(run, shard, rows, now, issued);
    CompleteKeepsRows(run, shard, rows, now);
  }

  lemma FinalizeKeeps(run: Run, shard: int, payload: Upload, lease: Option<Token>, now: int, issued: Token)
    requires RunValid(run, now, issued)
    ensures RunValid(FinalizeShard(run, shard, payload, lease, now).0, now, issued)
  {
    if !Fenced(run, shard, lease, now) && shard in run.receipts && run.receipts[shard].payload == payload
       && !run.receipts[shard].complete
    {
      var rows := InsertCases(run.rows, shard, run.registration.pricing, payload.cases);
      if rows.Some? { CompleteKeeps(run, shard, rows.value, now, issued); }
    }
  }

  lemma AcceptedSummaryIsSound(s: Summary, cases: seq<CaseResult>)
    requires SummaryAgrees(s, cases)
    ensures SummarySound(s, cases)
  {
    CasesTotalSums(cases);
  }

  lemma ValidCasesAreSound(run: string, cases: seq<CaseResult>)
    requires CasesValid(run, cases)
    ensures forall i | 0 <= i < |cases| ::
              cases[i].inputTokens >= 0 && cases[i].outputTokens >= 0 && |cases[i].caseId| > 0
  {
    forall i | 0 <= i < |cases|
      ensures cases[i].inputTokens >= 0 && cases[i].outputTokens >= 0 && |cases[i].caseId| > 0
    {
      assert CaseValid(run, cases[i]);
    }
  }

  lemma DefaultsKeepSummary(u: Upload)
    requires SummarySound(u.summary, u.cases)
    ensures SummarySound(Normalized(u).summary, Normalized(u).cases)
  {
    NormalizeKeepsCounts(u);
    CasesTotalSums(u.cases);
    CasesTotalSums(Normalized(u).cases);
  }

  /** The upload check and the defaults leave a payload the store can rely on. */
  lemma AcceptedIsSound(run: string, shard: int, u: Upload)
    requires Accepted(run, shard, u)
    ensures Sound(Normalized(u))
  {
    AcceptedSummaryIsSound(u.summary, u.cases);
    ValidCasesAreSound(run, u.cases);
    DefaultsKeepSummary(u);
    NormalizeKeepsCounts(u);
  }

  // ---- Every step and every run of steps keeps it ----

  /** Time and freshly issued tokens only relax the lease bounds. */
  lemma LaterValid(run: Run, now: int, issued: Token, now': int, issued': Token)
    requires RunValid(run, now, issued) && now <= now' && issued <= issued'
    ensures RunValid(run, now', issued')
  {
  }

  lemma OnRunKeeps(run: Run, e: Event, now: int, issued: Token)
    requires !e.Advance? && !e.Register? && WellFormed(e) && RunValid(run, now, issued)
    ensures RunValid(OnRun(run, e, now, issued).0, now, if e.Claim? then issued + 1 else issued)
  {
    match e
    case Terminate(_, request) => TerminateKeeps(run, request, now, issued);
    case Claim(_, worker) => ClaimKeeps(run, worker, now, issued);
    case Renew(_, shard, token) => RenewKeeps(run, shard, token, now, issued);
    case Reserve(id, shard, upload, lease) =>
      AcceptedIsSound(id, shard, upload);
      ReserveKeeps(run, shard, Normalized(upload), lease, now, issued);
    case Finalize(_, shard, upload, lease) => FinalizeKeeps(run, shard, Normalized(upload), lease, now, issued);
  }

  /** Whether a step is a transaction on the run `id`. */
  predicate Targets(e: Event, id: RunId) { !e.Advance? && !e.Register? && WellFormed(e) && e.id == id }

  lemma RegisterElsewhere(s: Store, other: RunId, registration: Registration, id: RunId)
    requires id in s.runs && Enqueued(s.runs[id].queue, s.runs[id].registration) == s.runs[id].queue
    ensures id in RegisterRun(s, other, registration).0.runs
    ensures RegisterRun(s, other, registration).0.runs[id] == s.runs[id]
  {
  }

  lemma CommitElsewhere(s: Store, e: Event, checked: bool, outcome: Option<(Run, Reply)>, id: RunId)
    requires !e.Advance? && !e.Register? && id in s.runs && (e.id == id ==> !checked)
    ensures id in Commit(s, e, checked, outcome).0.runs && Commit(s, e, checked, outcome).0.runs[id] == s.runs[id]
  {
  }

  lemma StepElsewhere(s: Store, e: Event, id: RunId)
    requires Valid(s) && id in s.runs && !Targets(e, id)
    ensures id in Step(s, e).0.runs && Step(s, e).0.runs[id] == s.runs[id]
  {
    if e.Register? {
      EnqueueAgain(s.runs[id], s.now, s.issued);
      RegisterElsewhere(s, e.id, e.registration, id);
    } else if !e.Advance? {
      CommitElsewhere(s, e, WellFormed(e), Transaction(s, e), id);
    }
  }

  lemma CommitMonotone(s: Store, e: Event, checked: bool, outcome: Option<(Run, Reply)>)
    requires !e.Advance? && !e.Register?
    ensures Commit(s, e, checked, outcome).0.now == s.now && Commit(s, e, checked, outcome).0.issued >= s.issued
  {
  }

  lemma StepMonotone(s: Store, e: Event)
    ensures Step(s, e).0.now >= s.now && Step(s, e).0.issued >= s.issued
  {
    if !e.Advance? && !e.Register? { CommitMonotone(s, e, WellFormed(e), Transaction(s, e)); }
  }

  /** A registered run changes only through transactions that name it. */
  lemma StepEffect(s: Store, e: Event, id: RunId)
    requires Valid(s) && id in s.runs
    ensures var after := Step(s, e).0;
            && id in after.runs
            && after.runs[id] == (if Targets(e, id) then OnRun(s.runs[id], e, s.now, s.issued).0 else s.runs[id])
            && after.now >= s.now && after.issued >= s.issued
    ensures Targets(e, id) ==> Step(s, e).1 == OnRun(s.runs[id], e, s.now, s.issued).1
  {
    StepMonotone(s, e);
    if !Targets(e, id) { StepElsewhere(s, e, id); }
  }

  lemma CommitAddsNone(s: Store, e: Event, checked: bool, outcome: Option<(Run, Reply)>)
    requires !e.Advance? && !e.Register? && (outcome.Some? ==> e.id in s.runs)
    ensures Commit(s, e, checked, outcome).0.runs.Keys == s.runs.Keys
  {
  }

  /** Only a registration adds a run, and it adds a new one. */
  lemma NewlyRegistered(s: Store, e: Event, id: RunId)
    requires id !in s.runs && id in Step(s, e).0.runs
    ensures e.Register? && WellFormed(e) && e.id == id && Step(s, e).0.runs[id] == NewRun(e.registration)
  {
    if !e.Advance? && !e.Register? { CommitAddsNone(s, e, WellFormed(e), Transaction(s, e)); }
  }

  lemma StepKeepsRun(s: Store, e: Event, id: RunId)
    requires Valid(s) && id in Step(s, e).0.runs
    ensures RunValid(Step(s, e).0.runs[id], Step(s, e).0.now, Step(s, e).0.issued)
  {
    var after := Step(s, e).0;
    StepMonotone(s, e);
    if id !in s.runs {
      NewlyRegistered(s, e, id);
      NewRunValid(e.registration, after.now, after.issued);
    } else {
      StepEffect(s, e, id);
      if Targets(e, id) {
        OnRunKeeps(s.runs[id], e, s.now, s.issued);
        CommitIssues(s, e, WellFormed(e), Transaction(s, e));
        LaterValid(after.runs[id], s.now, if e.Claim? then s.issued + 1 else s.issued, after.now, after.issued);
      } else {
        LaterValid(s.runs[id], s.now, s.issued, after.now, after.issued);
      }
    }
  }

  lemma CommitIssues(s: Store, e: Event, checked: bool, outcome: Option<(Run, Reply)>)
    requires !e.Advance? && !e.Register? && checked
    ensures Commit(s, e, checked, outcome).0.issued == if e.Claim? then s.issued + 1 else s.issued
  {
  }

  lemma StepKeeps(s: Store, e: Event)
    requires Valid(s)
    ensures Valid(Step(s, e).0)
  {
    var after := Step(s, e).0;
    forall id | id in after.runs ensures RunValid(after.runs[id], after.now, after.issued) {
      StepKeepsRun(s, e, id);
    }
  }

  lemma {:induction false} RunKeeps(s: Store, events: seq<Event>)
    requires Valid(s)
    ensures Valid(After(s, events))
    decreases |events|
  {
    if events != [] {
      StepKeeps(s, events[0]);
      RunKeeps(Step(s, events[0]).0, events[1..]);
    }
  }

  lemma ReachableValid(events: seq<Event>)
    ensures Valid(After(EMPTY, events))
  {
    RunKeeps(EMPTY, events);
  }
}
