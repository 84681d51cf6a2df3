/** The Result API's durable store: runs, their shard queue, receipts, case rows and aggregate.

    Each repository call is one atomic step. Lease tokens are drawn from a counter, so they are fresh
    by construction; a payload stands for its own hash; idempotency keys are determined by the
    identities they encode. Times are microseconds of a clock that never goes back. */
module ShardStore {
  import opened Collections
  import opened Texts
  import opened Uploads
  import opened Pricing

  type RunId = string
  type WorkerId = string
  type Token = nat

  /** The 45-second shard lease. */
  const LEASE: int := 45_000_000

  datatype Status = Collecting | Complete | Cancelled | HarnessFailed

  datatype Scheduling = Unscheduled | Indexed | Keda

  datatype Registration = Registration(
    expectedShards: int, scheduling: Scheduling, pricing: Option<RunPricing>, rest: string)
  {
    predicate Queued() { scheduling.Keda? }
  }

  datatype TerminalRequest = TerminalRequest(status: Status, reason: string)

  datatype QueueRow =
    | Queued
    | Leased(owner: WorkerId, token: Token, expires: int)
    | Finished
    | Withdrawn

  datatype Receipt = Receipt(payload: Upload, complete: bool)

  datatype CaseRow = CaseRow(shard: int, item: CaseResult, costs: Option<Costs>)

  datatype Aggregate = Aggregate(
    total: int, succeeded: int, failed: int, qualityFailures: int, infrastructureFailures: int,
    attempts: int, retries: int, retriedCases: int, retrySuccesses: int, injectedFaults: int, circuitRejections: int,
    inputTokens: int, outputTokens: int, modelCalls: Option<int>, toolCalls: int,
    inputCost: Option<int>, outputCost: Option<int>, cost: Option<int>, usageComplete: bool)

  datatype Run = Run(
    registration: Registration, status: Status, terminal: Option<TerminalRequest>,
    queue: map<int, QueueRow>, receipts: map<int, Receipt>, rows: seq<CaseRow>,
    summary: Option<Aggregate>, completedAt: Option<int>)

  datatype Store = Store(runs: map<RunId, Run>, now: int, issued: Token)

  datatype Error = Invalid | NotFound | Conflict | LeaseLost | QueueEmpty | Unavailable

  datatype Reply =
    | Created(created: bool)
    | Claimed(shard: int, token: Token, expires: int)
    | Renewed(expires: int)
    | Reserved(alreadyComplete: bool)
    | Refused(error: Error)
    | Elapsed

  /** `Reserve` and `Finalize` are the two transactions of one upload; writing the raw document to the
      object store happens between them. */
  datatype Event =
    | Advance(elapsed: nat)
    | Register(id: RunId, registration: Registration)
    | Terminate(id: RunId, request: TerminalRequest)
    | Claim(id: RunId, worker: WorkerId)
    | Renew(id: RunId, shard: int, token: Token)
    | Reserve(id: RunId, shard: int, upload: Upload, lease: Option<Token>)
    | Finalize(id: RunId, shard: int, upload: Upload, lease: Option<Token>)

  // ---- Queue rows ----

  predicate Live(row: QueueRow, now: int) { row.Leased? && row.expires > now }

  predicate Claimable(row: QueueRow, now: int) { row.Queued? || (row.Leased? && row.expires <= now) }

  predicate HoldsLease(queue: map<int, QueueRow>, shard: int, token: Token, now: int) {
    shard in queue && Live(queue[shard], now) && queue[shard].token == token
  }

  function LiveOwned(queue: map<int, QueueRow>, worker: WorkerId, now: int): set<int> {
    set i | i in queue && Live(queue[i], now) && queue[i].owner == worker
  }

  function Available(queue: map<int, QueueRow>, now: int): set<int> {
    set i | i in queue && Claimable(queue[i], now)
  }

  function CompleteReceipts(receipts: map<int, Receipt>): set<int> {
    set i | i in receipts && receipts[i].complete
  }

  // ---- Case rows ----

  function RowKey(row: CaseRow): CaseKey { KeyOf(row.item) }

  function CaseCosts(pricing: Option<RunPricing>, c: CaseResult): Option<Costs> {
    if UsageComplete(c.usageComplete) && c.inputTokens >= 0 && c.outputTokens >= 0
    then CostsForTokens(HalfAwayFromZero, pricing, c.inputTokens, c.outputTokens)
    else None
  }

  /** The cost of a whole shard that an upload reports back, from the tokens of its summary. */
  function ShardCosts(pricing: Option<RunPricing>, summary: Summary): Option<Costs> {
    if UsageComplete(summary.usageComplete) && summary.inputTokens >= 0 && summary.outputTokens >= 0
    then CostsForTokens(HalfAwayFromZero, pricing, summary.inputTokens, summary.outputTokens)
    else None
  }

  function NewRow(shard: int, pricing: Option<RunPricing>, c: CaseResult): CaseRow {
    CaseRow(shard, c, CaseCosts(pricing, c))
  }

  /** Insert-or-compare of one case: a repeat with the same content changes nothing, a repeat with
      different content is a conflict. */
  function InsertCase(rows: seq<CaseRow>, row: CaseRow): Option<seq<CaseRow>> {
    if forall i | 0 <= i < |rows| :: RowKey(rows[i]) != RowKey(row) then Some(rows + [row])
    else if exists i | 0 <= i < |rows| :: rows[i].item == row.item then Some(rows)
    else None
  }

  function InsertCases(rows: seq<CaseRow>, shard: int, pricing: Option<RunPricing>, cases: seq<CaseResult>)
    : Option<seq<CaseRow>>
    decreases |cases|
  {
    if cases == [] then Some(rows)
    else
      match InsertCase(rows, NewRow(shard, pricing, cases[0]))
      case None => None
      case Some(more) => InsertCases(more, shard, pricing, cases[1..])
  }

  // ---- Aggregate ----

  function Weight(b: bool): int { if b then 1 else 0 }

  function IsSuccess(r: CaseRow): int { Weight(r.item.success) }
  function IsQuality(r: CaseRow): int { Weight(!r.item.success && r.item.category.EvaluationCategory?) }
  function IsInfrastructure(r: CaseRow): int {
    var category := r.item.category;
    Weight(!r.item.success && (category.ProviderCategory? || category.ToolCategory? || category.HarnessCategory?))
  }
  function AttemptsIn(r: CaseRow): int { |r.item.attempts| }
  function RetriesIn(r: CaseRow): int { if |r.item.attempts| > 1 then |r.item.attempts| - 1 else 0 }
  function IsRetried(r: CaseRow): int { Weight(|r.item.attempts| > 1) }
  function IsRetrySuccess(r: CaseRow): int { Weight(r.item.success && |r.item.attempts| > 1) }
  function IsInjected(a: Attempt): int { Weight(!a.fault.NoFault?) }
  function IsRejected(a: Attempt): int { Weight(a.code.CircuitOpen?) }
  function InjectedIn(r: CaseRow): int { Sum(r.item.attempts, IsInjected) }
  function RejectionsIn(r: CaseRow): int { Sum(r.item.attempts, IsRejected) }
  function InputIn(r: CaseRow): int { r.item.inputTokens }
  function OutputIn(r: CaseRow): int { r.item.outputTokens }
  function ModelCallsIn(r: CaseRow): int { Known(r.item.modelCalls) }
  function ToolCallsIn(r: CaseRow): int { r.item.toolCalls }
  function InputCostIn(r: CaseRow): int { if r.costs.Some? then r.costs.value.input else 0 }
  function OutputCostIn(r: CaseRow): int { if r.costs.Some? then r.costs.value.output else 0 }
  function CostIn(r: CaseRow): int { if r.costs.Some? then r.costs.value.total else 0 }

  predicate AllPriced(rows: seq<CaseRow>) { rows != [] && forall i | 0 <= i < |rows| :: rows[i].costs.Some? }

  predicate AllCallsKnown(rows: seq<CaseRow>) {
    rows != [] && forall i | 0 <= i < |rows| :: rows[i].item.modelCalls.Some?
  }

  function AggregateOf(rows: seq<CaseRow>): Aggregate {
    var known := (all: bool, sum: int) => if all then Some(sum) else None;
    Aggregate(
      |rows|, Sum(rows, IsSuccess), |rows| - Sum(rows, IsSuccess), Sum(rows, IsQuality), Sum(rows, IsInfrastructure),
      Sum(rows, AttemptsIn), Sum(rows, RetriesIn), Sum(rows, IsRetried), Sum(rows, IsRetrySuccess),
      Sum(rows, InjectedIn), Sum(rows, RejectionsIn), Sum(rows, InputIn), Sum(rows, OutputIn),
      known(AllCallsKnown(rows), Sum(rows, ModelCallsIn)), Sum(rows, ToolCallsIn),
      known(AllPriced(rows), Sum(rows, InputCostIn)), known(AllPriced(rows), Sum(rows, OutputCostIn)),
      known(AllPriced(rows), Sum(rows, CostIn)),
      forall i | 0 <= i < |rows| :: UsageComplete(rows[i].item.usageComplete))
  }

  // ---- Transactions on one run ----

  function Enqueued(queue: map<int, QueueRow>, registration: Registration): map<int, QueueRow> {
    if registration.Queued() && registration.expectedShards >= 0
    then (map i | i in Range(registration.expectedShards) :: Queued) + queue
    else queue
  }

  function NewRun(registration: Registration): Run {
    Run(registration, Collecting, None, Enqueued(map[], registration), map[], [], None, None)
  }

  function Withdraw(queue: map<int, QueueRow>): map<int, QueueRow> {
    map i | i in queue :: if queue[i].Finished? then Finished else Withdrawn
  }

  function TerminateRun(run: Run, request: TerminalRequest): (Run, Reply) {
    if run.status.Complete? then (run, Refused(Conflict))
    else if !run.status.Collecting? then
      (run, if run.terminal == Some(request) then Created(false) else Refused(Conflict))
    else
      (run.(status := request.status, terminal := Some(request), queue := Withdraw(run.queue)), Created(true))
  }

  function Rotated(queue: map<int, QueueRow>, shards: set<int>, token: Token, expires: int): map<int, QueueRow> {
    map i | i in queue ::
      if i in shards && queue[i].Leased? then queue[i].(token := token, expires := expires) else queue[i]
  }

  function ClaimShard(run: Run, worker: WorkerId, token: Token, now: int): (Run, Reply) {
    if !run.registration.Queued() then (run, Refused(Invalid))
    else if !run.status.Collecting? then (run, Refused(QueueEmpty))
    else
      var mine := LiveOwned(run.queue, worker, now);
      var free := Available(run.queue, now);
      if mine != {} then
        (run.(queue := Rotated(run.queue, mine, token, now + LEASE)), Claimed(Least(mine), token, now + LEASE))
      else if free != {} then
        (run.(queue := run.queue[Least(free) := Leased(worker, token, now + LEASE)]),
         Claimed(Least(free), token, now + LEASE))
      else (run, Refused(QueueEmpty))
  }

  function RenewLease(run: Run, shard: int, token: Token, now: int): (Run, Reply) {
    if HoldsLease(run.queue, shard, token, now) then
      (run.(queue := run.queue[shard := run.queue[shard].(expires := now + LEASE)]), Renewed(now + LEASE))
    else (run, Refused(LeaseLost))
  }

  /** A queued run that is still collecting takes uploads only under a live lease. */
  predicate Fenced(run: Run, shard: int, lease: Option<Token>, now: int) {
    && run.registration.Queued() && run.status.Collecting?
    && !(lease.Some? && HoldsLease(run.queue, shard, lease.value, now))
  }

  function ReserveShard(run: Run, shard: int, payload: Upload, lease: Option<Token>, now: int): (Run, Reply) {
    if shard >= run.registration.expectedShards then (run, Refused(Invalid))
    else if Fenced(run, shard, lease, now) then (run, Refused(LeaseLost))
    else if shard !in run.receipts then
      (run.(receipts := run.receipts[shard := Receipt(payload, false)]), Reserved(false))
    else if run.receipts[shard].payload != payload then (run, Refused(Conflict))
    else (run, Reserved(run.receipts[shard].complete))
  }

  /** Recomputes the aggregate and the status. A withdrawn run keeps its status. */
  function RefreshAggregate(run: Run, now: int): Run {
    var done := |CompleteReceipts(run.receipts)| == run.registration.expectedShards;
    var withdrawn := run.status.Cancelled? || run.status.HarnessFailed?;
    run.(summary := Some(AggregateOf(run.rows)),
         status := if withdrawn then run.status else if done then Complete else Collecting,
         completedAt := if !withdrawn && done && run.completedAt.None? then Some(now) else run.completedAt)
  }

  function CompleteShard(run: Run, shard: int, rows: seq<CaseRow>, now: int): Run
    requires shard in run.receipts
  {
    RefreshAggregate(
      run.(receipts := run.receipts[shard := run.receipts[shard].(complete := true)],
           queue := if run.registration.Queued() && shard in run.queue then run.queue[shard := Finished] else run.queue,
           rows := rows),
      now)
  }

  function FinalizeShard(run: Run, shard: int, payload: Upload, lease: Option<Token>, now: int): (Run, Reply) {
    if Fenced(run, shard, lease, now) then (run, Refused(LeaseLost))
    else if shard !in run.receipts then (run, Refused(NotFound))
    else if run.receipts[shard].payload != payload then (run, Refused(Conflict))
    else if run.receipts[shard].complete then (run, Created(false))
    else
      match InsertCases(run.rows, shard, run.registration.pricing, payload.cases)
      case None => (run, Refused(Conflict))
      case Some(rows) => (CompleteShard(run, shard, rows, now), Created(true))
  }

  // ---- Steps of the store ----

  function RegisterRun(s: Store, id: RunId, registration: Registration): (Store, Reply) {
    if id !in s.runs then (s.(runs := s.runs[id := NewRun(registration)]), Created(true))
    else if s.runs[id].registration != registration then (s, Refused(Conflict))
    else
      var run := s.runs[id];
      (s.(runs := s.runs[id := run.(queue := Enqueued(run.queue, registration))]), Created(false))
  }

  /** The checks on a request that need no stored state. */
  predicate WellFormed(e: Event) {
    match e
    case Register(_, registration) => 1 <= registration.expectedShards <= 10_000
    case Terminate(_, request) => request.status.Cancelled? || request.status.HarnessFailed?
    case Claim(_, worker) => !Blank(worker)
    case Renew(_, shard, _) => shard >= 0
    case Reserve(id, shard, upload, _) => Accepted(id, shard, upload)
    case _ => true
  }

  /** What a step does to the run it names. */
  function OnRun(run: Run, e: Event, now: int, token: Token): (Run, Reply)
    requires !e.Advance? && !e.Register?
  {
    match e
    case Terminate(_, request) => TerminateRun(run, request)
    case Claim(_, worker) => ClaimShard(run, worker, token, now)
    case Renew(_, shard, held) => RenewLease(run, shard, held, now)
    case Reserve(_, shard, upload, lease) => ReserveShard(run, shard, Normalized(upload), lease, now)
    case Finalize(_, shard, upload, lease) => FinalizeShard(run, shard, Normalized(upload), lease, now)
  }

  /** The transaction of a step, if its run is registered. */
  function Transaction(s: Store, e: Event): Option<(Run, Reply)>
    requires !e.Advance? && !e.Register?
  {
    if e.id in s.runs then Some(OnRun(s.runs[e.id], e, s.now, s.issued)) else None
  }

  /** A step whose request passed its checks or not, with what its transaction did. */
  function Commit(s: Store, e: Event, checked: bool, outcome: Option<(Run, Reply)>): (Store, Reply)
    requires !e.Advance? && !e.Register?
  {
    var issued := if e.Claim? then s.issued + 1 else s.issued;
    if !checked then (s, Refused(Invalid))
    else
      match outcome
      case None => (s.(issued := issued), Refused(if e.Renew? then LeaseLost else NotFound))
      case Some((run, reply)) => (s.(runs := s.runs[e.id := run], issued := issued), reply)
  }

  function Step(s: Store, e: Event): (Store, Reply) {
    match e
    case Advance(elapsed) => (s.(now := s.now + elapsed), Elapsed)
    case Register(id, registration) =>
      if WellFormed(e) then RegisterRun(s, id, registration) else (s, Refused(Invalid))
    case _ => Commit(s, e, WellFormed(e), Transaction(s, e))
  }

  /** The store after a whole run of steps, from any interleaving of clients. */
  function After(s: Store, events: seq<Event>): Store
    decreases |events|
  {
    if events == [] then s else After(Step(s, events[0]).0, events[1..])
  }

  const EMPTY := Store(map[], 0, 0)

  // ---- Queue status ----

  datatype QueueStatus = QueueStatus(
    status: Status, expected: int, pending: nat, available: nat, leased: nat, completed: nat)

  function QueueStatusOf(run: Run, now: int): QueueStatus {
    var pending := |Available(run.queue, now)|;
    QueueStatus(run.status, run.registration.expectedShards, pending,
                if run.status.Collecting? then pending else 0,
                |set i | i in run.queue && Live(run.queue[i], now)|,
                |set i | i in run.queue && run.queue[i].Finished?|)
  }
}
